/** Sign-up with an invite code: the code is required, validated before the
    account is created, and claimed once the new user's id is known; the
    Google path validates and stores the code before handing over to OAuth. */
module Register {
  import opened Base
  import Text

  const CODE_REQUIRED: string := "El código de invitación es obligatorio para la beta."
  const INVALID_CODE: string :=
    "Código de invitación inválido, expirado o ya utilizado. Verifica tu código e intenta de nuevo."
  const CLAIMED_BY_OTHER: string := "El código fue reclamado por alguien más. Solicita otro código."
  const CREATE_ERROR: string := "Error al crear la cuenta"
  const GOOGLE_CODE_REQUIRED: string := "Ingresa tu código de invitación antes de continuar con Google."
  const GOOGLE_INVALID_CODE: string := "Código de invitación inválido, expirado o ya utilizado."
  const STORAGE_KEY: string := "df_invite_code"

  /** The backend calls the form makes, in order. */
  datatype Call =
    | ValidateCode(code: string)
    | SignUp(email: string, password: string, fullName: string, inviteCode: string)
    | ClaimCode(code: string, userId: string)
    | StoreCode(key: string, code: string)
    | GoogleOAuth(redirectTo: string)

  /** An rpc of the form: it throws, or it answers; `ok` folds together "no
      error and a truthy result". */
  datatype RpcOutcome = RpcThrew(thrown: Thrown) | Answered(ok: bool)

  /** `signUp`: an auth error (which the form rethrows) or a thrown call, or
      the new user's id when there is one. */
  datatype SignUpOutcome = SignUpFailed(thrown: Thrown) | SignedUp(userId: Option<string>)

  /** `fullName.trim() || email.split("@")[0]`. */
  function DisplayName(fullName: string, email: string): (name: string)
    ensures Text.Trim(fullName) != "" ==> name == Text.Trim(fullName)
    ensures Text.Trim(fullName) == "" ==> '@' !in name
  {
    var trimmed := Text.Trim(fullName);
    if trimmed != "" then trimmed else Text.BeforeFirst(email, '@')
  }

  /** Without a name, the display name is the part of the email before its
      first "@" (the whole email if it has none). */
  lemma DisplayNameFromEmail(fullName: string, email: string)
    requires Text.Trim(fullName) == ""
    ensures Text.StartsWith(email, DisplayName(fullName, email))
    ensures |DisplayName(fullName, email)| < |email| ==> email[|DisplayName(fullName, email)|] == '@'
    ensures |DisplayName(fullName, email)| == |email| ==> '@' !in email
  {
    Text.BeforeFirstPrefix(email, '@');
  }

  class RegisterForm {
    var fullName: string
    var email: string
    var password: string
    var inviteCode: string
    var error: string
    var loading: bool
    var success: bool

    constructor ()
      ensures fullName == "" && email == "" && password == "" && inviteCode == ""
      ensures error == "" && !loading && !success
    {
      fullName, email, password, inviteCode := "", "", "", "";
      error, loading, success := "", false, false;
    }

    /** The invite-code field's `onChange`: the typed text is stored upper-cased. */
    method SetInviteCode(value: string)
      modifies this`inviteCode
      ensures inviteCode == Text.Upper(value)
      ensures Text.NoLowerAscii(inviteCode)
    {
      Text.UpperSpec(value);
      inviteCode := Text.Upper(value);
    }

    /** `handleSubmit`: each step runs only if the one before it succeeded,
        and every exit leaves `loading` false. */
    method HandleSubmit(validation: RpcOutcome, signUp: SignUpOutcome, claim: RpcOutcome)
      returns (calls: seq<Call>)
      modifies this`error, this`loading, this`success
      ensures !loading
      ensures var code := Text.Trim(inviteCode);
        var name := DisplayName(fullName, email);
        && (code == "" ==> calls == [] && error == CODE_REQUIRED && success == old(success))
        && (code != "" && validation.RpcThrew? ==>
              calls == [ValidateCode(code)] && error == MessageOr(validation.thrown, CREATE_ERROR)
              && success == old(success))
        && (code != "" && validation == Answered(false) ==>
              calls == [ValidateCode(code)] && error == INVALID_CODE && success == old(success))
        && (code != "" && validation == Answered(true) && signUp.SignUpFailed? ==>
              calls == [ValidateCode(code), SignUp(email, password, name, code)]
              && error == MessageOr(signUp.thrown, CREATE_ERROR) && success == old(success))
        && (code != "" && validation == Answered(true) && signUp.SignedUp? && !Truthy(signUp.userId) ==>
              calls == [ValidateCode(code), SignUp(email, password, name, code)]
              && error == "" && success)
        && (code != "" && validation == Answered(true) && signUp.SignedUp? && Truthy(signUp.userId) ==>
              calls == [ValidateCode(code), SignUp(email, password, name, code), ClaimCode(code, signUp.userId.value)]
              && (claim.RpcThrew? ==> error == MessageOr(claim.thrown, CREATE_ERROR) && success == old(success))
              && (claim == Answered(false) ==> error == CLAIMED_BY_OTHER && success == old(success))
              && (claim == Answered(true) ==> error == "" && success))
    {
      error := "";
      loading := true;
      calls := [];
      var code := Text.Trim(inviteCode);
      if code == "" {
        error := CODE_REQUIRED;
        loading := false;
        return;
      }
      var name := DisplayName(fullName, email);
      calls := [ValidateCode(code)];
      match validation {
        case RpcThrew(t) =>
          error := MessageOr(t, CREATE_ERROR);
          loading := false;
          return;
        case Answered(ok) =>
          if !ok {
            error := INVALID_CODE;
            loading := false;
            return;
          }
      }
      calls := calls + [SignUp(email, password, name, code)];
      match signUp {
        case SignUpFailed(t) =>
          error := MessageOr(t, CREATE_ERROR);
          loading := false;
          return;
        case SignedUp(userId) =>
          if Truthy(userId) {
            calls := calls + [ClaimCode(code, userId.value)];
            match claim {
              case RpcThrew(t) =>
                error := MessageOr(t, CREATE_ERROR);
                loading := false;
                return;
              case Answered(claimed) =>
                if !claimed {
                  error := CLAIMED_BY_OTHER;
                  loading := false;
                  return;
                }
            }
          }
      }
      success := true;
      loading := false;
    }

    /** `handleGoogle`: an empty code and an invalid code each set an error
        and stop; a valid code is stored before the OAuth redirect. A thrown
        validation is not caught, so the handler just stops. */
    method HandleGoogle(validation: RpcOutcome, origin: string) returns (calls: seq<Call>)
      modifies this`error
      ensures var code := Text.Trim(inviteCode);
        && (code == "" ==> calls == [] && error == GOOGLE_CODE_REQUIRED)
        && (code != "" && validation.RpcThrew? ==> calls == [ValidateCode(code)] && error == old(error))
        && (code != "" && validation == Answered(false) ==> calls == [ValidateCode(code)] && error == GOOGLE_INVALID_CODE)
        && (code != "" && validation == Answered(true) ==>
              calls == [ValidateCode(code), StoreCode(STORAGE_KEY, code), GoogleOAuth(origin + "/auth/callback")]
              && error == old(error))
    {
      var code := Text.Trim(inviteCode);
      calls := [];
      if code == "" {
        error := GOOGLE_CODE_REQUIRED;
        return;
      }
      calls := [ValidateCode(code)];
      if validation.RpcThrew? {
        return;
      }
      if !validation.ok {
        error := GOOGLE_INVALID_CODE;
        return;
      }
      calls := calls + [StoreCode(STORAGE_KEY, code), GoogleOAuth(origin + "/auth/callback")];
    }
  }

  /** A code typed into the field reaches every call, and the local storage
      key, without lower-case ASCII letters: the field upper-cases it and the
      handlers only trim it. */
  lemma TypedCodeIsUpper(typed: string)
    ensures Text.NoLowerAscii(Text.Trim(Text.Upper(typed)))
  {
    Text.UpperSpec(typed);
    Text.TrimKeepsNoLower(Text.Upper(typed));
  }

  /** A sign-up succeeds exactly when the code validates, the account is
      created, and the claim succeeds whenever there is a user id to claim
      with; a claim is never made before the account exists. */
  method SubmitSucceedsIff(f: RegisterForm, validation: RpcOutcome, signUp: SignUpOutcome, claim: RpcOutcome)
    requires !f.success
    modifies f
    ensures f.success <==>
      Text.Trim(f.inviteCode) != "" && validation == Answered(true) && signUp.SignedUp?
      && (Truthy(signUp.userId) ==> claim == Answered(true))
    ensures f.success ==> f.error == ""
  {
    var calls := f.HandleSubmit(validation, signUp, claim);
  }
}
