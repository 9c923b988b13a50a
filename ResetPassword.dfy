/** Choosing a new password after a reset link: the mismatch check comes
    first, then the length check, and only then the update call. */
module ResetPassword {
  import opened Base
  import Text

  const MISMATCH: string := "Las contraseñas no coinciden."
  const TOO_SHORT: string := "La contraseña debe tener al menos 8 caracteres."
  const UPDATE_ERROR: string := "Error al actualizar la contraseña"
  const PASSWORD_MIN: nat := 8
  const DASHBOARD: string := "/dashboard"

  /** The validation in rule order: the error it reports, if any. A mismatch
      is reported whatever the length, so a short password typed differently
      twice reads as a mismatch. */
  function Check(password: string, confirm: string): (e: Option<string>)
    ensures password != confirm ==> e == Some(MISMATCH)
    ensures password == confirm && Text.Utf16Length(password) < PASSWORD_MIN ==> e == Some(TOO_SHORT)
    ensures e.None? <==> password == confirm && Text.Utf16Length(password) >= PASSWORD_MIN
  {
    if password != confirm then Some(MISMATCH)
    else if Text.Utf16Length(password) < PASSWORD_MIN then Some(TOO_SHORT)
    else None
  }

  /** `updateUser` fails with an error (rethrown) or throws, or succeeds. */
  datatype UpdateOutcome = UpdateFailed(thrown: Thrown) | Updated

  class ResetForm {
    var password: string
    var confirm: string
    var error: string
    var loading: bool

    constructor ()
      ensures password == "" && confirm == "" && error == "" && !loading
    {
      password, confirm, error, loading := "", "", "", false;
    }

    /** `handleSubmit`: a failed check sets its message and makes no call; a
        passing one calls the update, which navigates to the dashboard on
        success or sets the error; loading ends false either way. */
    method HandleSubmit(outcome: UpdateOutcome) returns (updateCalled: bool, navigate: Option<string>)
      modifies this`error, this`loading
      ensures Check(password, confirm).Some? ==>
        !updateCalled && navigate.None? && error == Check(password, confirm).value && loading == old(loading)
      ensures Check(password, confirm).None? ==> updateCalled && !loading
      ensures Check(password, confirm).None? && outcome.Updated? ==> navigate == Some(DASHBOARD) && error == ""
      ensures Check(password, confirm).None? && outcome.UpdateFailed? ==>
        navigate.None? && error == MessageOr(outcome.thrown, UPDATE_ERROR)
    {
      error := "";
      updateCalled, navigate := false, None;
      var problem := Check(password, confirm);
      if problem.Some? {
        error := problem.value;
        return;
      }
      loading := true;
      updateCalled := true;
      match outcome {
        case UpdateFailed(t) =>
          error := MessageOr(t, UPDATE_ERROR);
        case Updated =>
          navigate := Some(DASHBOARD);
      }
      loading := false;
    }
  }
}
