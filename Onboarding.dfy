/** The three-step onboarding form: the username sanitiser and its debounced
    availability check, the bounded category toggle, the gates between steps
    and the request handed to the save workflow. */
module Onboarding {
  import opened Base
  import Seqs
  import Text
  import ProfileTypes

  predicate UsernameChar(c: char) {
    ('a' <= c <= 'z') || ('0' <= c <= '9') || c == '_'
  }

  /** `value.toLowerCase().replace(/[^a-z0-9_]/g, "")`. */
  function SanitizeUsername(value: string): (clean: string)
    ensures |clean| <= |value|
    ensures forall i :: 0 <= i < |clean| ==> UsernameChar(clean[i])
    ensures forall c :: c in clean <==> c in Text.Lower(value) && UsernameChar(c)
  {
    Seqs.Filter(Text.Lower(value), UsernameChar)
  }

  /** One character: it is lower-cased, then kept exactly when it is one of
      `[a-z0-9_]`; so `A`..`Z` survive as `a`..`z` and every other character
      is dropped. */
  lemma SanitizeOneChar(c: char)
    ensures SanitizeUsername([c]) == (if UsernameChar(Text.LowerChar(c)) then [Text.LowerChar(c)] else [])
    ensures 'A' <= c <= 'Z' ==> SanitizeUsername([c]) == [(c as int + 32) as char]
  {
    assert Text.Lower([c]) == [Text.LowerChar(c)];
    assert Text.Lower([c])[1..] == [];
  }

  /** The kept characters stay in their input order. */
  lemma SanitizeKeepsOrder(value: string)
    ensures Seqs.SubsequenceOf(SanitizeUsername(value), Text.Lower(value))
  {
    Seqs.FilterIsSubsequence(Text.Lower(value), UsernameChar);
  }

  /** Sanitising works character by character: it distributes over
      concatenation. With `SanitizeOneChar` this fixes the result of every
      input. */
  lemma SanitizeConcat(a: string, b: string)
    ensures SanitizeUsername(a + b) == SanitizeUsername(a) + SanitizeUsername(b)
  {
    assert Text.Lower(a + b) == Text.Lower(a) + Text.Lower(b);
    Seqs.FilterConcat(Text.Lower(a), Text.Lower(b), UsernameChar);
  }

  /** A sanitised name is plain ASCII, so its UTF-16 length is its number of
      characters. */
  lemma SanitizedLength(value: string)
    ensures Text.Utf16Length(SanitizeUsername(value)) == |SanitizeUsername(value)|
  {
    Text.Utf16LengthBmp(SanitizeUsername(value));
  }

  lemma LowerOfUsernameChars(s: string)
    requires forall i :: 0 <= i < |s| ==> UsernameChar(s[i])
    ensures Text.Lower(s) == s
  {
  }

  /** A name already made of `[a-z0-9_]` passes unchanged, so sanitising twice
      is sanitising once. */
  lemma SanitizeFixesClean(value: string)
    requires forall i :: 0 <= i < |value| ==> UsernameChar(value[i])
    ensures SanitizeUsername(value) == value
  {
    LowerOfUsernameChars(value);
    Seqs.FilterAll(value, UsernameChar);
  }

  lemma SanitizeIdempotent(value: string)
    ensures SanitizeUsername(SanitizeUsername(value)) == SanitizeUsername(value)
  {
    SanitizeFixesClean(SanitizeUsername(value));
  }

  /** `toggleCategory(cat)` with a cap of `max`: a chosen category is removed;
      an unchosen one is added only while fewer than `max` are chosen. */
  function ToggleBounded(prev: seq<string>, cat: string, max: nat): (r: seq<string>)
    ensures cat in prev ==> cat !in r && forall x :: x != cat ==> (x in r <==> x in prev)
    ensures cat !in prev && |prev| < max ==> r == prev + [cat]
    ensures cat !in prev && |prev| >= max ==> r == prev
  {
    if cat in prev then Seqs.Filter(prev, c => c != cat)
    else if |prev| >= max then prev
    else prev + [cat]
  }

  /** The toggle never duplicates a category and never exceeds the cap. */
  lemma ToggleBoundedKeepsBounds(prev: seq<string>, cat: string, max: nat)
    requires Seqs.NoDuplicates(prev) && |prev| <= max
    ensures Seqs.NoDuplicates(ToggleBounded(prev, cat, max))
    ensures |ToggleBounded(prev, cat, max)| <= max
  {
    if cat in prev {
      FilterKeepsNoDuplicates(prev, c => c != cat);
    }
  }

  lemma {:induction false} FilterKeepsNoDuplicates(s: seq<string>, p: string -> bool)
    requires Seqs.NoDuplicates(s)
    ensures Seqs.NoDuplicates(Seqs.Filter(s, p))
  {
    if s != [] {
      assert Seqs.NoDuplicates(s[1..]);
      FilterKeepsNoDuplicates(s[1..], p);
      assert s[0] !in s[1..];
      assert s[0] !in Seqs.Filter(s[1..], p);
    }
  }

  /** Adding a category and toggling it again restores the list. */
  lemma ToggleBoundedUndo(prev: seq<string>, cat: string, max: nat)
    requires cat !in prev && |prev| < max
    ensures ToggleBounded(ToggleBounded(prev, cat, max), cat, max) == prev
  {
    var p := (c: string) => c != cat;
    Seqs.FilterConcat(prev, [cat], p);
    Seqs.FilterAll(prev, p);
  }

  /** The category button's `disabled`: not chosen and the cap is reached. */
  predicate CategoryDisabled(categories: seq<string>, cat: string) {
    cat !in categories && |categories| >= ProfileTypes.CATEGORIES_MAX
  }

  /** Disabling exactly covers the clicks the toggle would ignore. */
  lemma DisabledMeansNoOp(categories: seq<string>, cat: string)
    ensures CategoryDisabled(categories, cat) <==>
      ToggleBounded(categories, cat, ProfileTypes.CATEGORIES_MAX) == categories
  {
    if cat in categories {
      assert cat !in ToggleBounded(categories, cat, ProfileTypes.CATEGORIES_MAX);
    } else if |categories| < ProfileTypes.CATEGORIES_MAX {
      assert |ToggleBounded(categories, cat, ProfileTypes.CATEGORIES_MAX)| == |categories| + 1;
    }
  }

  /** The identity fields of step 1 are filled in: a name of two or more
      UTF-16 code units once trimmed, and a username of at least
      `USERNAME_MIN`. */
  predicate IdentityFilled(fullName: string, username: string) {
    Text.Utf16Length(Text.Trim(fullName)) >= 2 && Text.Utf16Length(username) >= ProfileTypes.USERNAME_MIN
  }

  predicate CanStep2(fullName: string, username: string, status: UsernameStatus) {
    IdentityFilled(fullName, username) && status == Available
  }

  predicate CanStep3(bio: string, school: string, careerYear: string) {
    ProfileTypes.BIO_MIN <= Text.Utf16Length(bio) <= ProfileTypes.BIO_MAX
    && Text.Utf16Length(Text.Trim(school)) > 0 && careerYear != ""
  }

  /** Blanks around the name do not help step 1 and blanks around the school
      do not help step 2, which needs a school with some visible character;
      the bio is measured as typed. */
  lemma StepGatesTrim(fullName: string, username: string, status: UsernameStatus,
                      bio: string, school: string, careerYear: string)
    ensures CanStep2(fullName, username, status) <==> CanStep2(Text.Trim(fullName), username, status)
    ensures CanStep3(bio, school, careerYear) <==> CanStep3(bio, Text.Trim(school), careerYear)
    ensures CanStep3(bio, school, careerYear) ==> exists i :: 0 <= i < |school| && !Text.IsWhite(school[i])
  {
    Text.TrimIdempotent(fullName);
    Text.TrimIdempotent(school);
    Text.TrimEmpty(school);
  }

  predicate CanSubmit(categories: seq<string>) {
    ProfileTypes.CATEGORIES_MIN <= |categories| <= ProfileTypes.CATEGORIES_MAX
  }

  /** Once within the cap, the list reached by toggling can be submitted exactly
      when it is not empty. */
  lemma CanSubmitAfterToggle(prev: seq<string>, cat: string)
    requires Seqs.NoDuplicates(prev) && |prev| <= ProfileTypes.CATEGORIES_MAX
    ensures var r := ToggleBounded(prev, cat, ProfileTypes.CATEGORIES_MAX);
      CanSubmit(r) <==> r != []
  {
    ToggleBoundedKeepsBounds(prev, cat, ProfileTypes.CATEGORIES_MAX);
  }

  /** The name the form starts with: the placeholder "New User" is not offered. */
  function InitialFullName(currentName: string): (name: string)
    ensures currentName == "New User" ==> name == ""
    ensures currentName != "New User" ==> name == currentName
  {
    if currentName == "New User" then "" else currentName
  }

  datatype UsernameStatus = Idle | Checking | Available | Taken

  /** `isSaving` for the save workflow's step names. */
  predicate IsSaving(saveStep: string) {
    saveStep != "idle" && saveStep != "error"
  }

  /** The payload `handleSubmit` gives to `save`. */
  datatype Payload = Payload(username: string, fullName: string, avatarUrl: Option<string>,
                             bio: string, school: string, careerYear: string, categories: seq<string>)

  const AVATAR_TOO_LARGE: string := "La imagen supera " + Text.NatToString(ProfileTypes.AVATAR_MAX_SIZE_MB) + "MB"

  class Form {
    var step: nat
    var avatarFile: Option<File>
    var fullName: string
    var username: string
    var status: UsernameStatus
    /** The username a scheduled (debounced) check will look up, if any. */
    var timer: Option<string>
    /** Checks sent to the backend and not yet answered, oldest first. */
    var inFlight: seq<string>
    var bio: string
    var school: string
    var careerYear: string
    var categories: seq<string>
    /** The usernames some answered check has reported available. */
    ghost var confirmed: set<string>

    ghost predicate Valid()
      reads this
    {
      1 <= step <= 3
      && Seqs.NoDuplicates(categories) && |categories| <= ProfileTypes.CATEGORIES_MAX
      && (step >= 2 ==> IdentityFilled(fullName, username))
      && (step == 3 ==> CanStep3(bio, school, careerYear))
      && (timer.Some? ==> timer.value == username)
    }

    /** "Available" is shown only for a name a check has confirmed. */
    ghost predicate StatusTrusted()
      reads this
    {
      status == Available ==> username in confirmed
    }

    constructor (currentName: string)
      ensures Valid() && StatusTrusted()
      ensures step == 1 && fullName == InitialFullName(currentName) && username == "" && status == Idle
      ensures avatarFile == None && timer == None && inFlight == [] && categories == []
      ensures bio == "" && school == "" && careerYear == ""
    {
      step, avatarFile, fullName, username, status := 1, None, InitialFullName(currentName), "", Idle;
      timer, inFlight, bio, school, careerYear, categories := None, [], "", "", "", [];
      confirmed := {};
    }

    /** `handleAvatarChange`: no file does nothing; an oversize file is refused
        with an alert and the previous choice stays. */
    method HandleAvatarChange(file: Option<File>) returns (alert: Option<string>)
      modifies this`avatarFile
      ensures file.None? ==> avatarFile == old(avatarFile) && alert.None?
      ensures file.Some? && file.value.size > ProfileTypes.AVATAR_MAX_SIZE_BYTES ==>
        avatarFile == old(avatarFile) && alert == Some(AVATAR_TOO_LARGE)
      ensures file.Some? && file.value.size <= ProfileTypes.AVATAR_MAX_SIZE_BYTES ==>
        avatarFile == file && alert.None?
    {
      alert := None;
      if file.None? {
        return;
      }
      if file.value.size > ProfileTypes.AVATAR_MAX_SIZE_BYTES {
        alert := Some(AVATAR_TOO_LARGE);
        return;
      }
      avatarFile := file;
    }

    /** `handleUsernameChange(value)` (shown on step 1): the field takes the
        sanitised text, the status drops to idle, any pending check is
        cancelled, and a new one is scheduled when the name is long enough. */
    method HandleUsernameChange(value: string)
      requires Valid() && StatusTrusted()
      modifies this`username, this`status, this`timer
      ensures Valid() && StatusTrusted()
      ensures old(step) == 1 ==> username == SanitizeUsername(value)
      ensures old(step) == 1 && |username| >= ProfileTypes.USERNAME_MIN ==>
        status == Checking && timer == Some(username)
      ensures old(step) == 1 && |username| < ProfileTypes.USERNAME_MIN ==>
        status == Idle && timer == None
      ensures old(step) != 1 ==> username == old(username) && status == old(status) && timer == old(timer)
    {
      if step != 1 {
        return;
      }
      var clean := SanitizeUsername(value);
      SanitizedLength(value);
      username := clean;
      status := Idle;
      timer := None;
      if Text.Utf16Length(clean) >= ProfileTypes.USERNAME_MIN {
        status := Checking;
        timer := Some(clean);
      }
    }

    /** The debounce delay elapses: the scheduled check is sent. */
    method TimerFires()
      requires Valid() && StatusTrusted()
      modifies this`timer, this`inFlight
      ensures Valid() && StatusTrusted()
      ensures timer == None
      ensures inFlight == old(inFlight) + (if old(timer).Some? then [old(timer).value] else [])
    {
      if timer.Some? {
        inFlight := inFlight + [timer.value];
        timer := None;
      }
    }

    /** A sent check is answered, as the code is written: whatever name it was
        for, its answer becomes the status. */
    method CheckResolves(i: nat, available: bool)
      requires Valid() && i < |inFlight|
      modifies this`status, this`inFlight, this`confirmed
      ensures Valid()
      ensures status == if available then Available else Taken
      ensures inFlight == old(inFlight[..i] + inFlight[i + 1..])
      ensures confirmed == old(confirmed) + (if available then {old(inFlight[i])} else {})
    {
      var name := inFlight[i];
      status := if available then Available else Taken;
      if available {
        confirmed := confirmed + {name};
      }
      inFlight := inFlight[..i] + inFlight[i + 1..];
    }

    /** The same answer, applied only when it is for the name now in the field. */
    method CheckResolvesCurrent(i: nat, available: bool)
      requires Valid() && StatusTrusted() && i < |inFlight|
      modifies this`status, this`inFlight, this`confirmed
      ensures Valid() && StatusTrusted()
      ensures old(inFlight[i]) == username ==> status == if available then Available else Taken
      ensures old(inFlight[i]) != username ==> status == old(status)
      ensures inFlight == old(inFlight[..i] + inFlight[i + 1..])
    {
      var name := inFlight[i];
      if available {
        confirmed := confirmed + {name};
      }
      if name == username {
        status := if available then Available else Taken;
      }
      inFlight := inFlight[..i] + inFlight[i + 1..];
    }

    /** `toggleCategory(cat)` (step 3), capped at `CATEGORIES_MAX`. */
    method ToggleCategory(cat: string)
      requires Valid()
      modifies this`categories
      ensures Valid()
      ensures categories == ToggleBounded(old(categories), cat, ProfileTypes.CATEGORIES_MAX)
    {
      ToggleBoundedKeepsBounds(categories, cat, ProfileTypes.CATEGORIES_MAX);
      categories := ToggleBounded(categories, cat, ProfileTypes.CATEGORIES_MAX);
    }

    /** The full-name input (step 1). */
    method SetFullName(name: string)
      requires Valid()
      modifies this`fullName
      ensures Valid()
      ensures fullName == if old(step) == 1 then name else old(fullName)
    {
      if step == 1 {
        fullName := name;
      }
    }

    /** The bio, school and career-year inputs (step 2). */
    method SetAbout(b: string, s: string, y: string)
      requires Valid()
      modifies this`bio, this`school, this`careerYear
      ensures Valid()
      ensures old(step) == 2 ==> bio == b && school == s && careerYear == y
      ensures old(step) != 2 ==> bio == old(bio) && school == old(school) && careerYear == old(careerYear)
    {
      if step == 2 {
        bio, school, careerYear := b, s, y;
        assert step != 3;
      }
    }

    /** The forward buttons, disabled until their gate holds, and the back
        buttons; the one on step 3 is disabled while saving. */
    method Navigate(forward: bool, saveStep: string)
      requires Valid()
      modifies this`step
      ensures Valid()
      ensures forward && old(step) == 1 && CanStep2(fullName, username, status) ==> step == 2
      ensures forward && old(step) == 2 && CanStep3(bio, school, careerYear) ==> step == 3
      ensures !forward && old(step) == 2 ==> step == 1
      ensures !forward && old(step) == 3 && !IsSaving(saveStep) ==> step == 2
      ensures step == old(step) + 1 <==>
        forward && ((old(step) == 1 && CanStep2(fullName, username, status))
                    || (old(step) == 2 && CanStep3(bio, school, careerYear)))
      ensures step + 1 == old(step) <==>
        !forward && (old(step) == 2 || (old(step) == 3 && !IsSaving(saveStep)))
      ensures step == old(step) || step == old(step) + 1 || step + 1 == old(step)
    {
      if forward {
        if step == 1 && CanStep2(fullName, username, status) {
          step := 2;
        } else if step == 2 && CanStep3(bio, school, careerYear) {
          step := 3;
        }
      } else {
        if step == 2 {
          step := 1;
        } else if step == 3 && !IsSaving(saveStep) {
          step := 2;
        }
      }
    }

    /** `handleSubmit()`: nothing unless one or two categories are chosen and no
        save is under way; otherwise the trimmed texts, a null avatar url and
        the chosen file. */
    function SubmitRequest(saveStep: string): (req: Option<(Payload, Option<File>)>)
      reads this
      ensures req.Some? <==> CanSubmit(categories) && !IsSaving(saveStep)
      ensures req.Some? ==>
        req.value.0 == Payload(username, Text.Trim(fullName), None, Text.Trim(bio),
                               Text.Trim(school), careerYear, categories)
        && req.value.1 == avatarFile
    {
      if !CanSubmit(categories) || IsSaving(saveStep) then None
      else Some((Payload(username, Text.Trim(fullName), None, Text.Trim(bio), Text.Trim(school),
                         careerYear, categories), avatarFile))
    }
  }

  /** As written, an answer for an older name can mark a newer, unchecked name
      available: `older` is checked, the user types `newer`, and the late answer
      for `older` sets the status although `newer` has never been confirmed. */
  method StaleAnswerExample(f: Form, older: string, newer: string)
    requires f.Valid() && f.StatusTrusted() && f.step == 1 && f.inFlight == []
    requires SanitizeUsername(older) == older && SanitizeUsername(newer) == newer
    requires |older| >= ProfileTypes.USERNAME_MIN && |newer| >= ProfileTypes.USERNAME_MIN
    requires newer != older && newer !in f.confirmed
    modifies f
    ensures f.Valid() && f.username == newer && f.status == Available
    ensures !f.StatusTrusted()
  {
    f.HandleUsernameChange(older);
    f.TimerFires();
    assert f.inFlight == [older];
    f.HandleUsernameChange(newer);
    f.CheckResolves(0, true);
  }
}
