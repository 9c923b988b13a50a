/** The save workflow behind onboarding: the username availability query and
    the `checking`, `uploading`, `saving` steps ending in `done` or `error`.
    The signed-in user, the `profiles` table, the avatar upload and the
    profile update are supplied outcomes. */
module OnboardingSave {
  import opened Base
  import Seqs
  import Avatar
  import Onboarding

  datatype SaveStep = Idle | Checking | Uploading | Saving | Done | Error

  /** A row of `profiles` as the availability query sees it. */
  datatype ProfileRow = ProfileRow(id: string, username: string)

  const NOT_SIGNED_IN: string := "No autenticado"
  const USERNAME_TAKEN: string := "Ese nombre de usuario ya está en uso"
  const SAVE_ERROR: string := "Error al guardar"
  const CHECKING_PROGRESS: string := "Verificando nombre de usuario..."
  const UPLOADING_PROGRESS: string := "Subiendo foto de perfil..."
  const SAVING_PROGRESS: string := "Guardando perfil..."
  const DONE_PROGRESS: string := "¡Perfil completo!"
  const DASHBOARD: string := "/dashboard"

  /** The rows the query selects: that username, any id but the user's own. */
  function Matches(profiles: seq<ProfileRow>, username: string, userId: string): (r: seq<ProfileRow>)
    ensures forall p :: p in r <==> p in profiles && p.username == username && p.id != userId
  {
    Seqs.Filter(profiles, (p: ProfileRow) => p.username == username && p.id != userId)
  }

  /** `checkUsername(username)`: `false` without a user; otherwise whether
      `maybeSingle()` came back with no row. It yields a row only for exactly
      one match: a failed query and several matches both give `null`, which is
      read as "available". */
  function CheckUsername(user: Option<string>, username: string, profiles: seq<ProfileRow>,
                         queryFailed: bool): (available: bool)
    ensures user.None? ==> !available
    ensures user.Some? && queryFailed ==> available
    ensures user.Some? && !queryFailed ==>
      (available <==> |Matches(profiles, username, user.value)| != 1)
  {
    match user
    case None => false
    case Some(id) =>
      var data := if queryFailed || |Matches(profiles, username, id)| != 1 then None
                  else Some(Matches(profiles, username, id)[0].id);
      data == None
  }

  /** No two profiles share a username (the column is unique). */
  ghost predicate UniqueUsernames(profiles: seq<ProfileRow>) {
    forall i, j :: 0 <= i < j < |profiles| ==> profiles[i].username != profiles[j].username
  }

  /** With unique usernames and a query that succeeds, a signed-in user is told
      "available" exactly when no other profile has the name; the user's own
      current name counts as available. */
  lemma CheckUsernameIffFree(userId: string, username: string, profiles: seq<ProfileRow>)
    requires UniqueUsernames(profiles)
    ensures CheckUsername(Some(userId), username, profiles, false) <==>
      forall p :: p in profiles ==> p.username != username || p.id == userId
  {
    var m := Matches(profiles, username, userId);
    SingleMatchPerName(profiles, username, userId);
    if |m| == 1 {
      assert m[0] in m;
    }
  }

  /** Unique usernames leave at most one row per name in the query result. */
  lemma SingleMatchPerName(profiles: seq<ProfileRow>, username: string, userId: string)
    requires UniqueUsernames(profiles)
    ensures |Matches(profiles, username, userId)| <= 1
  {
    Seqs.FilterAtMostOne(profiles, (p: ProfileRow) => p.username == username && p.id != userId);
  }

  /** The update sent to `profiles`; `rowId` is the id the update is
      restricted to (`.eq("id", …)`). */
  datatype ProfileUpdate = ProfileUpdate(rowId: string, username: string, fullName: string, avatarUrl: Option<string>,
                                         bio: string, school: string, careerYear: string,
                                         categories: seq<string>, onboardingCompleted: bool)

  /** The steps a signed-in `save` sets, in order, from what happened: whether
      the name was free, whether a picture was given and its upload failed,
      and whether the update failed. Every thrown error ends in `Error`. */
  function Trace(available: bool, uploads: bool, uploadFailed: bool, updateFailed: bool): seq<SaveStep> {
    if !available then [Checking, Error]
    else if uploads && uploadFailed then [Checking, Uploading, Error]
    else [Checking] + (if uploads then [Uploading] else []) + [Saving, if updateFailed then Error else Done]
  }

  /** The traces are the six signed-in orders of the handler; uploading
      happens iff the name is free and a picture is given, saving iff the
      name is free and no upload failed, and the last step is `Done` iff the
      update also succeeded. */
  lemma TraceShape(available: bool, uploads: bool, uploadFailed: bool, updateFailed: bool)
    ensures var t := Trace(available, uploads, uploadFailed, updateFailed);
      t in [[Checking, Error], [Checking, Saving, Done], [Checking, Saving, Error],
            [Checking, Uploading, Error], [Checking, Uploading, Saving, Done],
            [Checking, Uploading, Saving, Error]]
      && t[0] == Checking
      && (Uploading in t <==> available && uploads)
      && (Saving in t <==> available && !(uploads && uploadFailed))
      && (t[|t| - 1] == Done <==> Saving in t && !updateFailed)
      && (t[|t| - 1] == Error <==> t[|t| - 1] != Done)
      && Idle !in t
  {
    var t := Trace(available, uploads, uploadFailed, updateFailed);
    var last := if updateFailed then Error else Done;
    if available && !(uploads && uploadFailed) {
      if uploads {
        assert t == [Checking, Uploading, Saving, last];
      } else {
        assert t == [Checking, Saving, last];
      }
    }
  }

  /** Whether the given picture was refused or failed to upload. */
  predicate UploadFailed(avatarFile: Option<File>, userId: string, now: nat, uploadError: Option<Thrown>,
                         publicUrl: string -> string) {
    avatarFile.Some? && Truthy(Avatar.UploadAvatar(avatarFile.value, userId, now, uploadError, publicUrl).0.error)
  }

  class SaveState {
    var step: SaveStep
    var progress: string
    var error: Option<string>
    /** The redirect timers scheduled by completed saves that have not fired
        yet. */
    var redirects: nat

    constructor ()
      ensures step == Idle && progress == "" && error == None && redirects == 0
    {
      step, progress, error, redirects := Idle, "", None, 0;
    }

    /** One pending redirect timer fires: it navigates to the dashboard, then
        refreshes the route. With no timer pending nothing happens. */
    method RedirectFires() returns (navigate: Option<string>, refreshed: bool)
      modifies this`redirects
      ensures navigate.Some? <==> old(redirects) > 0
      ensures navigate.Some? ==> navigate.value == DASHBOARD && refreshed
      ensures navigate.None? ==> !refreshed
      ensures redirects == if old(redirects) > 0 then old(redirects) - 1 else 0
    {
      navigate, refreshed := None, false;
      if redirects > 0 {
        redirects := redirects - 1;
        navigate, refreshed := Some(DASHBOARD), true;
      }
    }

    /** `save(payload, avatarFile)`. `visited` lists the steps set, in order;
        `avatarPath` is the path handed to the avatar bucket, if any; `update`
        is what was sent to `profiles`, if anything. Reaching `Done`
        schedules one redirect to the dashboard. */
    method Save(payload: Onboarding.Payload, avatarFile: Option<File>, user: Option<string>,
                profiles: seq<ProfileRow>, queryFailed: bool, now: nat,
                uploadError: Option<Thrown>, publicUrl: string -> string, updateError: Option<Thrown>)
      returns (visited: seq<SaveStep>, avatarPath: Option<string>, update: Option<ProfileUpdate>)
      modifies this
      ensures user.None? ==> visited == [Error] && error == Some(NOT_SIGNED_IN) && progress == old(progress)
      ensures user.Some? ==>
        visited == Trace(CheckUsername(user, payload.username, profiles, queryFailed), avatarFile.Some?,
                         UploadFailed(avatarFile, user.value, now, uploadError, publicUrl), updateError.Some?)
      ensures step == visited[|visited| - 1]
      ensures step == Error <==> error.Some?
      ensures user.Some? && !CheckUsername(user, payload.username, profiles, queryFailed) ==>
        error == Some(USERNAME_TAKEN) && progress == CHECKING_PROGRESS
      ensures avatarPath.Some? ==> Uploading in visited
      ensures Uploading in visited ==>
        var out := Avatar.UploadAvatar(avatarFile.value, user.value, now, uploadError, publicUrl);
        avatarPath == out.1
        && (Truthy(out.0.error) ==> error == out.0.error && progress == UPLOADING_PROGRESS)
      ensures update.Some? <==> Saving in visited
      ensures update.Some? ==>
        update.value == ProfileUpdate(user.value, payload.username, payload.fullName,
          if avatarFile.Some?
          then Avatar.UploadAvatar(avatarFile.value, user.value, now, uploadError, publicUrl).0.url
          else payload.avatarUrl,
          payload.bio, payload.school, payload.careerYear, payload.categories, true)
      ensures update.Some? && updateError.Some? ==>
        error == Some(MessageOr(updateError.value, SAVE_ERROR)) && progress == SAVING_PROGRESS
      ensures step == Done ==> progress == DONE_PROGRESS
      ensures redirects == old(redirects) + (if step == Done then 1 else 0)
    {
      error := None;
      avatarPath, update := None, None;
      if user.None? {
        step, error := Error, Some(NOT_SIGNED_IN);
        visited := [Error];
        return;
      }
      step, progress := Checking, CHECKING_PROGRESS;
      var available := CheckUsername(user, payload.username, profiles, queryFailed);
      if !available {
        step, error := Error, Some(USERNAME_TAKEN);
        visited := [Checking, Error];
        return;
      }
      visited, avatarPath, update := Store(payload, avatarFile, user.value, now, uploadError, publicUrl, updateError);
    }

    /** The part of `save` after the username check: the optional avatar
        upload, then the profile update. `steps` lists the steps set since
        the check began. */
    method Store(payload: Onboarding.Payload, avatarFile: Option<File>, userId: string, now: nat,
                 uploadError: Option<Thrown>, publicUrl: string -> string, updateError: Option<Thrown>)
      returns (steps: seq<SaveStep>, avatarPath: Option<string>, update: Option<ProfileUpdate>)
      requires error.None?
      modifies this
      ensures steps == Trace(true, avatarFile.Some?, UploadFailed(avatarFile, userId, now, uploadError, publicUrl),
                             updateError.Some?)
      ensures step == steps[|steps| - 1]
      ensures step == Error <==> error.Some?
      ensures avatarPath.Some? ==> avatarFile.Some? && Uploading in steps
      ensures Uploading in steps <==> avatarFile.Some?
      ensures avatarFile.Some? ==>
        var out := Avatar.UploadAvatar(avatarFile.value, userId, now, uploadError, publicUrl);
        avatarPath == out.1
        && (Truthy(out.0.error) ==> error == out.0.error && progress == UPLOADING_PROGRESS)
      ensures update.Some? <==> Saving in steps
      ensures update.Some? ==>
        update.value == ProfileUpdate(userId, payload.username, payload.fullName,
          if avatarFile.Some?
          then Avatar.UploadAvatar(avatarFile.value, userId, now, uploadError, publicUrl).0.url
          else payload.avatarUrl,
          payload.bio, payload.school, payload.careerYear, payload.categories, true)
      ensures update.Some? && updateError.Some? ==>
        error == Some(MessageOr(updateError.value, SAVE_ERROR)) && progress == SAVING_PROGRESS
      ensures step == Done ==> progress == DONE_PROGRESS
      ensures redirects == old(redirects) + (if step == Done then 1 else 0)
    {
      avatarPath, update := None, None;
      var avatarUrl := payload.avatarUrl;
      if avatarFile.Some? {
        step, progress := Uploading, UPLOADING_PROGRESS;
        var out := Avatar.UploadAvatar(avatarFile.value, userId, now, uploadError, publicUrl);
        avatarPath := out.1;
        if Truthy(out.0.error) {
          step, error := Error, out.0.error;
          steps := [Checking, Uploading, Error];
          return;
        }
        avatarUrl := out.0.url;
      }
      step, progress := Saving, SAVING_PROGRESS;
      update := Some(ProfileUpdate(userId, payload.username, payload.fullName, avatarUrl, payload.bio,
                                   payload.school, payload.careerYear, payload.categories, true));
      if updateError.Some? {
        step, error := Error, Some(MessageOr(updateError.value, SAVE_ERROR));
        steps := if avatarFile.Some? then [Checking, Uploading, Saving, Error] else [Checking, Saving, Error];
        return;
      }
      step, progress := Done, DONE_PROGRESS;
      redirects := redirects + 1;
      steps := if avatarFile.Some? then [Checking, Uploading, Saving, Done] else [Checking, Saving, Done];
    }
  }
}
