/** The publish workflow of a new work: sign-in check, image upload, insert of
    the work row, with the `step`/`progress`/`error` state the form watches. */
module CreateWork {
  import opened Base
  import Text
  import Storage

  datatype PublishStep = Idle | Uploading | Saving | Done | Error

  /** What the form hands to `publish`, besides the files. */
  datatype Payload = Payload(title: string, description: string, category: string, tags: seq<string>)

  /** The row inserted into `works`; `tags` is null for an empty tag list. */
  datatype WorkRow = WorkRow(id: string, authorId: string, title: string, description: string,
                             category: string, tags: Option<seq<string>>,
                             images: seq<Storage.WorkImage>, moderationStatus: string)

  const NOT_SIGNED_IN: string := "No autenticado"
  const NO_IMAGE: string := "No se pudo subir ninguna imagen"
  const SAVING_PROGRESS: string := "Guardando obra..."
  const SENT_PROGRESS: string := "Enviado a revisión"
  const PUBLISH_ERROR: string := "Error al publicar"
  const DASHBOARD: string := "/dashboard"

  /** `Subiendo N imagen(es)...`. */
  function UploadingProgress(n: nat): string {
    "Subiendo " + Text.NatToString(n) + " imagen" + (if n > 1 then "es" else "") + "..."
  }

  /** The message names the file count, and is plural exactly when more than
      one file goes up. */
  lemma UploadingProgressPlural(n: nat)
    ensures Text.StartsWith(UploadingProgress(n), "Subiendo " + Text.NatToString(n) + " imagen")
    ensures n > 1 <==> Text.StartsWith(UploadingProgress(n), "Subiendo " + Text.NatToString(n) + " imagenes")
  {
    var head := "Subiendo " + Text.NatToString(n) + " imagen";
    var p := UploadingProgress(n);
    assert p[..|head|] == head;
    if n <= 1 {
      assert p == head + "...";
      assert (head + "es")[|head|] == 'e' && p[|head|] == '.';
    } else {
      assert p[..|head + "es"|] == head + "es";
    }
  }

  class PublishState {
    var step: PublishStep
    var progress: string
    var error: Option<string>
    /** The redirect timers scheduled by successful publishes that have not
        fired yet. */
    var redirects: nat

    constructor ()
      ensures step == Idle && progress == "" && error == None && redirects == 0
    {
      step, progress, error, redirects := Idle, "", None, 0;
    }

    /** `reset()`. It cancels no timer, so a pending redirect still fires. */
    method Reset()
      modifies this
      ensures step == Idle && progress == "" && error == None && redirects == old(redirects)
    {
      step, progress, error := Idle, "", None;
    }

    /** One pending redirect timer fires: it navigates to the dashboard, then
        refreshes the route. With no timer pending nothing happens. */
    method RedirectFires() returns (navigate: Option<string>, refreshed: bool)
      modifies this`redirects
      ensures navigate.Some? <==> old(redirects) > 0
      ensures navigate.Some? ==> navigate.value == DASHBOARD && refreshed
      ensures navigate.None? ==> !refreshed
      ensures redirects == if old(redirects) > 0 then old(redirects) - 1 else 0
    {
      navigate, refreshed := None, false;
      if redirects > 0 {
        redirects := redirects - 1;
        navigate, refreshed := Some(DASHBOARD), true;
      }
    }

    /** `publish(files, payload)`. The signed-in user, the generated work id,
        the per-file upload oracles and the insert outcome are supplied.
        `visited` lists the steps set, in order; `uploaded` says whether the
        images were sent; `inserted` is the row sent to `works`, if any.
        Reaching `Done` schedules one redirect to the dashboard. */
    method Publish(files: seq<File>, payload: Payload, user: Option<string>, workId: string,
                   nows: seq<nat>, dims: seq<Option<Storage.Dimensions>>,
                   uploadErrors: seq<Option<Thrown>>, publicUrl: string -> string,
                   insertError: Option<Thrown>)
      returns (visited: seq<PublishStep>, uploaded: bool, inserted: Option<WorkRow>)
      requires |nows| == |files| && |dims| == |files| && |uploadErrors| == |files|
      modifies this
      ensures visited in [[Error], [Uploading, Error], [Uploading, Saving, Error], [Uploading, Saving, Done]]
      ensures step == visited[|visited| - 1]
      ensures user.None? ==>
        visited == [Error] && error == Some(NOT_SIGNED_IN) && progress == old(progress) && !uploaded
      ensures uploaded <==> user.Some?
      ensures inserted.Some? <==> Saving in visited
      ensures inserted.Some? ==>
        inserted.value.moderationStatus == "pending_review"
        && inserted.value.id == workId && inserted.value.authorId == user.value
        && inserted.value.title == payload.title && inserted.value.description == payload.description
        && inserted.value.category == payload.category
        && inserted.value.tags == (if payload.tags == [] then None else Some(payload.tags))
        && inserted.value.images
           == Storage.ImagesOf(Storage.Results(files, user.value, workId, nows, dims, uploadErrors, publicUrl))
        && |inserted.value.images| >= 1
      ensures step == Error <==> error.Some?
      ensures step == Done ==> progress == SENT_PROGRESS && insertError.None?
      ensures redirects == old(redirects) + (if step == Done then 1 else 0)
      ensures user.Some? && inserted.None? ==>
        var rs := Storage.Results(files, user.value, workId, nows, dims, uploadErrors, publicUrl);
        Storage.ImagesOf(rs) == [] && progress == UploadingProgress(|files|)
        && error == Some(if Storage.ErrorsOf(rs) != [] then Storage.ErrorsOf(rs)[0] else NO_IMAGE)
      ensures inserted.Some? && insertError.Some? ==>
        step == Error && progress == SAVING_PROGRESS && error == Some(MessageOr(insertError.value, PUBLISH_ERROR))
    {
      error := None;
      uploaded, inserted := false, None;
      if user.None? {
        step, error := Error, Some(NOT_SIGNED_IN);
        visited := [Error];
        return;
      }
      var userId := user.value;
      step := Uploading;
      progress := UploadingProgress(|files|);
      visited := [Uploading];
      var images, errs := Storage.UploadWorkImages(files, userId, workId, nows, dims, uploadErrors, publicUrl);
      uploaded := true;
      if |images| == 0 {
        step, error := Error, Some(if |errs| > 0 then errs[0] else NO_IMAGE);
        visited := [Uploading, Error];
        return;
      }
      step := Saving;
      progress := SAVING_PROGRESS;
      visited := [Uploading, Saving];
      var row := WorkRow(workId, userId, payload.title, payload.description, payload.category,
                         if |payload.tags| > 0 then Some(payload.tags) else None,
                         images, "pending_review");
      inserted := Some(row);
      if insertError.Some? {
        step, error := Error, Some(MessageOr(insertError.value, PUBLISH_ERROR));
        visited := [Uploading, Saving, Error];
        return;
      }
      step := Done;
      progress := SENT_PROGRESS;
      redirects := redirects + 1;
      visited := [Uploading, Saving, Done];
    }
  }
}
