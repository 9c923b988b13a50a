/** The moderation panel's handlers around approve and reject: one
    `actionLoading` slot naming the work being processed, and the feedback
    banner. */
module ModerationPanel {
  import opened Base
  import Moderation

  datatype Feedback = Feedback(success: bool, message: string)

  const APPROVED_MESSAGE: string := "Obra aprobada. Aparecerá en el feed tras el próximo refresh."
  const REJECTED_MESSAGE: string := "Obra rechazada. El autor fue notificado."
  const APPROVE_ERROR: string := "Error al aprobar"
  const REJECT_ERROR: string := "Error al rechazar"

  /** `loading={actionLoading === work.id}` for a preview. */
  predicate ShowsLoading(actionLoading: Option<string>, workId: string) {
    actionLoading == Some(workId)
  }

  /** The banner after an answer: the fixed success text, or the result's error
      with a default for a missing one. */
  function FeedbackFor(result: Moderation.ModerationResult, successText: string, fallback: string): (f: Feedback)
    ensures f.success <==> result.success
    ensures result.success ==> f.message == successText
    ensures !result.success && result.error.Some? ==> f.message == result.error.value
    ensures !result.success && result.error.None? ==> f.message == fallback
  {
    if result.success then Feedback(true, successText)
    else Feedback(false, result.error.GetOr(fallback))
  }

  class Panel {
    var actionLoading: Option<string>
    var feedback: Option<Feedback>

    constructor ()
      ensures actionLoading == None && feedback == None
    {
      actionLoading, feedback := None, None;
    }

    /** The start of either handler: the slot names the work, the banner is
        cleared. */
    method Begin(workId: string)
      modifies this
      ensures actionLoading == Some(workId) && feedback == None
    {
      actionLoading, feedback := Some(workId), None;
    }

    /** The end of either handler: the slot is emptied whatever the outcome. */
    method Finish(result: Moderation.ModerationResult, successText: string, fallback: string)
      modifies this
      ensures actionLoading == None
      ensures feedback == Some(FeedbackFor(result, successText, fallback))
    {
      actionLoading := None;
      feedback := Some(FeedbackFor(result, successText, fallback));
    }

    /** `handleApprove(workId)`. */
    method HandleApprove(m: Moderation.State, workId: string, outcome: Moderation.RpcOutcome, refreshFailed: bool)
      returns (result: Moderation.ModerationResult)
      requires m.Valid()
      modifies this, m`queue, m`stats
      ensures m.Valid()
      ensures outcome.TransportError? ==> result == Moderation.ModerationResult(false, Some(outcome.message))
      ensures outcome.Answered? ==> result == outcome.result
      ensures result.success ==> m.queue == Moderation.Without(old(m.queue), workId)
      ensures result.success ==> m.stats == Moderation.Stats(Moderation.DecrementFloor(old(m.stats).pending),
                                                            old(m.stats).approved + 1, old(m.stats).rejected)
      ensures !result.success ==> m.queue == old(m.queue) && m.stats == old(m.stats)
      ensures actionLoading == None
      ensures feedback == Some(FeedbackFor(result, APPROVED_MESSAGE, APPROVE_ERROR))
    {
      Begin(workId);
      var call, refreshed;
      call, result, refreshed := m.Approve(workId, outcome, refreshFailed);
      Finish(result, APPROVED_MESSAGE, APPROVE_ERROR);
    }

    /** `handleReject(workId, note)`. */
    method HandleReject(m: Moderation.State, workId: string, note: string, outcome: Moderation.RpcOutcome)
      returns (result: Moderation.ModerationResult)
      requires m.Valid()
      modifies this, m`queue, m`stats
      ensures m.Valid()
      ensures outcome.TransportError? ==> result == Moderation.ModerationResult(false, Some(outcome.message))
      ensures outcome.Answered? ==> result == outcome.result
      ensures result.success ==> m.queue == Moderation.Without(old(m.queue), workId)
      ensures result.success ==> m.stats == Moderation.Stats(Moderation.DecrementFloor(old(m.stats).pending),
                                                            old(m.stats).approved, old(m.stats).rejected + 1)
      ensures !result.success ==> m.queue == old(m.queue) && m.stats == old(m.stats)
      ensures actionLoading == None
      ensures feedback == Some(FeedbackFor(result, REJECTED_MESSAGE, REJECT_ERROR))
    {
      Begin(workId);
      var call;
      call, result := m.Reject(workId, note, outcome);
      Finish(result, REJECTED_MESSAGE, REJECT_ERROR);
    }

    /** The slot is shared by every preview: when a second action starts
        before the first has answered, the first answer empties the slot, so
        neither preview shows as loading although the second call is still
        running, and the banner reports the first work only. */
    method OverlappingActions(a: string, b: string, resultA: Moderation.ModerationResult)
      modifies this
      ensures !ShowsLoading(actionLoading, a) && !ShowsLoading(actionLoading, b)
      ensures feedback == Some(FeedbackFor(resultA, APPROVED_MESSAGE, APPROVE_ERROR))
    {
      Begin(a);
      Begin(b);
      assert ShowsLoading(actionLoading, b) && (a != b ==> !ShowsLoading(actionLoading, a));
      Finish(resultA, APPROVED_MESSAGE, APPROVE_ERROR);
    }

    /** The four-second timer after a success hides the banner. */
    method FeedbackExpires()
      modifies this`feedback
      ensures feedback == None
    {
      feedback := None;
    }
  }
}
