/** The moderation queue as the client keeps it: loading the pending works and
    the counters, and the local updates after an approve or reject answered by
    the `moderate_work` remote procedure (a supplied outcome). */
module Moderation {
  import opened Base
  import Seqs
  import Storage

  datatype ModerationStatus = Draft | PendingReview | Approved | Rejected

  /** The author columns joined from `profiles`; each may be null. */
  datatype AuthorProfile = AuthorProfile(username: Option<string>, fullName: Option<string>,
                                         avatarUrl: Option<string>, reputationLevel: Option<int>)

  /** A row of `works` with its joined author, `created_at` in milliseconds. */
  datatype WorkRecord = WorkRecord(id: string, authorId: string, title: string, description: string,
                                   category: string, tags: Option<seq<string>>, status: ModerationStatus,
                                   images: Option<seq<Storage.WorkImage>>, createdAt: nat,
                                   publishedAt: Option<nat>, author: Option<AuthorProfile>)

  /** A queue entry. */
  datatype QueueWork = QueueWork(id: string, authorId: string, title: string, description: string,
                                 category: string, tags: Option<seq<string>>, status: ModerationStatus,
                                 images: seq<Storage.WorkImage>, createdAt: nat, publishedAt: Option<nat>,
                                 authorUsername: string, authorFullName: string,
                                 authorAvatarUrl: Option<string>, authorReputationLevel: int)

  datatype Stats = Stats(pending: nat, approved: nat, rejected: nat)

  /** A decision notification shown in the history tab. */
  datatype LogEntry = LogEntry(id: string, targetId: string, approved: bool, createdAt: nat)

  /** `ModerationResult`: only `success` and `error` are read here. */
  datatype ModerationResult = ModerationResult(success: bool, error: Option<string>)

  /** What `rpc("moderate_work", …)` came back with: a transport error with its
      message, or the procedure's own result. */
  datatype RpcOutcome = TransportError(message: string) | Answered(result: ModerationResult)

  /** The arguments of a `moderate_work` call. */
  datatype RpcCall = RpcCall(workId: string, action: string, note: Option<string>)

  const LOAD_ERROR: string := "Error al cargar la cola"

  /** The work's own fields are copied; each author field is the joined
      profile's value, falling back to "", "Unknown", null and 0 when the
      profile or that value is missing. */
  function ToQueueWork(w: WorkRecord): (q: QueueWork)
    ensures q.id == w.id && q.authorId == w.authorId && q.title == w.title
    ensures q.description == w.description && q.category == w.category && q.tags == w.tags
    ensures q.status == w.status && q.createdAt == w.createdAt && q.publishedAt == w.publishedAt
    ensures q.images == w.images.GetOr([])
    ensures w.author.Some? ==>
      q.authorUsername == w.author.value.username.GetOr("")
      && q.authorFullName == w.author.value.fullName.GetOr("Unknown")
      && q.authorAvatarUrl == w.author.value.avatarUrl
      && q.authorReputationLevel == w.author.value.reputationLevel.GetOr(0)
    ensures w.author.None? ==>
      q.authorUsername == "" && q.authorFullName == "Unknown" && q.authorAvatarUrl.None?
      && q.authorReputationLevel == 0
  {
    var p := w.author.GetOr(AuthorProfile(None, None, None, None));
    QueueWork(w.id, w.authorId, w.title, w.description, w.category, w.tags, w.status,
              w.images.GetOr([]), w.createdAt, w.publishedAt,
              p.username.GetOr(""), p.fullName.GetOr("Unknown"), p.avatarUrl, p.reputationLevel.GetOr(0))
  }

  function CreatedAt(w: WorkRecord): int { w.createdAt }
  function QueuedAt(q: QueueWork): int { q.createdAt }
  predicate IsPending(w: WorkRecord) { w.status == PendingReview }

  /** The queue query over the `works` table: pending works only, oldest first
      (rows created at the same instant keep their table order). */
  function QueueOf(table: seq<WorkRecord>): (queue: seq<QueueWork>)
    ensures |queue| <= |table|
  {
    var rows := Seqs.SortBy(Seqs.Filter(table, IsPending), CreatedAt);
    seq(|rows|, i requires 0 <= i < |rows| => ToQueueWork(rows[i]))
  }

  /** The loaded queue holds exactly the table's pending works, one entry per
      pending row. */
  lemma QueueOfMembers(table: seq<WorkRecord>)
    ensures forall q :: q in QueueOf(table) ==> q.status == PendingReview
    ensures forall w :: w in table && IsPending(w) ==> ToQueueWork(w) in QueueOf(table)
    ensures |QueueOf(table)| == |Seqs.Filter(table, IsPending)|
  {
    var queue := QueueOf(table);
    forall w | w in table && IsPending(w) ensures ToQueueWork(w) in queue {
      PendingQueued(table, w);
    }
    forall q | q in queue ensures q.status == PendingReview {
      var i :| 0 <= i < |queue| && queue[i] == q;
      QueuedPending(table, i);
    }
  }

  lemma PendingQueued(table: seq<WorkRecord>, w: WorkRecord)
    requires w in table && IsPending(w)
    ensures ToQueueWork(w) in QueueOf(table)
  {
    var pending := Seqs.Filter(table, IsPending);
    var rows := Seqs.SortBy(pending, CreatedAt);
    assert w in multiset(pending);
    assert w in multiset(rows);
    var i :| 0 <= i < |rows| && rows[i] == w;
    assert QueueOf(table)[i] == ToQueueWork(w);
  }

  lemma QueuedPending(table: seq<WorkRecord>, i: nat)
    requires i < |QueueOf(table)|
    ensures QueueOf(table)[i].status == PendingReview
  {
    var pending := Seqs.Filter(table, IsPending);
    var rows := Seqs.SortBy(pending, CreatedAt);
    assert QueueOf(table)[i] == ToQueueWork(rows[i]);
    assert rows[i] in multiset(pending);
  }

  /** The loaded queue is in ascending creation time. */
  lemma QueueOfOrdered(table: seq<WorkRecord>)
    ensures Seqs.SortedBy(QueueOf(table), QueuedAt)
  {
    var rows := Seqs.SortBy(Seqs.Filter(table, IsPending), CreatedAt);
    var queue := QueueOf(table);
    assert forall i :: 0 <= i < |queue| ==> QueuedAt(queue[i]) == CreatedAt(rows[i]);
  }

  /** The loaded queue is ordered and holds pending works only. */
  ghost predicate QueueInvariant(queue: seq<QueueWork>) {
    (forall i :: 0 <= i < |queue| ==> queue[i].status == PendingReview)
    && Seqs.SortedBy(queue, QueuedAt)
  }

  /** `prev.filter(w => w.id !== workId)`. */
  function Without(queue: seq<QueueWork>, workId: string): (r: seq<QueueWork>)
    ensures forall w :: w in r <==> w in queue && w.id != workId
  {
    Seqs.Filter(queue, (w: QueueWork) => w.id != workId)
  }

  /** Removing a work keeps the others in order and keeps the queue's invariant. */
  lemma WithoutKeepsInvariant(queue: seq<QueueWork>, workId: string)
    requires QueueInvariant(queue)
    ensures QueueInvariant(Without(queue, workId))
    ensures Seqs.SubsequenceOf(Without(queue, workId), queue)
  {
    var p := (w: QueueWork) => w.id != workId;
    Seqs.FilterSorted(queue, p, QueuedAt);
    Seqs.FilterIsSubsequence(queue, p);
    var r := Without(queue, workId);
    forall i | 0 <= i < |r| ensures r[i].status == PendingReview {
      assert r[i] in queue;
    }
  }

  /** `Math.max(0, n - 1)`. */
  function DecrementFloor(n: nat): (r: nat)
    ensures n > 0 ==> r + 1 == n
    ensures n == 0 ==> r == 0
  {
    if n == 0 then 0 else n - 1
  }

  class State {
    var queue: seq<QueueWork>
    var history: seq<LogEntry>
    var loading: bool
    var error: Option<string>
    var stats: Stats

    ghost predicate Valid()
      reads this
    {
      QueueInvariant(queue)
    }

    constructor ()
      ensures Valid()
      ensures queue == [] && history == [] && loading && error == None && stats == Stats(0, 0, 0)
    {
      queue, history, loading, error, stats := [], [], true, None, Stats(0, 0, 0);
    }

    /** `fetchQueue()`: the queue query over `table`, then the three counts
        (a null count reads 0) and the history rows. A failed queue query sets
        the error and leaves the rest; `loading` ends false either way. */
    method FetchQueue(table: seq<WorkRecord>, queueError: Option<Thrown>,
                      pendingCount: Option<nat>, approvedCount: Option<nat>, rejectedCount: Option<nat>,
                      notifications: Option<seq<LogEntry>>)
      requires Valid()
      modifies this
      ensures Valid()
      ensures !loading
      ensures queueError.Some? ==>
        error == Some(MessageOr(queueError.value, LOAD_ERROR))
        && queue == old(queue) && stats == old(stats) && history == old(history)
      ensures queueError.None? ==>
        error.None? && queue == QueueOf(table)
        && stats == Stats(pendingCount.GetOr(0), approvedCount.GetOr(0), rejectedCount.GetOr(0))
        && history == notifications.GetOr([])
    {
      loading, error := true, None;
      if queueError.Some? {
        error := Some(MessageOr(queueError.value, LOAD_ERROR));
        loading := false;
        return;
      }
      QueueOfMembers(table);
      QueueOfOrdered(table);
      queue := QueueOf(table);
      stats := Stats(pendingCount.GetOr(0), approvedCount.GetOr(0), rejectedCount.GetOr(0));
      history := notifications.GetOr([]);
      loading := false;
    }

    /** `approve(workId)`. `refreshFailed` is the outcome of the score refresh that
        follows a success; it is only logged and never changes the result. */
    method Approve(workId: string, outcome: RpcOutcome, refreshFailed: bool)
      returns (call: RpcCall, result: ModerationResult, refreshed: bool)
      requires Valid()
      modifies this`queue, this`stats
      ensures Valid()
      ensures call == RpcCall(workId, "approve", None)
      ensures outcome.TransportError? ==>
        result == ModerationResult(false, Some(outcome.message))
        && queue == old(queue) && stats == old(stats) && !refreshed
      ensures outcome.Answered? && !outcome.result.success ==>
        result == outcome.result && queue == old(queue) && stats == old(stats) && !refreshed
      ensures outcome.Answered? && outcome.result.success ==>
        result == outcome.result && refreshed
        && queue == Without(old(queue), workId)
        && stats == Stats(DecrementFloor(old(stats).pending), old(stats).approved + 1, old(stats).rejected)
    {
      call := RpcCall(workId, "approve", None);
      refreshed := false;
      match outcome
      case TransportError(msg) =>
        result := ModerationResult(false, Some(msg));
      case Answered(r) =>
        result := r;
        if r.success {
          WithoutKeepsInvariant(queue, workId);
          queue := Without(queue, workId);
          stats := Stats(DecrementFloor(stats.pending), stats.approved + 1, stats.rejected);
          refreshed := true;
        }
    }

    /** `reject(workId, note)`: the same as `approve` with the note sent along,
        the rejected counter moving instead, and no score refresh. */
    method Reject(workId: string, note: string, outcome: RpcOutcome)
      returns (call: RpcCall, result: ModerationResult)
      requires Valid()
      modifies this`queue, this`stats
      ensures Valid()
      ensures call == RpcCall(workId, "reject", Some(note))
      ensures outcome.TransportError? ==>
        result == ModerationResult(false, Some(outcome.message)) && queue == old(queue) && stats == old(stats)
      ensures outcome.Answered? && !outcome.result.success ==>
        result == outcome.result && queue == old(queue) && stats == old(stats)
      ensures outcome.Answered? && outcome.result.success ==>
        result == outcome.result
        && queue == Without(old(queue), workId)
        && stats == Stats(DecrementFloor(old(stats).pending), old(stats).approved, old(stats).rejected + 1)
    {
      call := RpcCall(workId, "reject", Some(note));
      match outcome
      case TransportError(msg) =>
        result := ModerationResult(false, Some(msg));
      case Answered(r) =>
        result := r;
        if r.success {
          WithoutKeepsInvariant(queue, workId);
          queue := Without(queue, workId);
          stats := Stats(DecrementFloor(stats.pending), stats.approved, stats.rejected + 1);
        }
    }
  }
}
