/** The author's dashboard: works split by status, engagement totals over the
    published works, the five most engaging works, the reputation label. */
module Dashboard {
  import Seqs
  import WorkStatus

  datatype WorkStat = WorkStat(id: string, status: string, likes: int, comments: int, views: int)

  const LEVEL_LABELS: seq<string> := ["Novato", "Activo", "Reconocido", "Referente"]
  const TOP_MAX: nat := 5

  predicate IsApproved(w: WorkStat) { w.status == WorkStatus.APPROVED }
  predicate IsPending(w: WorkStat) { w.status == WorkStatus.PENDING }
  predicate IsRejected(w: WorkStat) { w.status == WorkStatus.REJECTED }
  predicate IsOther(w: WorkStat) { !IsApproved(w) && !IsPending(w) && !IsRejected(w) }

  function Approved(works: seq<WorkStat>): seq<WorkStat> { Seqs.Filter(works, IsApproved) }
  function Pending(works: seq<WorkStat>): seq<WorkStat> { Seqs.Filter(works, IsPending) }
  function Rejected(works: seq<WorkStat>): seq<WorkStat> { Seqs.Filter(works, IsRejected) }

  /** Each work is in at most one of the three lists; with the works of any
      other status they account for every work. */
  lemma StatusSplit(works: seq<WorkStat>)
    ensures |Approved(works)| + |Pending(works)| + |Rejected(works)| + |Seqs.Filter(works, IsOther)| == |works|
  {
    Seqs.FilterFourWay(works, IsApproved, IsPending, IsRejected, IsOther);
  }

  function Likes(w: WorkStat): int { w.likes }
  function CommentCount(w: WorkStat): int { w.comments }
  function Views(w: WorkStat): int { w.views }

  /** `approved.reduce((sum, w) => sum + w.likes_count, 0)` and its two siblings. */
  function TotalLikes(works: seq<WorkStat>): int { Seqs.Sum(Approved(works), Likes) }
  function TotalComments(works: seq<WorkStat>): int { Seqs.Sum(Approved(works), CommentCount) }
  function TotalViews(works: seq<WorkStat>): int { Seqs.Sum(Approved(works), Views) }

  /** One more work adds its numbers to the totals when it is approved and
      nothing otherwise. */
  lemma TotalsCountApprovedOnly(works: seq<WorkStat>, w: WorkStat)
    ensures TotalLikes(works + [w]) == TotalLikes(works) + (if IsApproved(w) then w.likes else 0)
    ensures TotalComments(works + [w]) == TotalComments(works) + (if IsApproved(w) then w.comments else 0)
    ensures TotalViews(works + [w]) == TotalViews(works) + (if IsApproved(w) then w.views else 0)
  {
    Seqs.FilterConcat(works, [w], IsApproved);
    var tail := Seqs.Filter([w], IsApproved);
    assert tail == if IsApproved(w) then [w] else [];
    Seqs.SumConcat(Approved(works), tail, Likes);
    Seqs.SumConcat(Approved(works), tail, CommentCount);
    Seqs.SumConcat(Approved(works), tail, Views);
  }

  /** Engagement: likes plus comments. `SortBy` sorts ascending, so the key is
      its negation, which gives the comparator `b - a`. */
  function Engagement(w: WorkStat): int { w.likes + w.comments }
  function Rank(w: WorkStat): int { -Engagement(w) }

  /** `[...approved].sort(by engagement, descending).slice(0, 5)`. */
  function TopWorks(works: seq<WorkStat>): (top: seq<WorkStat>)
    ensures |top| <= TOP_MAX
  {
    Seqs.Take(Seqs.SortBy(Approved(works), Rank), TOP_MAX)
  }

  /** The top works are approved works, as many as five allows, in
      non-increasing engagement. */
  lemma TopWorksOrdered(works: seq<WorkStat>)
    ensures var top, approved := TopWorks(works), Approved(works);
      && |top| == (if |approved| < TOP_MAX then |approved| else TOP_MAX)
      && (forall i, j :: 0 <= i < j < |top| ==> Engagement(top[i]) >= Engagement(top[j]))
  {
    var sorted := Seqs.SortBy(Approved(works), Rank);
    var top := TopWorks(works);
    forall i, j | 0 <= i < j < |top| ensures Engagement(top[i]) >= Engagement(top[j]) {
      assert top[i] == sorted[i] && top[j] == sorted[j];
      assert Rank(sorted[i]) <= Rank(sorted[j]);
    }
  }

  /** The top works are drawn from the approved ones, and no approved work
      left out is more engaging than one shown. */
  lemma TopWorksMaximal(works: seq<WorkStat>)
    ensures var top, approved := TopWorks(works), Approved(works);
      && multiset(top) <= multiset(approved)
      && (forall w, t :: w in multiset(approved) - multiset(top) && t in top ==> Engagement(w) <= Engagement(t))
  {
    var sorted := Seqs.SortBy(Approved(works), Rank);
    Seqs.TakeSorted(sorted, TOP_MAX, Rank);
  }

  /** `LEVEL_LABELS[level] ?? "Novato"`: a level outside the table reads
      "Novato". */
  function LevelLabel(level: int): (caption: string)
    ensures 0 <= level < |LEVEL_LABELS| ==> caption == LEVEL_LABELS[level]
    ensures !(0 <= level < |LEVEL_LABELS|) ==> caption == "Novato"
  {
    if 0 <= level < |LEVEL_LABELS| then LEVEL_LABELS[level] else "Novato"
  }

  /** The "see all" link: more approved works than the top list shows. */
  predicate SeeAll(works: seq<WorkStat>) {
    |Approved(works)| > TOP_MAX
  }

  /** The link appears exactly when some approved work is not in the top
      list. */
  lemma SeeAllIffHidden(works: seq<WorkStat>)
    ensures SeeAll(works) <==> |TopWorks(works)| < |Approved(works)|
  {
    TopWorksOrdered(works);
  }
}
