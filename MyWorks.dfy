/** The author's own list of works: the three status counts, the badge each
    card shows, which cards link to the work page and show engagement, and
    the singular/plural wording of the total. */
module MyWorks {
  import opened Base
  import Seqs
  import Text
  import WorkStatus

  datatype MyWork = MyWork(id: string, status: string, likes: int, comments: int)

  predicate IsApproved(w: MyWork) { w.status == WorkStatus.APPROVED }
  predicate IsPending(w: MyWork) { w.status == WorkStatus.PENDING }
  predicate IsRejected(w: MyWork) { w.status == WorkStatus.REJECTED }
  predicate IsOther(w: MyWork) { !IsApproved(w) && !IsPending(w) && !IsRejected(w) }

  /** The three counts of the stats row. */
  datatype Counts = Counts(approved: nat, pending: nat, rejected: nat)

  function CountsOf(works: seq<MyWork>): (c: Counts)
    ensures c.approved + c.pending + c.rejected <= |works|
  {
    Seqs.FilterFourWay(works, IsApproved, IsPending, IsRejected, IsOther);
    Counts(|Seqs.Filter(works, IsApproved)|, |Seqs.Filter(works, IsPending)|, |Seqs.Filter(works, IsRejected)|)
  }

  /** The counts cover every work exactly when no work has another status
      (a draft, say). */
  lemma CountsCoverAll(works: seq<MyWork>)
    ensures var c := CountsOf(works);
      c.approved + c.pending + c.rejected == |works| <==> forall i :: 0 <= i < |works| ==> !IsOther(works[i])
  {
    Seqs.FilterFourWay(works, IsApproved, IsPending, IsRejected, IsOther);
    var o := Seqs.Filter(works, IsOther);
    if |o| > 0 {
      assert o[0] in o;
    }
    assert forall i :: 0 <= i < |works| ==> works[i] in works;
  }

  /** The badge labels of `STATUS_STYLES`; the colours are presentation. */
  function BadgeLabel(status: string): (caption: string)
    ensures status == WorkStatus.PENDING ==> caption == "En revisión"
    ensures status == WorkStatus.APPROVED ==> caption == "Publicada"
    ensures status == WorkStatus.REJECTED ==> caption == "Rechazada"
    ensures status !in {WorkStatus.PENDING, WorkStatus.APPROVED, WorkStatus.REJECTED} ==> caption == "Borrador"
  {
    if status == WorkStatus.PENDING then "En revisión"
    else if status == WorkStatus.APPROVED then "Publicada"
    else if status == WorkStatus.REJECTED then "Rechazada"
    else "Borrador"
  }

  /** An unknown status shows the draft badge, and the draft badge is shown
      for nothing but a draft or an unknown status. */
  lemma BadgeFallback(status: string)
    ensures BadgeLabel(status) == BadgeLabel(WorkStatus.DRAFT) <==>
      status !in {WorkStatus.PENDING, WorkStatus.APPROVED, WorkStatus.REJECTED}
  {
  }

  /** The card wrapper: a link to the work page only for an approved work. */
  function CardLink(w: MyWork): (href: Option<string>)
    ensures href.Some? <==> IsApproved(w)
    ensures href.Some? ==> href.value == "/dashboard/work/" + w.id
  {
    if IsApproved(w) then Some("/dashboard/work/" + w.id) else None
  }

  /** Likes and comments appear on approved cards only. */
  function Engagement(w: MyWork): (shown: Option<(int, int)>)
    ensures shown.Some? <==> CardLink(w).Some?
    ensures shown.Some? ==> shown.value == (w.likes, w.comments)
  {
    if IsApproved(w) then Some((w.likes, w.comments)) else None
  }

  /** The header: "{n} obra en total" for one work, "{n} obras en total"
      otherwise, zero included. */
  function TotalText(works: seq<MyWork>): (text: string)
    ensures Text.StartsWith(text, Text.NatToString(|works|) + " obra")
  {
    var n := Text.NatToString(|works|);
    var t := n + " " + (if |works| == 1 then "obra" else "obras") + " en total";
    assert t[..|n + " obra"|] == n + " obra";
    t
  }

  /** The two header forms for any rendered count: each is the count
      followed by its fixed suffix, and the two differ. */
  lemma HeaderForms(n: string)
    ensures n + " " + "obra" + " en total" == n + " obra en total"
    ensures n + " " + "obras" + " en total" == n + " obras en total"
    ensures n + " obras en total" != n + " obra en total"
  {
    assert |n + " obras en total"| != |n + " obra en total"|;
  }

  lemma TotalTextSingular(works: seq<MyWork>)
    ensures TotalText(works) == Text.NatToString(|works|) + " obra en total" <==> |works| == 1
  {
    HeaderForms(Text.NatToString(|works|));
  }

  /** Any other count reads in the plural. */
  lemma TotalTextPlural(works: seq<MyWork>)
    requires |works| != 1
    ensures TotalText(works) == Text.NatToString(|works|) + " obras en total"
  {
    HeaderForms(Text.NatToString(|works|));
  }
}
