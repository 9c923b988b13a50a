/** The admin works list: the author join through a profile map, archive and
    delete with their remote procedures (supplied outcomes), and the tab and
    search filters. */
module WorksManager {
  import opened Base
  import Seqs
  import Text
  import Moderation

  /** A row of `works` as queried. */
  datatype WorkRecord = WorkRecord(id: string, title: string, status: Moderation.ModerationStatus,
                                   archived: bool, authorId: string)

  /** A row of `profiles`; either column may be null. */
  datatype Profile = Profile(id: string, fullName: Option<string>, username: Option<string>)

  /** A listed work with its author's name and username. */
  datatype WorkRow = WorkRow(work: WorkRecord, authorName: string, authorUsername: string)

  datatype Tab = All | ApprovedTab | ArchivedTab

  const MISSING: string := "—"

  function ProfileId(p: Profile): string { p.id }

  /** `profileMap[w.author_id]?.name ?? "—"` and the same for the username. */
  function Join(w: WorkRecord, profileMap: map<string, Profile>): (row: WorkRow)
    ensures row.work == w
    ensures w.authorId !in profileMap ==> row.authorName == MISSING && row.authorUsername == MISSING
    ensures w.authorId in profileMap ==>
      row.authorName == profileMap[w.authorId].fullName.GetOr(MISSING)
      && row.authorUsername == profileMap[w.authorId].username.GetOr(MISSING)
  {
    if w.authorId in profileMap then
      WorkRow(w, profileMap[w.authorId].fullName.GetOr(MISSING), profileMap[w.authorId].username.GetOr(MISSING))
    else WorkRow(w, MISSING, MISSING)
  }

  function JoinAll(data: seq<WorkRecord>, profileMap: map<string, Profile>): (rows: seq<WorkRow>)
    ensures |rows| == |data|
    ensures forall i :: 0 <= i < |rows| ==> rows[i] == Join(data[i], profileMap)
  {
    seq(|data|, i requires 0 <= i < |data| => Join(data[i], profileMap))
  }

  /** An author missing from the profile rows shows as "—". */
  lemma JoinMissingAuthor(w: WorkRecord, profiles: seq<Profile>)
    requires forall i :: 0 <= i < |profiles| ==> profiles[i].id != w.authorId
    ensures Join(w, Seqs.Indexed(profiles, ProfileId)) == WorkRow(w, MISSING, MISSING)
  {
    Seqs.IndexedLastWins(profiles, ProfileId, w.authorId);
  }

  /** An author present shows the profile row the `forEach` stored last for
      that id. */
  lemma JoinLastProfile(w: WorkRecord, profiles: seq<Profile>, i: nat)
    requires i < |profiles| && profiles[i].id == w.authorId
    requires forall j :: i < j < |profiles| ==> profiles[j].id != w.authorId
    ensures Join(w, Seqs.Indexed(profiles, ProfileId))
      == WorkRow(w, profiles[i].fullName.GetOr(MISSING), profiles[i].username.GetOr(MISSING))
  {
    Seqs.IndexedLastWins(profiles, ProfileId, w.authorId);
    assert ProfileId(profiles[i]) == w.authorId;
    var m := Seqs.Indexed(profiles, ProfileId);
    var k :| 0 <= k < |profiles| && ProfileId(profiles[k]) == w.authorId && m[w.authorId] == profiles[k]
      && forall j :: k < j < |profiles| ==> ProfileId(profiles[j]) != w.authorId;
    assert k == i;
  }

  /** `prev.map(w => w.id === workId ? { ...w, archived } : w)`. */
  function SetArchived(works: seq<WorkRow>, workId: string, archived: bool): (r: seq<WorkRow>)
    ensures |r| == |works|
    ensures forall i :: 0 <= i < |r| && works[i].work.id != workId ==> r[i] == works[i]
    ensures forall i :: 0 <= i < |r| && works[i].work.id == workId ==>
      r[i] == works[i].(work := works[i].work.(archived := archived))
  {
    seq(|works|, i requires 0 <= i < |works| =>
      if works[i].work.id == workId then works[i].(work := works[i].work.(archived := archived)) else works[i])
  }

  /** Archiving then restoring a work gives back its old flag, and nothing else
      moved. */
  lemma ArchiveUndo(works: seq<WorkRow>, workId: string)
    requires forall i :: 0 <= i < |works| && works[i].work.id == workId ==> !works[i].work.archived
    ensures SetArchived(SetArchived(works, workId, true), workId, false) == works
  {
    var r := SetArchived(SetArchived(works, workId, true), workId, false);
    assert forall i :: 0 <= i < |works| ==> r[i] == works[i];
  }

  /** `prev.filter(w => w.id !== workId)`. */
  function Without(works: seq<WorkRow>, workId: string): (r: seq<WorkRow>)
    ensures forall w :: w in r <==> w in works && w.work.id != workId
    ensures Seqs.SubsequenceOf(r, works)
  {
    var p := (w: WorkRow) => w.work.id != workId;
    Seqs.FilterIsSubsequence(works, p);
    Seqs.Filter(works, p)
  }

  /** The tab's condition. */
  predicate InTab(w: WorkRow, tab: Tab) {
    match tab
    case All => true
    case ApprovedTab => w.work.status == Moderation.Approved && !w.work.archived
    case ArchivedTab => w.work.archived
  }

  predicate MatchesSearch(w: WorkRow, search: string) {
    Text.Contains(Text.Lower(w.work.title), Text.Lower(search))
    || Text.Contains(Text.Lower(w.authorName), Text.Lower(search))
  }

  /** Archiving moves the work to the "archived" tab and out of the
      "approved" one, the others staying where they were; restoring an
      approved work brings it back to "approved". */
  lemma ArchiveMovesTabs(works: seq<WorkRow>, workId: string, tab: Tab)
    ensures forall i :: 0 <= i < |works| && works[i].work.id == workId ==>
      InTab(SetArchived(works, workId, true)[i], ArchivedTab)
      && !InTab(SetArchived(works, workId, true)[i], ApprovedTab)
    ensures forall i :: 0 <= i < |works| && works[i].work.id == workId && works[i].work.status == Moderation.Approved ==>
      InTab(SetArchived(works, workId, false)[i], ApprovedTab)
      && !InTab(SetArchived(works, workId, false)[i], ArchivedTab)
    ensures forall i, b :: 0 <= i < |works| && works[i].work.id != workId ==>
      (InTab(SetArchived(works, workId, b)[i], tab) <==> InTab(works[i], tab))
  {
  }

  /** Whether a work is listed: in the tab, and matching a non-empty search. */
  predicate Shown(w: WorkRow, tab: Tab, search: string) {
    InTab(w, tab) && (search == "" || MatchesSearch(w, search))
  }

  /** `let filtered = works`, narrowed by the tab, then by the search. The
      listing is the works shown, in the order the query returned them. */
  method Visible(works: seq<WorkRow>, tab: Tab, search: string) returns (filtered: seq<WorkRow>)
    ensures filtered == Seqs.Filter(works, (w: WorkRow) => Shown(w, tab, search))
    ensures Seqs.SubsequenceOf(filtered, works)
    ensures forall w :: w in filtered <==> w in works && Shown(w, tab, search)
    ensures |filtered| <= |works|
    ensures tab == All && search == "" ==> filtered == works
  {
    var shown := (w: WorkRow) => Shown(w, tab, search);
    var inTab := (w: WorkRow) => InTab(w, tab);
    filtered := works;
    if tab == ApprovedTab {
      filtered := Seqs.Filter(works, (w: WorkRow) => w.work.status == Moderation.Approved && !w.work.archived);
      Seqs.FilterEquiv(works, (w: WorkRow) => w.work.status == Moderation.Approved && !w.work.archived, inTab);
    } else if tab == ArchivedTab {
      filtered := Seqs.Filter(works, (w: WorkRow) => w.work.archived);
      Seqs.FilterEquiv(works, (w: WorkRow) => w.work.archived, inTab);
    } else {
      Seqs.FilterAll(works, inTab);
    }
    assert filtered == Seqs.Filter(works, inTab);
    if search != "" {
      filtered := Seqs.Filter(filtered, (w: WorkRow) => MatchesSearch(w, search));
      Seqs.FilterFilter(works, inTab, (w: WorkRow) => MatchesSearch(w, search), shown);
    } else {
      Seqs.FilterEquiv(works, inTab, shown);
    }
    Seqs.FilterIsSubsequence(works, shown);
  }

  class Manager {
    var works: seq<WorkRow>
    var loading: bool
    var actionLoading: Option<string>
    var confirmDelete: Option<(string, string)>

    constructor ()
      ensures works == [] && loading && actionLoading == None && confirmDelete == None
    {
      works, loading, actionLoading, confirmDelete := [], true, None, None;
    }

    /** `fetchWorks()`: a failed works query is silent; otherwise the rows are
        joined with a profile map built by a `forEach` over the profiles (null
        profile data reads as none). */
    method FetchWorks(data: seq<WorkRecord>, worksFailed: bool, profiles: Option<seq<Profile>>)
      modifies this`works, this`loading
      ensures !loading
      ensures worksFailed ==> works == old(works)
      ensures !worksFailed ==> works == JoinAll(data, Seqs.Indexed(profiles.GetOr([]), ProfileId))
    {
      loading := true;
      if worksFailed {
        loading := false;
        return;
      }
      var profileMap := Seqs.IndexBy(profiles.GetOr([]), ProfileId);
      works := JoinAll(data, profileMap);
      loading := false;
    }

    /** `handleArchive(workId, archived)`. */
    method HandleArchive(workId: string, archived: bool, rpcFailed: bool)
      modifies this`works, this`actionLoading
      ensures rpcFailed ==> works == old(works)
      ensures !rpcFailed ==> works == SetArchived(old(works), workId, archived)
      ensures actionLoading == None
    {
      actionLoading := Some(workId);
      if !rpcFailed {
        works := SetArchived(works, workId, archived);
      }
      actionLoading := None;
    }

    /** `handleDelete(workId)`; the confirm dialog is closed either way. */
    method HandleDelete(workId: string, rpcFailed: bool)
      modifies this`works, this`actionLoading, this`confirmDelete
      ensures rpcFailed ==> works == old(works)
      ensures !rpcFailed ==> works == Without(old(works), workId)
      ensures actionLoading == None && confirmDelete == None
    {
      actionLoading := Some(workId);
      if !rpcFailed {
        works := Without(works, workId);
      }
      actionLoading, confirmDelete := None, None;
    }
  }
}
