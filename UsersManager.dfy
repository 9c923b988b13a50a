/** The admin users list: per-author work counts built in a `forEach`, the
    activate/deactivate action, the search filter and the active/inactive
    tallies. The profile query, the works query and the remote procedure are
    supplied outcomes. */
module UsersManager {
  import opened Base
  import Seqs
  import Text
  import Moderation

  /** The two columns of `works` the count reads. */
  datatype AuthoredWork = AuthoredWork(authorId: string, status: Moderation.ModerationStatus)

  datatype Counts = Counts(approved: nat, pending: nat, rejected: nat)

  /** A row of `profiles`. */
  datatype Profile = Profile(id: string, fullName: string, username: string, isActive: bool, isFounder: bool)

  /** A listed user: the profile and its three counts. */
  datatype UserRow = UserRow(profile: Profile, counts: Counts)

  /** The confirm dialog: only deactivation asks first. */
  datatype Confirm = Confirm(userId: string, name: string)

  /** The number of works by `author` with `status`, counted from the front. */
  function Count(works: seq<AuthoredWork>, author: string, status: Moderation.ModerationStatus): nat {
    if works == [] then 0
    else
      var last := if works[|works| - 1] == AuthoredWork(author, status) then 1 else 0;
      Count(works[..|works| - 1], author, status) + last
  }

  /** One loop step on an author's counters: drafts move nothing. */
  function Bump(c: Counts, status: Moderation.ModerationStatus): (r: Counts)
    ensures status == Moderation.Approved ==> r == c.(approved := c.approved + 1)
    ensures status == Moderation.PendingReview ==> r == c.(pending := c.pending + 1)
    ensures status == Moderation.Rejected ==> r == c.(rejected := c.rejected + 1)
    ensures status == Moderation.Draft ==> r == c
  {
    match status
    case Approved => c.(approved := c.approved + 1)
    case PendingReview => c.(pending := c.pending + 1)
    case Rejected => c.(rejected := c.rejected + 1)
    case Draft => c
  }

  const ZERO: Counts := Counts(0, 0, 0)

  /** The `counts` record the `forEach` leaves behind. */
  function Tally(works: seq<AuthoredWork>): map<string, Counts> {
    if works == [] then map[]
    else
      var m := Tally(works[..|works| - 1]);
      var w := works[|works| - 1];
      m[w.authorId := Bump(if w.authorId in m then m[w.authorId] else ZERO, w.status)]
  }

  /** `counts[p.id]?.x ?? 0`. */
  function CountsOf(counts: map<string, Counts>, id: string): Counts {
    if id in counts then counts[id] else ZERO
  }

  /** Each author's entry holds its number of approved, pending and rejected
      works; an author with no works reads 0/0/0; drafts count nowhere. */
  lemma {:induction false} TallySpec(works: seq<AuthoredWork>, a: string)
    ensures a in Tally(works) <==> exists i :: 0 <= i < |works| && works[i].authorId == a
    ensures CountsOf(Tally(works), a) ==
      Counts(Count(works, a, Moderation.Approved), Count(works, a, Moderation.PendingReview),
             Count(works, a, Moderation.Rejected))
  {
    if works != [] {
      var init := works[..|works| - 1];
      TallySpec(init, a);
      assert forall i :: 0 <= i < |init| ==> init[i] == works[i];
    }
  }

  /** The `forEach` itself, one work at a time. */
  method TallyCounts(works: seq<AuthoredWork>) returns (counts: map<string, Counts>)
    ensures counts == Tally(works)
  {
    counts := map[];
    var i := 0;
    while i < |works|
      invariant 0 <= i <= |works|
      invariant counts == Tally(works[..i])
    {
      assert works[..i + 1][..i] == works[..i];
      var w := works[i];
      var c := if w.authorId in counts then counts[w.authorId] else ZERO;
      counts := counts[w.authorId := Bump(c, w.status)];
      i := i + 1;
    }
    assert works[..|works|] == works;
  }

  /** `profiles.map(p => ({ ...p, …counts }))`. */
  function Attach(profiles: seq<Profile>, counts: map<string, Counts>): (users: seq<UserRow>)
    ensures |users| == |profiles|
    ensures forall i :: 0 <= i < |users| ==>
      users[i].profile == profiles[i] && users[i].counts == CountsOf(counts, profiles[i].id)
  {
    seq(|profiles|, i requires 0 <= i < |profiles| => UserRow(profiles[i], CountsOf(counts, profiles[i].id)))
  }

  /** `users.map(u => u.id === userId ? { ...u, is_active: active } : u)`. */
  function SetActive(users: seq<UserRow>, userId: string, active: bool): (r: seq<UserRow>)
    ensures |r| == |users|
  {
    seq(|users|, i requires 0 <= i < |users| =>
      if users[i].profile.id == userId then users[i].(profile := users[i].profile.(isActive := active))
      else users[i])
  }

  /** Only the matching rows change, and only in `is_active`. */
  lemma SetActiveSpec(users: seq<UserRow>, userId: string, active: bool)
    ensures forall i :: 0 <= i < |users| && users[i].profile.id != userId ==>
      SetActive(users, userId, active)[i] == users[i]
    ensures forall i :: 0 <= i < |users| && users[i].profile.id == userId ==>
      SetActive(users, userId, active)[i].profile.isActive == active
      && SetActive(users, userId, active)[i] == users[i].(profile := users[i].profile.(isActive := active))
  {
  }

  /** Setting the flag to what it already is changes nothing. */
  lemma SetActiveIdempotent(users: seq<UserRow>, userId: string, active: bool)
    ensures SetActive(SetActive(users, userId, active), userId, active) == SetActive(users, userId, active)
  {
  }

  /** The search: case-insensitive substring on full name or username. */
  predicate Matches(u: UserRow, search: string) {
    Text.Contains(Text.Lower(u.profile.fullName), Text.Lower(search))
    || Text.Contains(Text.Lower(u.profile.username), Text.Lower(search))
  }

  /** `filtered`: everyone for an empty search, else the matching users in order. */
  function Filtered(users: seq<UserRow>, search: string): (r: seq<UserRow>)
    ensures search == "" ==> r == users
    ensures search != "" ==> forall u :: u in r <==> u in users && Matches(u, search)
    ensures Seqs.SubsequenceOf(r, users)
  {
    if search == "" then
      SubsequenceRefl(users);
      users
    else
      Seqs.FilterIsSubsequence(users, u => Matches(u, search));
      Seqs.Filter(users, u => Matches(u, search))
  }

  lemma {:induction false} SubsequenceRefl<T>(s: seq<T>)
    ensures Seqs.SubsequenceOf(s, s)
  {
    if s != [] {
      SubsequenceRefl(s[1..]);
    }
  }

  predicate IsActive(u: UserRow) { u.profile.isActive }
  predicate IsInactive(u: UserRow) { !u.profile.isActive }

  /** `activeCount + inactiveCount == users.length`. */
  lemma ActiveInactivePartition(users: seq<UserRow>)
    ensures |Seqs.Filter(users, IsActive)| + |Seqs.Filter(users, IsInactive)| == |users|
  {
    Seqs.FilterPartition(users, IsActive, IsInactive);
  }

  /** The row's action button: none for a founder, otherwise the flag flips. */
  function ActionFor(u: UserRow): (activate: Option<bool>)
    ensures activate.None? <==> u.profile.isFounder
    ensures activate.Some? ==> activate.value == !u.profile.isActive
  {
    if u.profile.isFounder then None else Some(!u.profile.isActive)
  }

  class Manager {
    var users: seq<UserRow>
    var loading: bool
    var actionLoading: Option<string>
    var confirm: Option<Confirm>

    constructor ()
      ensures users == [] && loading && actionLoading == None && confirm == None
    {
      users, loading, actionLoading, confirm := [], true, None, None;
    }

    /** `fetchUsers()`: a failed profile query is silent and leaves the list;
        otherwise each profile gets its counts (null works read as none). */
    method FetchUsers(profiles: seq<Profile>, profilesFailed: bool, works: Option<seq<AuthoredWork>>)
      modifies this`users, this`loading
      ensures !loading
      ensures profilesFailed ==> users == old(users)
      ensures !profilesFailed ==> users == Attach(profiles, Tally(works.GetOr([])))
    {
      loading := true;
      if profilesFailed {
        loading := false;
        return;
      }
      var counts := TallyCounts(works.GetOr([]));
      users := Attach(profiles, counts);
      loading := false;
    }

    /** `handleToggleActive(userId, active)`: success changes that user's flag
        only; failure is silent; the slot and the dialog are cleared either way. */
    method HandleToggleActive(userId: string, active: bool, rpcFailed: bool)
      modifies this`users, this`actionLoading, this`confirm
      ensures rpcFailed ==> users == old(users)
      ensures !rpcFailed ==> users == SetActive(old(users), userId, active)
      ensures actionLoading == None && confirm == None
    {
      actionLoading := Some(userId);
      if !rpcFailed {
        users := SetActive(users, userId, active);
      }
      actionLoading, confirm := None, None;
    }

    /** The deactivate button opens the dialog; the reactivate button acts at
        once; founders have neither. */
    method ActionClicked(u: UserRow, rpcFailed: bool)
      modifies this`users, this`actionLoading, this`confirm
      ensures u.profile.isFounder ==> unchanged(this)
      ensures !u.profile.isFounder && u.profile.isActive ==>
        users == old(users) && actionLoading == old(actionLoading)
        && confirm == Some(Confirm(u.profile.id, u.profile.fullName))
      ensures !u.profile.isFounder && !u.profile.isActive ==>
        users == (if rpcFailed then old(users) else SetActive(old(users), u.profile.id, true))
        && actionLoading == None && confirm == None
    {
      match ActionFor(u)
      case None =>
      case Some(activate) =>
        if !activate {
          confirm := Some(Confirm(u.profile.id, u.profile.fullName));
        } else {
          HandleToggleActive(u.profile.id, true, rpcFailed);
        }
    }

    /** The dialog's confirm button deactivates the named user. */
    method ConfirmDeactivate(rpcFailed: bool)
      modifies this`users, this`actionLoading, this`confirm
      ensures old(confirm).None? ==> users == old(users) && confirm == None
      ensures old(confirm).Some? ==>
        users == (if rpcFailed then old(users) else SetActive(old(users), old(confirm).value.userId, false))
      ensures actionLoading == (if old(confirm).None? then old(actionLoading) else None)
      ensures confirm == None
    {
      if confirm.None? {
        return;
      }
      HandleToggleActive(confirm.value.userId, false, rpcFailed);
    }

    method CancelConfirm()
      modifies this`confirm
      ensures confirm == None
    {
      confirm := None;
    }
  }
}
