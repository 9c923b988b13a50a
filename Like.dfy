/** The like button's hook: the optimistic toggle that flips the heart and
    moves the count at once, and puts both back when the backend call fails. */
module Like {
  import opened Base

  /** The backend call a toggle makes. */
  datatype Action = Insert(userId: string, workId: string) | Delete(userId: string, workId: string)

  /** The optimistic count: one less when the work was liked, one more when not. */
  function Moved(wasLiked: bool, count: int): int {
    if wasLiked then count - 1 else count + 1
  }

  /** The revert in the `catch`: the opposite move. */
  function Reverted(wasLiked: bool, count: int): int {
    if wasLiked then count + 1 else count - 1
  }

  /** Reverting undoes the optimistic move exactly, and two successful toggles
      bring the count back. */
  lemma RevertUndoesMove(wasLiked: bool, count: int)
    ensures Reverted(wasLiked, Moved(wasLiked, count)) == count
    ensures Moved(!wasLiked, Moved(wasLiked, count)) == count
  {
  }

  class LikeState {
    const workId: string
    var liked: bool
    var count: int
    var loading: bool
    var userId: Option<string>
    /** The `wasLiked` of the call under way, if any. */
    var inFlight: Option<bool>

    ghost predicate Valid()
      reads this
    {
      loading <==> inFlight.Some?
    }

    /** `useLike(workId, initialCount)`: not liked, the given count. */
    constructor (workId: string, initialCount: int)
      ensures Valid()
      ensures this.workId == workId && !liked && count == initialCount && !loading
      ensures userId == None && inFlight == None
    {
      this.workId := workId;
      liked, count, loading, userId, inFlight := false, initialCount, false, None, None;
    }

    /** The mount effect: with a signed-in user, the id is kept and `liked`
        says whether that user's like row exists. */
    method LoadUser(user: Option<string>, rowFound: bool)
      modifies this`userId, this`liked
      ensures user.None? ==> userId == old(userId) && liked == old(liked)
      ensures user.Some? ==> userId == user && liked == rowFound
    {
      if user.Some? {
        userId := user;
        liked := rowFound;
      }
    }

    /** `toggle()` up to the await: ignored without a user or while a call is
        under way; otherwise the heart is flipped, the count moved and the
        matching insert or delete is issued. */
    method Start() returns (action: Option<Action>)
      requires Valid()
      modifies this`liked, this`count, this`loading, this`inFlight
      ensures Valid()
      ensures !Truthy(old(userId)) || old(loading) ==>
        action.None? && liked == old(liked) && count == old(count) && loading == old(loading)
        && inFlight == old(inFlight)
      ensures Truthy(old(userId)) && !old(loading) ==>
        && liked == !old(liked) && count == Moved(old(liked), old(count))
        && loading && inFlight == Some(old(liked))
        && action == Some(if old(liked) then Delete(userId.value, workId) else Insert(userId.value, workId))
    {
      action := None;
      if !Truthy(userId) || loading {
        return;
      }
      var wasLiked := liked;
      liked := !wasLiked;
      count := Moved(wasLiked, count);
      loading := true;
      inFlight := Some(wasLiked);
      action := Some(if wasLiked then Delete(userId.value, workId) else Insert(userId.value, workId));
    }

    /** The call settles: a failure restores `liked` and moves the count back;
        loading ends in both cases. */
    method Finish(failed: bool)
      requires Valid() && inFlight.Some?
      modifies this`liked, this`count, this`loading, this`inFlight
      ensures Valid() && !loading
      ensures failed ==> liked == old(inFlight.value) && count == Reverted(old(inFlight.value), old(count))
      ensures !failed ==> liked == old(liked) && count == old(count)
    {
      var wasLiked := inFlight.value;
      if failed {
        liked := wasLiked;
        count := Reverted(wasLiked, count);
      }
      loading := false;
      inFlight := None;
    }
  }

  /** A toggle whose call fails ends exactly where it began. */
  method FailedToggleRestores(l: LikeState)
    requires l.Valid() && Truthy(l.userId) && !l.loading
    modifies l
    ensures l.Valid() && !l.loading
    ensures l.liked == old(l.liked) && l.count == old(l.count)
  {
    var action := l.Start();
    RevertUndoesMove(old(l.liked), old(l.count));
    l.Finish(true);
  }

  /** Two successful toggles also end where they began. */
  method ToggleTwiceRestores(l: LikeState)
    requires l.Valid() && Truthy(l.userId) && !l.loading
    modifies l
    ensures l.Valid() && !l.loading
    ensures l.liked == old(l.liked) && l.count == old(l.count)
  {
    var a1 := l.Start();
    l.Finish(false);
    var a2 := l.Start();
    RevertUndoesMove(old(l.liked), old(l.count));
    l.Finish(false);
  }
}
