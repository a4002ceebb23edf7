/**
 * The like button's optimistic toggle. A press (when a user is signed in and no
 * request is in flight) flips the like flag, moves the count by one in the
 * matching direction and marks a request in flight; when the request settles,
 * a failure undoes exactly that move and a success keeps it and notifies the
 * parent with the backend's `liked` flag. The count the backend reports is not
 * written back.
 *
 * The handler is split at its `await`: `Press` is what runs before the request
 * goes out, `Settle` what runs when it comes back, `HandleLike` the two in a row.
 * The backend's reply is a parameter: an answer (whether it succeeded and the
 * `liked` flag it carries) or a rejection. The handler has no `finally`, so a
 * rejection leaves the request marked in flight for good.
 */
module LikeButton {
  import opened Common
  import Types

  /**
   * How the awaited toggle request ended: an answer carrying `success` and
   * `liked`, or a rejection (the call threw, or its result could not be
   * destructured).
   */
  datatype Reply = Answered(success: bool, liked: bool) | Rejected

  /**
   * The reply the handler would see if its call reached the like service's
   * `toggleLike`, given what that resolves with (the `liked` flag of
   * `{ liked, count }`, or null after a failed write) or that it threw. The
   * resolved object has no `success` field, so `!success` holds and every
   * answer reads as a failure; destructuring null throws, so a null result
   * rejects like a thrown call.
   */
  function ReplyOfToggle(result: Types.Outcome<Option<bool>>): (r: Reply)
    ensures r.Answered? <==> result.Resolved? && result.value.Some?
    ensures r.Answered? ==> !r.success && r.liked == result.value.value
  {
    match result
    case Resolved(Some(liked)) => Answered(false, liked)
    case _ => Rejected
  }

  /** What the button shows. */
  datatype Shown = Shown(isLiked: bool, likeCount: int)

  /** The optimistic move: flip the flag, +1 when becoming liked, -1 when becoming unliked. */
  function Optimistic(s: Shown): (r: Shown)
    ensures r.isLiked == !s.isLiked
    ensures r.isLiked ==> r.likeCount == s.likeCount + 1
    ensures !r.isLiked ==> r.likeCount == s.likeCount - 1
  {
    var newLiked := !s.isLiked;
    Shown(newLiked, s.likeCount + (if newLiked then 1 else -1))
  }

  /** The revert written in the failure branch, for the state `newLiked` was pressed into. */
  function Revert(s: Shown, newLiked: bool): (r: Shown)
    ensures r.isLiked == !newLiked
    ensures newLiked ==> r.likeCount == s.likeCount - 1
    ensures !newLiked ==> r.likeCount == s.likeCount + 1
  {
    Shown(!newLiked, s.likeCount + (if newLiked then -1 else 1))
  }

  /** A failed request puts back exactly what the button showed before the press. */
  lemma RevertUndoesOptimistic(s: Shown)
    ensures Revert(Optimistic(s), !s.isLiked) == s
  {
  }

  /** Two successful presses in a row bring back the original flag and count. */
  lemma TwoPressesRestore(s: Shown)
    ensures Optimistic(Optimistic(s)) == s
  {
  }

  class LikeButtonState {
    var isLiked: bool
    var likeCount: int
    var loading: bool
    /** `newLikedState` of the press whose request is in flight. */
    var pending: bool

    /** While a request is in flight, the flag shown is the one that press set. */
    ghost predicate Valid()
      reads this
    {
      loading ==> isLiked == pending
    }

    function ShownNow(): Shown
      reads this
    {
      Shown(isLiked, likeCount)
    }

    constructor (isLiked: bool, likeCount: int)
      ensures Valid() && !loading
      ensures ShownNow() == Shown(isLiked, likeCount)
    {
      this.isLiked := isLiked;
      this.likeCount := likeCount;
      loading := false;
      pending := false;
    }

    /**
     * The part of `handleLike` before the request: a press with no user or with
     * a request already in flight changes nothing and sends nothing.
     */
    method Press(hasUser: bool) returns (requested: bool)
      requires Valid()
      modifies this
      ensures Valid()
      ensures requested <==> hasUser && !old(loading)
      ensures !requested ==> unchanged(this)
      ensures requested ==> loading && ShownNow() == Optimistic(old(ShownNow()))
    {
      if !hasUser || loading {
        return false;
      }
      loading := true;
      var newLikedState := !isLiked;
      isLiked := newLikedState;
      likeCount := likeCount + (if newLikedState then 1 else -1);
      pending := newLikedState;
      return true;
    }

    /**
     * The part of `handleLike` after the request. An answer with `success`
     * false undoes the press; an answer with `success` true keeps it and tells
     * the parent `liked`; either way nothing is in flight any more. A rejected
     * request ends the handler at the `await`, so nothing after it runs: the
     * optimistic values stay and loading stays on.
     */
    method Settle(reply: Reply) returns (notified: Option<bool>)
      requires Valid() && loading
      modifies this
      ensures Valid()
      ensures reply.Rejected? ==> unchanged(this) && notified == None
      ensures reply.Answered? ==> !loading
      ensures reply.Answered? && !reply.success ==>
                ShownNow() == Revert(old(ShownNow()), old(pending)) && notified == None
      ensures reply.Answered? && reply.success ==>
                ShownNow() == old(ShownNow()) && notified == Some(reply.liked)
    {
      match reply {
        case Rejected =>
          return None;
        case Answered(success, liked) =>
          if !success {
            isLiked := !pending;
            likeCount := likeCount + (if pending then -1 else 1);
            notified := None;
          } else {
            notified := Some(liked);
          }
          loading := false;
      }
    }

    /**
     * A whole press, request and settlement: a failed answer shows what the
     * button showed before, a successful one the optimistic values, and a
     * rejected request leaves the optimistic values showing with loading on.
     */
    method HandleLike(hasUser: bool, reply: Reply) returns (requested: bool, notified: Option<bool>)
      requires Valid()
      modifies this
      ensures Valid()
      ensures requested <==> hasUser && !old(loading)
      ensures !requested ==> unchanged(this) && notified == None
      ensures requested && reply.Answered? ==> !loading
      ensures requested && reply.Answered? && !reply.success ==> ShownNow() == old(ShownNow()) && notified == None
      ensures requested && reply.Answered? && reply.success ==>
                ShownNow() == Optimistic(old(ShownNow())) && notified == Some(reply.liked)
      ensures requested && reply.Rejected? ==>
                loading && ShownNow() == Optimistic(old(ShownNow())) && notified == None
    {
      requested := Press(hasUser);
      if !requested {
        return requested, None;
      }
      notified := Settle(reply);
      RevertUndoesOptimistic(old(ShownNow()));
    }
  }

  /**
   * After a rejected request the button is stuck: it keeps showing the
   * optimistic values, and a later press sends nothing and changes nothing.
   */
  method PressAfterRejection(button: LikeButtonState, hasUser: bool) returns (requested: bool)
    requires button.Valid() && !button.loading
    modifies button
    ensures !requested
    ensures button.loading && button.ShownNow() == Optimistic(old(button.ShownNow()))
  {
    var first, n := button.HandleLike(true, Rejected);
    requested := button.Press(hasUser);
  }

  /**
   * Were the call to reach the service, a toggle the backend carries out would
   * still be shown reverted: the button goes back to what it showed before the
   * press, is no longer loading, and the parent is not told.
   */
  method SuccessfulToggleIsShownReverted(button: LikeButtonState, liked: bool) returns (notified: Option<bool>)
    requires button.Valid() && !button.loading
    modifies button
    ensures button.Valid() && !button.loading
    ensures button.ShownNow() == old(button.ShownNow()) && notified == None
  {
    var requested;
    requested, notified := button.HandleLike(true, ReplyOfToggle(Types.Resolved(Some(liked))));
  }

  /** Two successful presses (each awaited) leave the button as it was. */
  method PressTwice(button: LikeButtonState, liked1: bool, liked2: bool)
    requires button.Valid() && !button.loading
    modifies button
    ensures button.Valid() && !button.loading
    ensures button.ShownNow() == old(button.ShownNow())
  {
    var r1, n1 := button.HandleLike(true, Answered(true, liked1));
    var r2, n2 := button.HandleLike(true, Answered(true, liked2));
    TwoPressesRestore(old(button.ShownNow()));
  }
}
