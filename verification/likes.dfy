/** The like counters and the viewer's like: reading them, copying them
    from a snapshot, and the optimistic update after a like request. */
module Likes {
  import opened Wrappers
  import opened Media
  import opened ControllerState

  datatype LikeAction = DoLike | DoDislike | Reset

  /** The messages thrown when no like address was configured: by
      `registerLike`, and by the getters. */
  const LikesDisabled: string := "Likes are disabled because no registerLikeUri was provided."
  const GettersDisabled: string := "Likes disabled because registerLikeUri not provided."
  const ReferenceError: string := "ReferenceError: numDisikes is not defined"

  /** The request types the controller accepts. */
  function ParseAction(t: string): (r: Option<LikeAction>)
    ensures r == Some(DoLike) <==> t == "like"
    ensures r == Some(DoDislike) <==> t == "dislike"
    ensures r == Some(Reset) <==> t == "reset"
  {
    if t == "like" then Some(DoLike)
    else if t == "dislike" then Some(DoDislike)
    else if t == "reset" then Some(Reset)
    else None
  }

  /** The like state an action leads to. */
  function Target(a: LikeAction): Option<LikeType>
  {
    match a
    case DoLike => Some(Like)
    case DoDislike => Some(Dislike)
    case Reset => None
  }

  /** What a call to `registerLike` does before any answer: nothing is sent
      when the requested state is already the current one (the callback is
      told `true`), otherwise the request goes out remembering the like
      state at that moment. */
  datatype Request = NoChange | Sent(previous: Option<LikeType>, action: LikeAction)

  function RegisterLike(cfg: Config, st: State, t: string): (r: Result<Request>)
    ensures !cfg.likesEnabled ==> r.Err?
    ensures cfg.likesEnabled ==> (r.Err? <==> ParseAction(t).None?)
    ensures r == Ok(NoChange) <==> cfg.likesEnabled && ParseAction(t).Some? && Target(ParseAction(t).value) == st.likeType
    ensures r.Ok? && r.value.Sent? ==>
              r.value.previous == st.likeType && Some(r.value.action) == ParseAction(t)
              && Target(r.value.action) != st.likeType
  {
    if !cfg.likesEnabled then Err(LikesDisabled)
    else
      match ParseAction(t)
      case None => Err("Type must be 'like', 'dislike' or 'reset'.")
      case Some(a) => if Target(a) == st.likeType then Ok(NoChange) else Ok(Sent(st.likeType, a))
  }

  /** A counter that is shown (non-null) moves by `delta`. */
  function Bump(n: Option<int>, delta: int): (r: Option<int>)
    ensures r.None? <==> n.None?
    ensures n.Some? ==> r.value == n.value + delta
  {
    match n
    case None => None
    case Some(v) => Some(v + delta)
  }

  function Indicator(b: bool): int { if b then 1 else 0 }

  /** What the answer to a request leaves behind, and what the caller's
      callback is told (`None`: it is not called). */
  datatype Outcome = Outcome(state: State, effects: seq<Effect>, callback: Option<bool>)

  /** The confirmed change applied locally: counters move by the delta
      table, the like state becomes the target, and the events fire, with
      `dislikeEvent` as the dislike counter's event name. */
  function ApplyConfirmed(st: State, prev: Option<LikeType>, a: LikeAction, dislikeEvent: string): Outcome
  {
    var likesChanged := (prev == Some(Like)) != (a == DoLike);
    var dislikesChanged := (prev == Some(Dislike)) != (a == DoDislike);
    var st' := st.(
      numLikes := Bump(st.numLikes, Indicator(a == DoLike) - Indicator(prev == Some(Like))),
      numDislikes := Bump(st.numDislikes, Indicator(a == DoDislike) - Indicator(prev == Some(Dislike))),
      likeType := Target(a));
    Outcome(st',
            [Emit("likeTypeChanged")]
            + (if likesChanged then [Emit("numLikesChanged")] else [])
            + (if dislikesChanged then [Emit(dislikeEvent)] else []),
            Some(true))
  }

  /** The answer to a sent request. Failure or a refusal leaves everything
      alone and tells the callback `false`; a confirmed change is applied
      only if the like state is still the one the request started from. */
  function OnLikeResponse(st: State, prev: Option<LikeType>, a: LikeAction, status: int, success: bool): (r: Outcome)
    ensures status != 200 ==> r == Outcome(st, [], Some(false))
    ensures status == 200 && !success ==> r == Outcome(st, [], Some(false))
    ensures status == 200 && success && st.likeType != prev ==> r == Outcome(st, [], Some(true))
    ensures status == 200 && success && st.likeType == prev ==> r.state.likeType == Target(a) && r.callback == Some(true)
  {
    if status != 200 || !success then Outcome(st, [], Some(false))
    else if st.likeType != prev then Outcome(st, [], Some(true))
    else ApplyConfirmed(st, prev, a, "numDislikesChanged")
  }

  /** The answer handler as written: resetting a dislike while the dislike
      counter is shown reads the undeclared `numDisikes` and throws, before
      any state changes and before the callback; the dislike counter's
      event is fired as `numDisikesChanged`. */
  function OnLikeResponseAsWritten(st: State, prev: Option<LikeType>, a: LikeAction, status: int, success: bool): Result<Outcome>
  {
    if status != 200 || !success then Ok(Outcome(st, [], Some(false)))
    else if st.likeType != prev then Ok(Outcome(st, [], Some(true)))
    else if prev == Some(Dislike) && a == Reset && st.numDislikes.Some? then Err(ReferenceError)
    else Ok(ApplyConfirmed(st, prev, a, "numDisikesChanged"))
  }

  /** The case table of a confirmed change, one (previous like state,
      action) pair at a time: a shown counter moves up when the new state
      is its kind and down when the old one was, a hidden counter stays
      hidden, `likeTypeChanged` always fires and each counter event fires
      when that counter was involved. Nothing outside the like fields
      changes, and the callback is told `true`. This part starts from no
      like. */
  lemma LikeDeltaTable(st: State, a: LikeAction)
    requires st.likeType == None
    ensures a == DoLike ==>
      OnLikeResponse(st, st.likeType, a, 200, true) == Outcome(st.(numLikes := Bump(st.numLikes, 1), likeType := Some(Like)),
                 [Emit("likeTypeChanged"), Emit("numLikesChanged")], Some(true))
    ensures a == DoDislike ==>
      OnLikeResponse(st, st.likeType, a, 200, true) == Outcome(st.(numDislikes := Bump(st.numDislikes, 1), likeType := Some(Dislike)),
                 [Emit("likeTypeChanged"), Emit("numDislikesChanged")], Some(true))
    ensures a == Reset ==>
      OnLikeResponse(st, st.likeType, a, 200, true) == Outcome(st, [Emit("likeTypeChanged")], Some(true))
  {
    match a
    case DoLike =>
    case DoDislike =>
    case Reset =>
  }

  /** The case table from a like. */
  lemma LikeDeltaTableFromLike(st: State, a: LikeAction)
    requires st.likeType == Some(Like)
    ensures a == DoDislike ==>
      OnLikeResponse(st, st.likeType, a, 200, true) == Outcome(st.(numLikes := Bump(st.numLikes, -1), numDislikes := Bump(st.numDislikes, 1),
                     likeType := Some(Dislike)),
                 [Emit("likeTypeChanged"), Emit("numLikesChanged"), Emit("numDislikesChanged")], Some(true))
    ensures a == Reset ==>
      OnLikeResponse(st, st.likeType, a, 200, true) == Outcome(st.(numLikes := Bump(st.numLikes, -1), likeType := None),
                 [Emit("likeTypeChanged"), Emit("numLikesChanged")], Some(true))
    ensures a == DoLike ==>
      OnLikeResponse(st, st.likeType, a, 200, true) == Outcome(st, [Emit("likeTypeChanged")], Some(true))
  {
    match a
    case DoLike =>
    case DoDislike =>
    case Reset =>
  }

  /** The case table from a dislike; the reset case is the one the handler
      as written does not reach (see `ResetAfterDislikeThrows`). */
  lemma LikeDeltaTableFromDislike(st: State, a: LikeAction)
    requires st.likeType == Some(Dislike)
    ensures a == DoLike ==>
      OnLikeResponse(st, st.likeType, a, 200, true) == Outcome(st.(numLikes := Bump(st.numLikes, 1), numDislikes := Bump(st.numDislikes, -1),
                     likeType := Some(Like)),
                 [Emit("likeTypeChanged"), Emit("numLikesChanged"), Emit("numDislikesChanged")], Some(true))
    ensures a == Reset ==>
      OnLikeResponse(st, st.likeType, a, 200, true) == Outcome(st.(numDislikes := Bump(st.numDislikes, -1), likeType := None),
                 [Emit("likeTypeChanged"), Emit("numDislikesChanged")], Some(true))
    ensures a == DoDislike ==>
      OnLikeResponse(st, st.likeType, a, 200, true) == Outcome(st, [Emit("likeTypeChanged")], Some(true))
  {
    match a
    case DoLike =>
    case DoDislike =>
    case Reset =>
  }

  /** Sent requests never target the current state, so the shown total of
      likes and dislikes moves by at most one. */
  lemma ConfirmedTotalMovesByOne(cfg: Config, st: State, t: string)
    requires st.numLikes.Some? && st.numDislikes.Some?
    requires RegisterLike(cfg, st, t).Ok? && RegisterLike(cfg, st, t).value.Sent?
    ensures
      var req := RegisterLike(cfg, st, t).value;
      var r := OnLikeResponse(st, req.previous, req.action, 200, true);
      var before := st.numLikes.value + st.numDislikes.value;
      var after := r.state.numLikes.value + r.state.numDislikes.value;
      after - before == Indicator(Target(req.action).Some?) - Indicator(st.likeType.Some?)
  {
    var req := RegisterLike(cfg, st, t).value;
    var r := OnLikeResponse(st, req.previous, req.action, 200, true);
    assert r == ApplyConfirmed(st, st.likeType, req.action, "numDislikesChanged");
    var dl := Indicator(req.action == DoLike) - Indicator(st.likeType == Some(Like));
    var dd := Indicator(req.action == DoDislike) - Indicator(st.likeType == Some(Dislike));
    assert r.state.numLikes.value == st.numLikes.value + dl;
    assert r.state.numDislikes.value == st.numDislikes.value + dd;
    assert Target(req.action) != st.likeType;
    match st.likeType {
      case None =>
      case Some(Like) =>
        assert dl + dd == Indicator(Target(req.action).Some?) - 1;
      case Some(Dislike) =>
        assert dl + dd == Indicator(Target(req.action).Some?) - 1;
    }
  }

  /** Asking for the same like twice: the second call sends nothing and
      reports success. */
  lemma RegisterLikeIdempotent(cfg: Config, st: State, t: string)
    requires RegisterLike(cfg, st, t).Ok? && RegisterLike(cfg, st, t).value.Sent?
    ensures
      var req := RegisterLike(cfg, st, t).value;
      var r := OnLikeResponse(st, req.previous, req.action, 200, true);
      RegisterLike(cfg, r.state, t) == Ok(NoChange)
  {
  }

  /** The source's handler throws when a shown dislike is reset: the state
      the request started from is the current one, the server confirmed,
      and still nothing is applied and the callback never runs. */
  lemma ResetAfterDislikeThrows(st: State, n: int)
    requires st.likeType == Some(Dislike) && st.numDislikes == Some(n)
    ensures OnLikeResponseAsWritten(st, Some(Dislike), Reset, 200, true).Err?
    ensures OnLikeResponse(st, Some(Dislike), Reset, 200, true).state.numDislikes == Some(n - 1)
    ensures OnLikeResponse(st, Some(Dislike), Reset, 200, true).state.likeType.None?
  {
  }

  /** Apart from that throw and the event name, the handler as written and
      the corrected one agree. */
  lemma AsWrittenAgreesOtherwise(st: State, prev: Option<LikeType>, a: LikeAction, status: int, success: bool)
    requires !(prev == Some(Dislike) && a == Reset && st.numDislikes.Some?)
    ensures OnLikeResponseAsWritten(st, prev, a, status, success).Ok?
    ensures OnLikeResponseAsWritten(st, prev, a, status, success).value.state
            == OnLikeResponse(st, prev, a, status, success).state
    ensures OnLikeResponseAsWritten(st, prev, a, status, success).value.callback
            == OnLikeResponse(st, prev, a, status, success).callback
  {
  }

  /** `getNumLikes`. */
  function GetNumLikes(cfg: Config, st: State): (r: Result<Option<int>>)
    ensures r.Ok? <==> cfg.likesEnabled
    ensures r.Ok? ==> r.value == st.numLikes
  {
    if !cfg.likesEnabled then Err(GettersDisabled) else Ok(st.numLikes)
  }

  /** `getNumDislikes` as written returns the undeclared `numDisikes`, so
      it throws even when likes are enabled. */
  function GetNumDislikesAsWritten(cfg: Config, st: State): (r: Result<Option<int>>)
  {
    if !cfg.likesEnabled then Err(GettersDisabled) else Err(ReferenceError)
  }

  /** `getNumDislikes` returning the counter it evidently means. */
  function GetNumDislikes(cfg: Config, st: State): (r: Result<Option<int>>)
    ensures r.Ok? <==> cfg.likesEnabled
    ensures r.Ok? ==> r.value == st.numDislikes
  {
    if !cfg.likesEnabled then Err(GettersDisabled) else Ok(st.numDislikes)
  }

  lemma GetNumDislikesAlwaysThrows(cfg: Config, st: State)
    ensures GetNumDislikesAsWritten(cfg, st).Err?
    ensures cfg.likesEnabled ==> GetNumDislikes(cfg, st) == Ok(st.numDislikes)
  {
  }

  /** `getLikeType`. */
  function GetLikeType(cfg: Config, st: State): (r: Result<Option<LikeType>>)
    ensures r.Ok? <==> cfg.likesEnabled
    ensures r.Ok? ==> r.value == st.likeType
  {
    if !cfg.likesEnabled then Err(GettersDisabled) else Ok(st.likeType)
  }

  /** `updateLikes` with the dislike counter's event named `dislikeEvent`:
      each value is copied from the snapshot and its event fires when it
      differed. Nothing happens when likes are disabled. */
  function CopyLikes(cfg: Config, st: State, s: Snapshot, dislikeEvent: string): (r: Pass)
  {
    if !cfg.likesEnabled then Pass(st, [])
    else
      Pass(st.(numLikes := s.numLikes, numDislikes := s.numDislikes, likeType := s.likeType),
           (if st.numLikes != s.numLikes then [Emit("numLikesChanged")] else [])
           + (if st.numDislikes != s.numDislikes then [Emit(dislikeEvent)] else [])
           + (if st.likeType != s.likeType then [Emit("likeTypeChanged")] else []))
  }

  function UpdateLikes(cfg: Config, st: State, s: Snapshot): (r: Pass)
    ensures !cfg.likesEnabled ==> r == Pass(st, [])
    ensures cfg.likesEnabled ==>
      r.state.numLikes == s.numLikes && r.state.numDislikes == s.numDislikes && r.state.likeType == s.likeType
    ensures cfg.likesEnabled ==> (Emit("numDislikesChanged") in r.effects <==> st.numDislikes != s.numDislikes)
    ensures cfg.likesEnabled ==> (Emit("numLikesChanged") in r.effects <==> st.numLikes != s.numLikes)
    ensures cfg.likesEnabled ==> (Emit("likeTypeChanged") in r.effects <==> st.likeType != s.likeType)
  {
    CopyLikes(cfg, st, s, "numDislikesChanged")
  }

  function UpdateLikesAsWritten(cfg: Config, st: State, s: Snapshot): (r: Pass)
  {
    CopyLikes(cfg, st, s, "numDisikesChanged")
  }

  /** As written, a changed dislike counter is announced under a name no
      `numDislikesChanged` listener hears. */
  lemma DislikeEventMisnamed(cfg: Config, st: State, s: Snapshot)
    requires cfg.likesEnabled && st.numDislikes != s.numDislikes
    ensures Emit("numDislikesChanged") !in UpdateLikesAsWritten(cfg, st, s).effects
    ensures Emit("numDisikesChanged") in UpdateLikesAsWritten(cfg, st, s).effects
    ensures Emit("numDislikesChanged") in UpdateLikes(cfg, st, s).effects
  {
  }

  /** Once the snapshot's values are copied, the getters return them. */
  lemma GettersReadCopiedValues(cfg: Config, st: State, s: Snapshot)
    requires cfg.likesEnabled
    ensures var st' := UpdateLikes(cfg, st, s).state;
      GetNumLikes(cfg, st') == Ok(s.numLikes) && GetNumDislikes(cfg, st') == Ok(s.numDislikes)
      && GetLikeType(cfg, st') == Ok(s.likeType)
  {
  }
}
