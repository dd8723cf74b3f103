/** `onLoaded(callback)`: a callback registered before the first player
    pass waits for the `loaded` event; one registered afterwards runs at
    once. Callbacks are named by numbers. */
module Loading {
  import opened Wrappers
  import opened Media
  import opened ControllerState
  import opened Reconcile
  import opened ReconcileProps

  /** Whether the first pass has happened, and the callbacks still waiting
      for it, in registration order. */
  datatype Latch = Latch(loaded: bool, waiting: seq<nat>)

  /** What happens to the latch: a callback is registered, or a player
      pass runs. */
  datatype Step = OnLoaded(callback: nat) | PlayerPass

  /** The latch and the callbacks run so far, in the order they ran. */
  datatype Trace = Trace(latch: Latch, ran: seq<nat>)

  /** One step. A pass fires `loaded` only while the latch is still open,
      which runs every waiting callback in order and closes the latch. */
  function Apply(t: Trace, step: Step): (r: Trace)
    ensures r.latch.loaded == (t.latch.loaded || step.PlayerPass?)
    ensures |r.ran| >= |t.ran| && r.ran[..|t.ran|] == t.ran
  {
    match step
    case OnLoaded(c) =>
      if t.latch.loaded then Trace(t.latch, t.ran + [c])
      else Trace(Latch(false, t.latch.waiting + [c]), t.ran)
    case PlayerPass =>
      if t.latch.loaded then t
      else Trace(Latch(true, []), t.ran + t.latch.waiting)
  }

  function Run(steps: seq<Step>): (r: Trace)
  {
    if |steps| == 0 then Trace(Latch(false, []), [])
    else Apply(Run(steps[..|steps| - 1]), steps[|steps| - 1])
  }

  /** The callbacks registered by a list of steps, in order. */
  function Registered(steps: seq<Step>): (cs: seq<nat>)
    ensures |cs| <= |steps|
  {
    if |steps| == 0 then []
    else
      var rest := Registered(steps[..|steps| - 1]);
      match steps[|steps| - 1]
      case OnLoaded(c) => rest + [c]
      case PlayerPass => rest
  }

  predicate HasPass(steps: seq<Step>)
  {
    exists k :: 0 <= k < |steps| && steps[k].PlayerPass?
  }

  /** Every registered callback runs exactly once and in registration
      order once a pass has happened; before that none has run and all
      are waiting. */
  lemma {:induction false} EachCallbackRunsOnce(steps: seq<Step>)
    ensures Run(steps).latch.loaded == HasPass(steps)
    ensures HasPass(steps) ==> Run(steps).ran == Registered(steps) && Run(steps).latch.waiting == []
    ensures !HasPass(steps) ==> Run(steps).ran == [] && Run(steps).latch.waiting == Registered(steps)
  {
    if |steps| > 0 {
      var init := steps[..|steps| - 1];
      var last := steps[|steps| - 1];
      EachCallbackRunsOnce(init);
      assert HasPass(steps) <==> HasPass(init) || last.PlayerPass? by {
        if HasPass(init) {
          var k :| 0 <= k < |init| && init[k].PlayerPass?;
          assert steps[k] == init[k];
        }
        if HasPass(steps) && !last.PlayerPass? {
          var k :| 0 <= k < |steps| && steps[k].PlayerPass?;
          assert k < |init| && init[k] == steps[k];
        }
      }
      match last
      case OnLoaded(c) =>
      case PlayerPass =>
        if !HasPass(init) {
          assert Run(init).ran + Run(init).latch.waiting == Registered(init);
        }
    }
  }

  /** The controller's own flag agrees with the latch: while `loaded` is
      set exactly when an adapter exists, a pass fires `loaded` exactly
      when the latch was still open, and leaves the flag set. */
  lemma LoadedEventIffOpen(cfg: Config, st: State, view: AdapterView, d: Device)
    requires st.cachedData.Some? && st.loaded == st.hasComponent
    ensures UpdatePlayer(cfg, st, view, d).Ok?
    ensures var pass := UpdatePlayer(cfg, st, view, d).value;
      ("loaded" in Events(pass.effects) <==> !st.loaded)
      && pass.state.loaded && pass.state.hasComponent
  {
    LoadedLatch(cfg, st, view, d);
  }
}
