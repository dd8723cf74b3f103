/** The resolved autoplay flags: what the user asked for, suspended by a
    pause when smart autoplay is on, and restored by the next play. */
module Autoplay {
  import opened Wrappers
  import opened Media
  import opened DeviceFilter
  import opened ControllerState
  import opened Reconcile
  import opened ReconcileProps

  /** The adapter's `play` event: both resolved flags go back to the
      requested ones; the event is passed on. */
  function OnPlay(st: State): (r: Pass)
    ensures r.state.resolvedAutoPlayVod == st.autoPlayVod
    ensures r.state.resolvedAutoPlayStream == st.autoPlayStream
    ensures r.state.(resolvedAutoPlayVod := st.resolvedAutoPlayVod,
                     resolvedAutoPlayStream := st.resolvedAutoPlayStream) == st
    ensures Events(r.effects) == ["play"]
  {
    Pass(st.(resolvedAutoPlayVod := st.autoPlayVod, resolvedAutoPlayStream := st.autoPlayStream),
         [Emit("play")])
  }

  /** The adapter's `pause` event: with smart autoplay both resolved flags
      are cleared; without it nothing changes. The event is passed on. */
  function OnPause(cfg: Config, st: State): (r: Pass)
    ensures cfg.enableSmartAutoPlay ==> !r.state.resolvedAutoPlayVod && !r.state.resolvedAutoPlayStream
    ensures !cfg.enableSmartAutoPlay ==> r.state == st
    ensures r.state.(resolvedAutoPlayVod := st.resolvedAutoPlayVod,
                     resolvedAutoPlayStream := st.resolvedAutoPlayStream) == st
    ensures Events(r.effects) == ["pause"]
  {
    var st' := if cfg.enableSmartAutoPlay then st.(resolvedAutoPlayVod := false, resolvedAutoPlayStream := false)
               else st;
    Pass(st', [Emit("pause")])
  }

  /** Whether the adapter exists and is playing right now. */
  predicate PlayingNow(st: State, view: AdapterView)
  {
    st.hasComponent && !view.paused
  }

  /** `setAutoPlayVod(enabled)`: disabling clears the resolved flag at once;
      enabling sets it unless an adapter exists and is paused, in which case
      it waits for the next play. */
  function SetAutoPlayVod(st: State, view: AdapterView, enabled: bool): (r: State)
    ensures r.autoPlayVod == enabled
    ensures !enabled ==> !r.resolvedAutoPlayVod
    ensures enabled && (!st.hasComponent || !view.paused) ==> r.resolvedAutoPlayVod
    ensures enabled && st.hasComponent && view.paused ==> r.resolvedAutoPlayVod == st.resolvedAutoPlayVod
    ensures r.(autoPlayVod := st.autoPlayVod, resolvedAutoPlayVod := st.resolvedAutoPlayVod) == st
  {
    if !enabled then st.(autoPlayVod := enabled, resolvedAutoPlayVod := false)
    else if !st.hasComponent || !view.paused then st.(autoPlayVod := enabled, resolvedAutoPlayVod := true)
    else st.(autoPlayVod := enabled)
  }

  /** `setAutoPlayStream(enabled)`, the same rule for the stream flag. */
  function SetAutoPlayStream(st: State, view: AdapterView, enabled: bool): (r: State)
    ensures r.autoPlayStream == enabled
    ensures !enabled ==> !r.resolvedAutoPlayStream
    ensures enabled && (!st.hasComponent || !view.paused) ==> r.resolvedAutoPlayStream
    ensures enabled && st.hasComponent && view.paused ==> r.resolvedAutoPlayStream == st.resolvedAutoPlayStream
    ensures r.(autoPlayStream := st.autoPlayStream, resolvedAutoPlayStream := st.resolvedAutoPlayStream) == st
  {
    if !enabled then st.(autoPlayStream := enabled, resolvedAutoPlayStream := false)
    else if !st.hasComponent || !view.paused then st.(autoPlayStream := enabled, resolvedAutoPlayStream := true)
    else st.(autoPlayStream := enabled)
  }

  /** A play after a pause restores exactly the requested flags, whatever
      the pause did. */
  lemma PlayUndoesPause(cfg: Config, st: State)
    ensures OnPlay(OnPause(cfg, st).state).state == OnPlay(st).state
  {
  }

  /** Whatever was requested last is in force after the next play. */
  lemma RequestWinsAtNextPlay(st: State, view: AdapterView, vod: bool, stream: bool)
    ensures var r := OnPlay(SetAutoPlayStream(SetAutoPlayVod(st, view, vod), view, stream)).state;
            r.resolvedAutoPlayVod == vod && r.resolvedAutoPlayStream == stream
  {
  }

  /** With smart autoplay, after the user pauses, a later switch to the
      live stream does not start playing. */
  lemma PauseSuppressesLiveAutoplay(cfg: Config, st: State, view: AdapterView, d: Device)
    requires cfg.enableSmartAutoPlay && st.cachedData.Some?
    ensures
      var paused := OnPause(cfg, st).state;
      UpdatePlayer(cfg, paused, view, d).Ok?
      && var pass := UpdatePlayer(cfg, paused, view, d).value;
      pass.state.playerType == Some(Live) && paused.playerType != Some(Live) ==>
        forall c :: c in Select(pass.effects, IsStartPush) ==> !c.play
  {
    var paused := OnPause(cfg, st).state;
    assert paused.cachedData == st.cachedData;
    LiveStartRules(cfg, paused, view, d);
  }

  /** With smart autoplay, after the user pauses, a later switch to the
      video does not start playing either. */
  lemma PauseSuppressesVodAutoplay(cfg: Config, st: State, view: AdapterView, d: Device)
    requires cfg.enableSmartAutoPlay && st.cachedData.Some?
    ensures
      var paused := OnPause(cfg, st).state;
      UpdatePlayer(cfg, paused, view, d).Ok?
      && var pass := UpdatePlayer(cfg, paused, view, d).value;
      pass.state.playerType == Some(Vod) && paused.playerType != Some(Vod) ==>
        forall c :: c in Select(pass.effects, IsStartPush) ==> !c.play
  {
    var paused := OnPause(cfg, st).state;
    assert paused.cachedData == st.cachedData;
    VodStartRules(cfg, paused, view, d);
  }
}
