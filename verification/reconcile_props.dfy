/** Properties of a whole reconciliation pass: it never fails, it reloads
    the adapter exactly when the type or the addresses change, a repeated
    pass is quiet, the start position follows the source's rules, and the
    first pass latches `loaded`. */
module ReconcileProps {
  import opened Wrappers
  import opened Media
  import opened DeviceFilter
  import opened Qualities
  import opened ControllerState
  import opened Reconcile

  predicate IsUriPush(c: Command) { c.SetPlayerUris? }

  predicate IsStartPush(c: Command) { c.SetPlayerStartTime? }

  /** A pass over a cached snapshot never raises: the chosen quality always
      has a group. */
  lemma UpdatePlayerNeverThrows(cfg: Config, st: State, view: AdapterView, d: Device)
    ensures UpdatePlayer(cfg, st, view, d).Ok?
  {
    if st.cachedData.Some? {
      var plan := MakePlan(cfg, st, st.cachedData.value, d);
      ChosenUrisExist(plan.res.groups, plan.handler);
    }
  }

  ghost predicate NeitherPush(p: Command -> bool)
  {
    forall c :: p(c) ==> c.SetPlayerUris? || c.SetPlayerStartTime?
  }

  lemma MetaSendsNoPush(cfg: Config, s: Snapshot, queued: PlayerType, ext: Option<string>, p: Command -> bool)
    requires NeitherPush(p)
    ensures Select(MetaEffects(cfg, s, queued, ext), p) == []
  {
    var es := MetaEffects(cfg, s, queued, ext);
    forall k | 0 <= k < |es|
      ensures !(es[k].Cmd? && p(es[k].cmd))
    {
      assert !es[k].cmd.SetPlayerUris? && !es[k].cmd.SetPlayerStartTime?;
    }
    SelectNone(es, p);
  }

  lemma TailSendsNoPush(st: State, s: Snapshot, queued: PlayerType, p: Command -> bool)
    requires NeitherPush(p)
    ensures Select(TailEffects(st, s, queued), p) == []
  {
    var es := TailEffects(st, s, queued);
    forall k | 0 <= k < |es|
      ensures !(es[k].Cmd? && p(es[k].cmd))
    {
      assert es[k].Cmd? ==> es[k].cmd == Render;
    }
    SelectNone(es, p);
  }

  /** Only the reload part of a pass sends addresses or start positions. */
  lemma PassSelect(cfg: Config, st: State, s: Snapshot, view: AdapterView, queued: PlayerType,
                   chosen: seq<MediaUri>, ext: Option<string>, p: Command -> bool)
    requires NeitherPush(p)
    ensures Select(PassEffects(cfg, st, s, view, queued, chosen, ext), p)
            == Select(ReloadEffects(Reloads(st, queued, chosen), queued, UrisChanged(st, queued, chosen),
                                    !st.hasComponent, s, st, view, chosen), p)
  {
    var e1 := CreateEffects(!st.hasComponent, s);
    var e2 := ReloadEffects(Reloads(st, queued, chosen), queued, UrisChanged(st, queued, chosen),
                            !st.hasComponent, s, st, view, chosen);
    var e3 := MetaEffects(cfg, s, queued, ext);
    var e4 := TailEffects(st, s, queued);
    SelectNone(e1, p);
    MetaSendsNoPush(cfg, s, queued, ext, p);
    TailSendsNoPush(st, s, queued, p);
    SelectAppend(e1, e2, p);
    SelectAppend(e1 + e2, e3, p);
    SelectAppend(e1 + e2 + e3, e4, p);
  }

  lemma ReloadPushesUris(reload: bool, queued: PlayerType, urisChanged: bool, firstLoad: bool, s: Snapshot,
                         st: State, view: AdapterView, chosen: seq<MediaUri>)
    ensures Select(ReloadEffects(reload, queued, urisChanged, firstLoad, s, st, view, chosen), IsUriPush)
            == if reload then [SetPlayerUris(chosen)] else []
  {
    if reload {
      var a := TypeCommands(queued);
      var b := StartCommand(queued, urisChanged, firstLoad, s, st, view);
      var c := [Cmd(SetPlayerUris(chosen))];
      SelectNone(a, IsUriPush);
      SelectNone(b, IsUriPush);
      SelectAppend(a, b, IsUriPush);
      SelectAppend(a + b, c, IsUriPush);
      assert Select(c, IsUriPush) == [SetPlayerUris(chosen)];
    }
  }

  /** The adapter receives addresses exactly when the player type or the
      chosen addresses change, and then exactly once, the chosen ones. */
  lemma UrisPushedIffChanged(cfg: Config, st: State, view: AdapterView, d: Device)
    requires st.cachedData.Some?
    ensures UpdatePlayer(cfg, st, view, d).Ok?
    ensures
      var st' := UpdatePlayer(cfg, st, view, d).value.state;
      var pushes := Select(UpdatePlayer(cfg, st, view, d).value.effects, IsUriPush);
      pushes == if st'.playerType != st.playerType || st'.currentUris != st.currentUris
                then [SetPlayerUris(st'.currentUris)] else []
  {
    UpdatePlayerNeverThrows(cfg, st, view, d);
    var s := st.cachedData.value;
    var plan := MakePlan(cfg, st, s, d);
    var queued := plan.res.playerType;
    var chosen := plan.chosen.value;
    var pass := UpdatePlayer(cfg, st, view, d).value;
    assert pass.effects == PassEffects(cfg, st, s, view, queued, chosen, plan.res.externalUrl);
    assert pass.state.playerType == Some(queued) && pass.state.currentUris == chosen;
    PassSelect(cfg, st, s, view, queued, chosen, plan.res.externalUrl, IsUriPush);
    ReloadPushesUris(Reloads(st, queued, chosen), queued, UrisChanged(st, queued, chosen),
                     !st.hasComponent, s, st, view, chosen);
  }

  /** A second pass over the same snapshot, with nothing changed in
      between, keeps the type and the addresses and reloads nothing. */
  lemma SecondPassIsQuiet(cfg: Config, st: State, view: AdapterView, view2: AdapterView, d: Device)
    requires st.cachedData.Some?
    ensures UpdatePlayer(cfg, st, view, d).Ok?
    ensures
      var st1 := UpdatePlayer(cfg, st, view, d).value.state;
      UpdatePlayer(cfg, st1, view2, d).Ok?
      && var p2 := UpdatePlayer(cfg, st1, view2, d).value;
      p2.state.playerType == st1.playerType && p2.state.currentUris == st1.currentUris
      && Select(p2.effects, IsUriPush) == []
  {
    UpdatePlayerNeverThrows(cfg, st, view, d);
    var st1 := UpdatePlayer(cfg, st, view, d).value.state;
    UpdatePlayerNeverThrows(cfg, st1, view2, d);
    var s := st.cachedData.value;
    var plan := MakePlan(cfg, st, s, d);
    var plan2 := MakePlan(cfg, st1, s, d);
    assert plan2.res == plan.res;
    var h1 := st1.qualities;
    assert Valid(h1) && h1.available == QualitiesOf(plan.res.groups);
    SetAvailableSameIsNoop(h1);
    assert plan2.handler == h1;
    UrisPushedIffChanged(cfg, st1, view2, d);
  }

  /** The start positions a pass sends are those of its reload part. */
  lemma StartPushesOfPass(cfg: Config, st: State, view: AdapterView, d: Device)
    requires st.cachedData.Some?
    ensures UpdatePlayer(cfg, st, view, d).Ok?
    ensures
      var s := st.cachedData.value;
      var pass := UpdatePlayer(cfg, st, view, d).value;
      var queued := pass.state.playerType.value;
      var chosen := pass.state.currentUris;
      Select(pass.effects, IsStartPush)
        == if Reloads(st, queued, chosen)
           then Select(StartCommand(queued, UrisChanged(st, queued, chosen), !st.hasComponent, s, st, view), IsStartPush)
           else []
  {
    UpdatePlayerNeverThrows(cfg, st, view, d);
    var s := st.cachedData.value;
    var plan := MakePlan(cfg, st, s, d);
    var queued := plan.res.playerType;
    var chosen := plan.chosen.value;
    var pass := UpdatePlayer(cfg, st, view, d).value;
    assert pass.effects == PassEffects(cfg, st, s, view, queued, chosen, plan.res.externalUrl);
    assert pass.state.playerType == Some(queued) && pass.state.currentUris == chosen;
    PassSelect(cfg, st, s, view, queued, chosen, plan.res.externalUrl, IsStartPush);
    ReloadPushesStart(Reloads(st, queued, chosen), queued, UrisChanged(st, queued, chosen),
                      !st.hasComponent, s, st, view, chosen);
  }

  lemma ReloadPushesStart(reload: bool, queued: PlayerType, urisChanged: bool, firstLoad: bool, s: Snapshot,
                          st: State, view: AdapterView, chosen: seq<MediaUri>)
    ensures Select(ReloadEffects(reload, queued, urisChanged, firstLoad, s, st, view, chosen), IsStartPush)
            == if reload then Select(StartCommand(queued, urisChanged, firstLoad, s, st, view), IsStartPush) else []
  {
    if reload {
      var a := TypeCommands(queued);
      var b := StartCommand(queued, urisChanged, firstLoad, s, st, view);
      var c := [Cmd(SetPlayerUris(chosen))];
      SelectNone(a, IsStartPush);
      SelectNone(c, IsStartPush);
      SelectAppend(a, b, IsStartPush);
      SelectAppend(a + b, c, IsStartPush);
    }
  }

  /** A start command list of at most one start command selects itself. */
  lemma SelectSingleStart(t: Option<int>, play: bool, snap: Option<bool>)
    ensures Select([Cmd(SetPlayerStartTime(t, play, snap))], IsStartPush) == [SetPlayerStartTime(t, play, snap)]
  {
    var es := [Cmd(SetPlayerStartTime(t, play, snap))];
    assert es[..0] == [];
  }

  /** A live pass always starts at 0: after an address change it keeps the
      play state; a finished show replays only with video autoplay (and is
      otherwise left alone); a live show follows stream autoplay. */
  lemma LiveStartRules(cfg: Config, st: State, view: AdapterView, d: Device)
    requires st.cachedData.Some?
    ensures UpdatePlayer(cfg, st, view, d).Ok?
    ensures
      var s := st.cachedData.value;
      var pass := UpdatePlayer(cfg, st, view, d).value;
      pass.state.playerType == Some(Live) ==>
        Select(pass.effects, IsStartPush)
          == if st.playerType == Some(Live) then
               (if st.currentUris != pass.state.currentUris
                then [SetPlayerStartTime(Some(0), !view.paused, None)] else [])
             else if s.StateIs(StateShowOver) then
               (if st.resolvedAutoPlayVod then [SetPlayerStartTime(Some(0), true, None)] else [])
             else [SetPlayerStartTime(Some(0), st.resolvedAutoPlayStream, None)]
  {
    StartPushesOfPass(cfg, st, view, d);
    SelectSingleStart(Some(0), !view.paused, None);
    SelectSingleStart(Some(0), true, None);
    SelectSingleStart(Some(0), st.resolvedAutoPlayStream, None);
  }

  /** A video pass: an address change resumes at the current position with
      the current play state; the first load with a requested start uses it
      without snapping; otherwise the remembered position (or 0) is used
      with snapping; autoplay follows the resolved video flag. */
  lemma VodStartRules(cfg: Config, st: State, view: AdapterView, d: Device)
    requires st.cachedData.Some?
    ensures UpdatePlayer(cfg, st, view, d).Ok?
    ensures
      var pass := UpdatePlayer(cfg, st, view, d).value;
      pass.state.playerType == Some(Vod) ==>
        Select(pass.effects, IsStartPush)
          == if st.playerType == Some(Vod) then
               (if st.currentUris != pass.state.currentUris
                then [SetPlayerStartTime(view.currentTime, !view.paused, None)] else [])
             else if !st.hasComponent && st.vodPlayStartTime.Some? then
               [SetPlayerStartTime(st.vodPlayStartTime, st.resolvedAutoPlayVod, Some(false))]
             else [SetPlayerStartTime(Some(st.vodRememberedStartTime.GetOr(0)), st.resolvedAutoPlayVod, Some(true))]
  {
    StartPushesOfPass(cfg, st, view, d);
    SelectSingleStart(view.currentTime, !view.paused, None);
    SelectSingleStart(st.vodPlayStartTime, st.resolvedAutoPlayVod, Some(false));
    SelectSingleStart(Some(st.vodRememberedStartTime.GetOr(0)), st.resolvedAutoPlayVod, Some(true));
  }

  /** The ad sends no start position. */
  lemma AdSendsNoStart(cfg: Config, st: State, view: AdapterView, d: Device)
    requires st.cachedData.Some?
    ensures UpdatePlayer(cfg, st, view, d).Ok?
    ensures
      var pass := UpdatePlayer(cfg, st, view, d).value;
      pass.state.playerType == Some(Ad) ==> Select(pass.effects, IsStartPush) == []
  {
    StartPushesOfPass(cfg, st, view, d);
  }

  /** The effects of a pass fire `loaded` exactly on the first pass. */
  lemma PassFiresLoaded(cfg: Config, st: State, s: Snapshot, view: AdapterView, queued: PlayerType,
                        chosen: seq<MediaUri>, ext: Option<string>)
    ensures Emit("loaded") in PassEffects(cfg, st, s, view, queued, chosen, ext) <==> !st.hasComponent
  {
    var e1 := CreateEffects(!st.hasComponent, s);
    var e2 := ReloadEffects(Reloads(st, queued, chosen), queued, UrisChanged(st, queued, chosen),
                            !st.hasComponent, s, st, view, chosen);
    var e3 := MetaEffects(cfg, s, queued, ext);
    var e4 := TailEffects(st, s, queued);
    ReloadFiresNoEvent(Reloads(st, queued, chosen), queued, UrisChanged(st, queued, chosen),
                       !st.hasComponent, s, st, view, chosen);
    MetaFiresNoEvent(cfg, s, queued, ext);
    assert Emit("loaded") !in e1;
    assert Emit("loaded") in e4 <==> !st.hasComponent;
  }

  /** The first pass creates the adapter, latches `loaded` and fires
      `loaded`; later passes do neither. */
  lemma LoadedLatch(cfg: Config, st: State, view: AdapterView, d: Device)
    requires st.cachedData.Some?
    ensures UpdatePlayer(cfg, st, view, d).Ok?
    ensures
      var pass := UpdatePlayer(cfg, st, view, d).value;
      pass.state.hasComponent
      && pass.state.loaded == (st.loaded || !st.hasComponent)
      && ("loaded" in Events(pass.effects) <==> !st.hasComponent)
  {
    UpdatePlayerNeverThrows(cfg, st, view, d);
    var s := st.cachedData.value;
    var plan := MakePlan(cfg, st, s, d);
    var pass := UpdatePlayer(cfg, st, view, d).value;
    assert pass.effects == PassEffects(cfg, st, s, view, plan.res.playerType, plan.chosen.value, plan.res.externalUrl);
    PassFiresLoaded(cfg, st, s, view, plan.res.playerType, plan.chosen.value, plan.res.externalUrl);
  }

  lemma ReloadFiresNoEvent(reload: bool, queued: PlayerType, urisChanged: bool, firstLoad: bool, s: Snapshot,
                           st: State, view: AdapterView, chosen: seq<MediaUri>)
    ensures forall e :: e in ReloadEffects(reload, queued, urisChanged, firstLoad, s, st, view, chosen) ==> e.Cmd?
  {
  }

  lemma MetaFiresNoEvent(cfg: Config, s: Snapshot, queued: PlayerType, ext: Option<string>)
    ensures forall e :: e in MetaEffects(cfg, s, queued, ext) ==> e.Cmd?
  {
  }
}
