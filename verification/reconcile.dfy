/** One reconciliation pass of the player controller (`updatePlayer`): from
    the last fetched snapshot and the controller's state it decides the
    player type, the addresses to play and where to start, and lists the
    commands it sends to the adapter. */
module Reconcile {
  import opened Wrappers
  import opened Media
  import opened DeviceFilter
  import opened Qualities
  import opened ControllerState

  /** The stream groups this device can play; once the show is over only
      the DVR addresses remain. */
  function StreamGroupsFor(s: Snapshot, d: Device): (gs: seq<UriGroup>)
    ensures forall g :: g in gs ==> |g.uris| > 0
    ensures forall g, u :: g in gs && u in g.uris ==> SupportedOn(u, d)
    ensures s.hasStream && s.StateIs(StateShowOver) ==>
              forall g, u :: g in gs && u in g.uris ==> u.uriWithDvrSupport
  {
    var fs := FilterGroups(s.streamUris, d);
    if s.hasStream && s.StateIs(StateShowOver) then
      StripKeepsDeviceSupport(fs, d);
      StripNonDvr(fs)
    else fs
  }

  /** The external stream page, considered only while the stream is not
      over and external pages are not ignored. */
  function ExternalUrl(s: Snapshot, cfg: Config): Option<string>
  {
    if s.hasStream && !s.StateIs(StateShowOver) && !cfg.ignoreExternalStreamUrl then s.externalStreamUrl
    else None
  }

  /** The condition under which the stream takes precedence. */
  predicate LiveCondition(s: Snapshot, streamGroups: seq<UriGroup>, overrideMode: bool)
  {
    s.hasStream
    && (s.StateIs(StateLive)
        || (s.StateIs(StateShowOver) && |streamGroups| > 0)
        || (overrideMode && s.StateIs(StateNotLive)))
  }

  /** The video condition with the source's grouping: override mode is an
      alternative to the whole conjunction, not to its last part. */
  predicate VodCondition(s: Snapshot, overrideMode: bool)
  {
    (s.hasVod && s.VodLiveTruthy() && (!s.hasStream || !s.StateIs(StateNotLive))) || overrideMode
  }

  datatype Resolution = Resolution(playerType: PlayerType, externalUrl: Option<string>, groups: seq<UriGroup>)

  /** The player type, the external page handed to the adapter and the
      groups whose qualities are offered. */
  function Resolve(s: Snapshot, cfg: Config, streamGroups: seq<UriGroup>, videoGroups: seq<UriGroup>,
                   overrideMode: bool): (r: Resolution)
    ensures r.externalUrl.Some? ==>
              r.groups == [] && s.hasStream && !s.StateIs(StateShowOver) && !cfg.ignoreExternalStreamUrl
    ensures r.playerType == Vod ==> r.externalUrl.None? && r.groups == videoGroups
    ensures r.playerType == Live && r.externalUrl.None? ==> r.groups == streamGroups
    ensures r.playerType == Ad ==> r.groups == []
  {
    var ext := ExternalUrl(s, cfg);
    var (t, ext') :=
      if LiveCondition(s, streamGroups, overrideMode) then
        (if ext.Some? || |streamGroups| > 0 then Live else Ad, ext)
      else if VodCondition(s, overrideMode) then
        (if |videoGroups| > 0 then (Vod, None) else (Ad, ext))
      else (Ad, ext);
    var groups :=
      if ext'.Some? then []
      else if t == Live then streamGroups
      else if t == Vod then videoGroups
      else [];
    Resolution(t, ext', groups)
  }

  /** The stream wins whenever its condition holds: the result is live when
      there is an external page or a playable group, and otherwise an ad,
      never the video. */
  lemma LivePrecedence(s: Snapshot, cfg: Config, sg: seq<UriGroup>, vg: seq<UriGroup>, overrideMode: bool)
    requires LiveCondition(s, sg, overrideMode)
    ensures Resolve(s, cfg, sg, vg, overrideMode).playerType != Vod
    ensures Resolve(s, cfg, sg, vg, overrideMode).playerType == Live <==> ExternalUrl(s, cfg).Some? || |sg| > 0
  {
  }

  /** Without the stream condition the video plays exactly when the video
      condition holds and this device can play one of its groups. */
  lemma VodWhenNoLive(s: Snapshot, cfg: Config, sg: seq<UriGroup>, vg: seq<UriGroup>, overrideMode: bool)
    requires !LiveCondition(s, sg, overrideMode)
    ensures Resolve(s, cfg, sg, vg, overrideMode).playerType == Vod <==> VodCondition(s, overrideMode) && |vg| > 0
    ensures Resolve(s, cfg, sg, vg, overrideMode).playerType != Live
  {
  }

  /** Override mode alone selects the video, even for an item that reports
      no video, as long as a video group is playable. */
  lemma OverrideAloneSelectsVod(s: Snapshot, cfg: Config, sg: seq<UriGroup>, vg: seq<UriGroup>)
    requires !LiveCondition(s, sg, true) && |vg| > 0
    ensures Resolve(s, cfg, sg, vg, true).playerType == Vod
  {
  }

  /** With override mode off, an item with neither stream nor video shows
      the ad. */
  lemma NothingMeansAd(s: Snapshot, cfg: Config, sg: seq<UriGroup>, vg: seq<UriGroup>)
    requires !s.hasStream && !s.hasVod
    ensures Resolve(s, cfg, sg, vg, false).playerType == Ad
  {
  }

  /** `indexOf` on the quality ids: the first position holding `x`, or -1. */
  function IndexOfId(ids: seq<int>, x: Option<int>): (i: int)
    ensures -1 <= i < |ids|
    ensures i >= 0 ==> x == Some(ids[i]) && forall k :: 0 <= k < i ==> x != Some(ids[k])
    ensures i == -1 ==> forall k :: 0 <= k < |ids| ==> x != Some(ids[k])
  {
    if |ids| == 0 then -1
    else if x == Some(ids[0]) then 0
    else
      var j := IndexOfId(ids[1..], x);
      if j == -1 then -1 else j + 1
  }

  /** `getChosenUris`: no groups give no addresses; otherwise the addresses
      of the group of the chosen quality. `None` stands for the exception
      raised when the chosen quality has no group. */
  function GetChosenUris(gs: seq<UriGroup>, chosen: Option<int>): (r: Option<seq<MediaUri>>)
    ensures |gs| == 0 ==> r == Some([])
    ensures |gs| > 0 ==> (r.None? <==> chosen.None? || chosen.value !in QualityIds(gs))
    ensures r.Some? && |gs| > 0 ==>
              exists k :: 0 <= k < |gs| && Some(gs[k].quality.id) == chosen && r.value == gs[k].uris
  {
    if |gs| == 0 then Some([])
    else
      var i := IndexOfId(QualityIds(gs), chosen);
      if i == -1 then None else Some(gs[i].uris)
  }

  /** A handler offering exactly the qualities of the groups always has a
      chosen quality with a group, so choosing addresses cannot fail. */
  lemma ChosenUrisExist(gs: seq<UriGroup>, h: Handler)
    requires Valid(h) && h.available == QualitiesOf(gs)
    ensures GetChosenUris(gs, h.chosen).Some?
  {
    if |gs| > 0 {
      OffersQualitiesOf(gs, h.chosen.value);
    }
  }

  /** The positional comparison of the current and the newly chosen
      addresses: lengths first, then field by field at each position. */
  method UrisDiffer(current: seq<MediaUri>, pending: seq<MediaUri>) returns (changed: bool)
    ensures changed <==> current != pending
  {
    if |current| != |pending| {
      return true;
    }
    changed := false;
    var i := 0;
    while i < |pending|
      invariant 0 <= i <= |pending|
      invariant current[..i] == pending[..i]
    {
      var c := current[i];
      var p := pending[i];
      if c.uri != p.uri || c.mediaType != p.mediaType || c.supportedDevices != p.supportedDevices
         || c.uriWithDvrSupport != p.uriWithDvrSupport {
        assert current[i] != pending[i];
        return true;
      }
      assert current[..i + 1] == current[..i] + [c];
      assert pending[..i + 1] == pending[..i] + [p];
      i := i + 1;
    }
    assert current == current[..i];
    assert pending == pending[..i];
  }

  /** The qualities offered after a pass: the groups' qualities, sticking
      with the current choice when the type is unchanged, then the initial
      quality for the type being switched to, if it is on offer. */
  function UpdateQualities(h: Handler, cfg: Config, groups: seq<UriGroup>, queued: PlayerType,
                           previous: Option<PlayerType>): (r: Handler)
    ensures Valid(r) && r.available == QualitiesOf(groups)
    ensures previous == Some(queued) ==> r == SetAvailable(h, QualitiesOf(groups), true)
  {
    var h1 := SetAvailable(h, QualitiesOf(groups), previous == Some(queued));
    var initial :=
      if queued == Vod && previous != Some(Vod) then cfg.initialVodQualityId
      else if queued == Live && previous != Some(Live) then cfg.initialStreamQualityId
      else None;
    if initial.Some? && Has(h1, initial.value) then Choose(h1, initial.value) else h1
  }

  /** The start position and play state sent when the player is (re)loaded. */
  function StartCommand(queued: PlayerType, urisChanged: bool, firstLoad: bool, s: Snapshot,
                        st: State, view: AdapterView): seq<Effect>
  {
    match queued
    case Live =>
      if urisChanged then [Cmd(SetPlayerStartTime(Some(0), !view.paused, None))]
      else if s.StateIs(StateShowOver) then
        (if st.resolvedAutoPlayVod then [Cmd(SetPlayerStartTime(Some(0), true, None))] else [])
      else [Cmd(SetPlayerStartTime(Some(0), st.resolvedAutoPlayStream, None))]
    case Vod =>
      var computed := st.vodRememberedStartTime.GetOr(0);
      if urisChanged then [Cmd(SetPlayerStartTime(view.currentTime, !view.paused, None))]
      else if firstLoad && st.vodPlayStartTime.Some? then
        [Cmd(SetPlayerStartTime(st.vodPlayStartTime, st.resolvedAutoPlayVod, Some(false)))]
      else [Cmd(SetPlayerStartTime(Some(computed), st.resolvedAutoPlayVod, Some(true)))]
    case Ad => []
  }

  function TypeCommands(t: PlayerType): seq<Effect>
  {
    if t == Ad then [Cmd(ShowPlayer(false))] else [Cmd(SetPlayerType(t)), Cmd(ShowPlayer(true))]
  }

  /** What is sent when the type or the addresses change: the type, the
      start position, then the addresses. */
  function ReloadEffects(reload: bool, queued: PlayerType, urisChanged: bool, firstLoad: bool,
                         s: Snapshot, st: State, view: AdapterView, chosen: seq<MediaUri>): seq<Effect>
  {
    if reload then
      TypeCommands(queued) + StartCommand(queued, urisChanged, firstLoad, s, st, view)
      + [Cmd(SetPlayerUris(chosen))]
    else []
  }

  /** Everything else the adapter is told on every pass, in order. */
  function MetaEffects(cfg: Config, s: Snapshot, queued: PlayerType, ext: Option<string>): seq<Effect>
  {
    var notLive := s.hasStream && s.StateIs(StateNotLive);
    var over := s.hasStream && s.StateIs(StateShowOver);
    (if queued == Ad && notLive then [Cmd(SetCustomMsg(s.streamInfoMsg))] else [])
    + [ Cmd(SetChapters(if queued == Vod && s.vodChapters.Some? then s.vodChapters.value else [])),
        Cmd(SetScrubThumbnails(if queued == Vod then s.vodThumbnails else None)),
        Cmd(SetTitle(if cfg.showTitleInPlayer then Some(s.title) else None)),
        Cmd(ShowStreamOver(over)),
        Cmd(SetCustomMsg(if notLive then s.streamInfoMsg else None)),
        Cmd(ShowVodAvailableShortly(over && s.availableOnDemand == Some(true))),
        Cmd(SetStartTime(
          if s.scheduledPublishTime.Some? && !over then Some(s.scheduledPublishTime.value * 1000) else None,
          s.hasStream)),
        Cmd(SetExternalStreamUrl(ext)),
        Cmd(DisableFullScreen(cfg.disableFullScreen)),
        Cmd(SetPlayerPreload(true)),
        Cmd(DisableControls(cfg.disablePlayerControls)) ]
  }

  /** The decisions of a pass that precede any command. `chosen` is `None`
      when the chosen quality has no group. */
  datatype Plan = Plan(res: Resolution, handler: Handler, chosen: Option<seq<MediaUri>>)

  function MakePlan(cfg: Config, st: State, s: Snapshot, d: Device): (p: Plan)
    ensures Valid(p.handler) && p.handler.available == QualitiesOf(p.res.groups)
  {
    var sg := StreamGroupsFor(s, d);
    var vg := FilterGroups(s.videoUris, d);
    var res := Resolve(s, cfg, sg, vg, st.overrideModeEnabled == Some(true));
    var h := UpdateQualities(st.qualities, cfg, res.groups, res.playerType, st.playerType);
    Plan(res, h, GetChosenUris(res.groups, h.chosen))
  }

  function CreateEffects(firstLoad: bool, s: Snapshot): seq<Effect>
  {
    if firstLoad then [Cmd(Create(s.coverUri)), Emit("playerComponentElAvailable")] else []
  }

  /** The events that close a pass, around the final render. */
  function TailEffects(st: State, s: Snapshot, queued: PlayerType): seq<Effect>
  {
    (if s.streamState != st.streamState then [Emit("streamStateChanged")] else [])
    + (if st.playerType != Some(queued) then [Emit("playerTypeChanged")] else [])
    + [Cmd(Render)]
    + (if !st.hasComponent then [Emit("loaded")] else [])
  }

  /** The addresses changed: same type as before but a different list. */
  predicate UrisChanged(st: State, queued: PlayerType, chosen: seq<MediaUri>)
  {
    st.playerType == Some(queued) && st.currentUris != chosen
  }

  predicate Reloads(st: State, queued: PlayerType, chosen: seq<MediaUri>)
  {
    st.playerType != Some(queued) || UrisChanged(st, queued, chosen)
  }

  function PassEffects(cfg: Config, st: State, s: Snapshot, view: AdapterView, queued: PlayerType,
                       chosen: seq<MediaUri>, ext: Option<string>): seq<Effect>
  {
    CreateEffects(!st.hasComponent, s)
    + ReloadEffects(Reloads(st, queued, chosen), queued, UrisChanged(st, queued, chosen),
                    !st.hasComponent, s, st, view, chosen)
    + MetaEffects(cfg, s, queued, ext)
    + TailEffects(st, s, queued)
  }

  function PassState(st: State, s: Snapshot, queued: PlayerType, chosen: seq<MediaUri>, h: Handler): State
  {
    st.(
      hasComponent := true,
      currentUris := chosen,
      qualities := if queued == Ad then SetAvailable(h, [], false) else h,
      rememberedTimeTimerRunning := queued == Vod,
      streamState := s.streamState,
      playerType := Some(queued),
      loaded := st.loaded || !st.hasComponent)
  }

  /** `updatePlayer`: nothing happens before a snapshot is cached; the
      first pass creates the adapter and latches `loaded`. */
  function UpdatePlayer(cfg: Config, st: State, view: AdapterView, d: Device): (r: Result<Pass>)
    ensures st.cachedData.None? ==> r == Ok(Pass(st, []))
  {
    if st.cachedData.None? then Ok(Pass(st, []))
    else
      var s := st.cachedData.value;
      var plan := MakePlan(cfg, st, s, d);
      if plan.chosen.None? then Err("TypeError: chosen quality has no URI group")
      else
        var queued := plan.res.playerType;
        var chosen := plan.chosen.value;
        Ok(Pass(PassState(st, s, queued, chosen, plan.handler),
                PassEffects(cfg, st, s, view, queued, chosen, plan.res.externalUrl)))
  }
}
