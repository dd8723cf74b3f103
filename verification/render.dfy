/** `render()`: after every fetched snapshot the controller copies the
    embed data, applies the queued override mode, runs the player pass and
    copies the counters, announcing each value that changed. */
module Render {
  import opened Wrappers
  import opened Media
  import opened ControllerState
  import opened Reconcile
  import opened ReconcileProps
  import opened Likes
  import opened Resume

  /** JavaScript truthiness of an optional string. */
  predicate Truthy(x: Option<string>)
  {
    x.Some? && x.value != ""
  }

  /** `updateEmbedData`: the embed data is taken from the first snapshot
      that has any and never replaced afterwards. */
  function UpdateEmbedData(st: State, s: Snapshot): (r: Pass)
    ensures r.state.(embedData := st.embedData) == st
    ensures st.embedData.Some? ==> r.state.embedData == st.embedData
    ensures st.embedData.None? ==> r.state.embedData == (if Truthy(s.embedData) then s.embedData else None)
    ensures Events(r.effects) == (if r.state.embedData != st.embedData then ["embedDataAvailable"] else [])
  {
    if st.embedData.Some? || !Truthy(s.embedData) then Pass(st, [])
    else Pass(st.(embedData := s.embedData), [Emit("embedDataAvailable")])
  }

  /** The embed data after a series of snapshots. */
  function EmbedAcross(st: State, ss: seq<Snapshot>): (r: State)
  {
    if |ss| == 0 then st else UpdateEmbedData(EmbedAcross(st, ss[..|ss| - 1]), ss[|ss| - 1]).state
  }

  /** The first truthy embed data of a series of snapshots. */
  function FirstEmbed(ss: seq<Snapshot>): (r: Option<string>)
  {
    if |ss| == 0 then None
    else if FirstEmbed(ss[..|ss| - 1]).Some? then FirstEmbed(ss[..|ss| - 1])
    else if Truthy(ss[|ss| - 1].embedData) then ss[|ss| - 1].embedData
    else None
  }

  /** Starting from no embed data, a series of snapshots leaves exactly the
      first truthy embed data among them. */
  lemma {:induction false} EmbedDataIsFirstSeen(st: State, ss: seq<Snapshot>)
    requires st.embedData.None?
    ensures EmbedAcross(st, ss).embedData == FirstEmbed(ss)
  {
    if |ss| > 0 {
      EmbedDataIsFirstSeen(st, ss[..|ss| - 1]);
    }
  }

  /** `updateOverrideMode`: the queued mode becomes the current one; the
      change is announced, including the first change from unset. */
  function UpdateOverrideMode(st: State): (r: Pass)
    ensures r.state.overrideModeEnabled == Some(st.queuedOverrideModeEnabled)
    ensures r.state.(overrideModeEnabled := st.overrideModeEnabled) == st
    ensures Events(r.effects) == (if r.state.overrideModeEnabled != st.overrideModeEnabled then ["overrideModeChanged"] else [])
  {
    if st.overrideModeEnabled != Some(st.queuedOverrideModeEnabled) then
      Pass(st.(overrideModeEnabled := Some(st.queuedOverrideModeEnabled)), [Emit("overrideModeChanged")])
    else Pass(st, [])
  }

  /** `updateViewCounts`: both counters are copied; each change fires its
      own event and either fires `viewCountChanged` once. */
  function UpdateViewCounts(st: State, s: Snapshot): (r: Pass)
    ensures r.state == st.(vodViewCount := s.vodViewCount, streamViewCount := s.streamViewCount)
    ensures "vodViewCountChanged" in Events(r.effects) <==> st.vodViewCount != s.vodViewCount
    ensures "streamViewCountChanged" in Events(r.effects) <==> st.streamViewCount != s.streamViewCount
    ensures "viewCountChanged" in Events(r.effects) <==>
              st.vodViewCount != s.vodViewCount || st.streamViewCount != s.streamViewCount
  {
    var vodChanged := st.vodViewCount != s.vodViewCount;
    var streamChanged := st.streamViewCount != s.streamViewCount;
    Pass(st.(vodViewCount := s.vodViewCount, streamViewCount := s.streamViewCount),
         (if vodChanged then [Emit("vodViewCountChanged")] else [])
         + (if streamChanged then [Emit("streamViewCountChanged")] else [])
         + (if vodChanged || streamChanged then [Emit("viewCountChanged")] else []))
  }

  /** `getViewCount`: the sum of the counters that are shown, or nothing
      when neither is shown or no snapshot has arrived. */
  function GetViewCount(st: State): (r: Option<int>)
    ensures r.None? <==> st.cachedData.None? || (st.vodViewCount.None? && st.streamViewCount.None?)
    ensures r.Some? && st.vodViewCount.None? ==> r == st.streamViewCount
    ensures r.Some? && st.streamViewCount.None? ==> r == st.vodViewCount
    ensures r.Some? && st.vodViewCount.Some? && st.streamViewCount.Some? ==>
              r.value == st.vodViewCount.value + st.streamViewCount.value
  {
    if st.cachedData.None? || (st.streamViewCount.None? && st.vodViewCount.None?) then None
    else
      Some((if st.streamViewCount.Some? then st.streamViewCount.value else 0)
           + (if st.vodViewCount.Some? then st.vodViewCount.value else 0))
  }

  /** `updateNumWatchingNow`: copied and announced when the watching URI
      was supplied; nothing happens otherwise. */
  function UpdateNumWatchingNow(cfg: Config, st: State, s: Snapshot): (r: Pass)
    ensures !cfg.watchingEnabled ==> r == Pass(st, [])
    ensures cfg.watchingEnabled ==> r.state == st.(numWatchingNow := s.numWatchingNow)
    ensures Events(r.effects) == (if r.state.numWatchingNow != st.numWatchingNow then ["numWatchingNowChanged"] else [])
  {
    if !cfg.watchingEnabled then Pass(st, [])
    else if st.numWatchingNow != s.numWatchingNow then
      Pass(st.(numWatchingNow := s.numWatchingNow), [Emit("numWatchingNowChanged")])
    else Pass(st, [])
  }

  /** `updateScheduledPublishTime`: the snapshot's time in seconds is kept
      in milliseconds; a change is announced. */
  function UpdateScheduledPublishTime(st: State, s: Snapshot): (r: Pass)
    ensures r.state.scheduledPublishTime.Some? <==> s.scheduledPublishTime.Some?
    ensures r.state.scheduledPublishTime.Some? ==>
              r.state.scheduledPublishTime.value / 1000 == s.scheduledPublishTime.value
              && r.state.scheduledPublishTime.value % 1000 == 0
    ensures r.state.(scheduledPublishTime := st.scheduledPublishTime) == st
    ensures Events(r.effects) ==
              (if r.state.scheduledPublishTime != st.scheduledPublishTime then ["scheduledPublishTimeChanged"] else [])
  {
    var b := if s.scheduledPublishTime.Some? then Some(s.scheduledPublishTime.value * 1000) else None;
    if st.scheduledPublishTime != b then Pass(st.(scheduledPublishTime := b), [Emit("scheduledPublishTimeChanged")])
    else Pass(st, [])
  }

  /** What `render()` leaves: the state after the steps that ran, their
      effects, and the exception that stopped it, if any. */
  datatype Rendered = Rendered(state: State, effects: seq<Effect>, thrown: Option<string>)

  const NoSnapshot: string := "TypeError: cachedData is null"

  /** The counter updates that follow the player pass. */
  function CounterUpdates(cfg: Config, st: State, s: Snapshot): (r: Pass)
  {
    var p1 := UpdateViewCounts(st, s);
    var p2 := UpdateNumWatchingNow(cfg, p1.state, s);
    var p3 := UpdateScheduledPublishTime(p2.state, s);
    var p4 := UpdateLikes(cfg, p3.state, s);
    Pass(p4.state, p1.effects + p2.effects + p3.effects + p4.effects)
  }

  /** `render()`, in the source's order. Before the first snapshot the
      embed-data step reads a field of null and throws. */
  function RenderAll(cfg: Config, st: State, view: AdapterView, d: Device): (r: Rendered)
    ensures st.cachedData.None? && st.embedData.None? ==> r == Rendered(st, [], Some(NoSnapshot))
    ensures st.cachedData.None? ==> r.thrown == Some(NoSnapshot)
  {
    if st.cachedData.None? then
      if st.embedData.None? then Rendered(st, [], Some(NoSnapshot))
      else
        var p := UpdateOverrideMode(st);
        Rendered(p.state, p.effects, Some(NoSnapshot))
    else
      var s := st.cachedData.value;
      var p1 := UpdateEmbedData(st, s);
      var p2 := UpdateOverrideMode(p1.state);
      match UpdatePlayer(cfg, p2.state, view, d)
      case Err(e) => Rendered(p2.state, p1.effects + p2.effects, Some(e))
      case Ok(p3) =>
        var p4 := CounterUpdates(cfg, p3.state, s);
        Rendered(p4.state, p1.effects + p2.effects + p3.effects + p4.effects, None)
  }

  /** The answer to a player-info request: the snapshot is cached, its
      source file id kept, the remembered position looked up, and the
      controller rendered. */
  function OnData(cfg: Config, st: State, view: AdapterView, d: Device, s: Snapshot, db: Option<Store>): (r: Rendered)
  {
    RenderAll(cfg, st.(cachedData := Some(s), vodSourceId := s.vodSourceId,
                       vodRememberedStartTime := GetRememberedTime(s, db)), view, d)
  }

  /** `enableOverrideMode(enable)`: the mode is queued and a render runs. */
  function EnableOverrideMode(cfg: Config, st: State, view: AdapterView, d: Device, enable: bool): (r: Rendered)
    ensures st.cachedData.None? && st.embedData.None? ==>
              r.state == st.(queuedOverrideModeEnabled := enable) && r.thrown.Some?
  {
    RenderAll(cfg, st.(queuedOverrideModeEnabled := enable), view, d)
  }

  /** The counter updates leave the counters equal to the snapshot's. */
  lemma CounterUpdatesCopy(cfg: Config, st: State, s: Snapshot)
    ensures var r := CounterUpdates(cfg, st, s).state;
      r.vodViewCount == s.vodViewCount && r.streamViewCount == s.streamViewCount
      && (cfg.watchingEnabled ==> r.numWatchingNow == s.numWatchingNow)
      && (!cfg.watchingEnabled ==> r.numWatchingNow == st.numWatchingNow)
      && (r.scheduledPublishTime.Some? <==> s.scheduledPublishTime.Some?)
      && (cfg.likesEnabled ==> r.numLikes == s.numLikes && r.numDislikes == s.numDislikes && r.likeType == s.likeType)
      && r.overrideModeEnabled == st.overrideModeEnabled && r.embedData == st.embedData
      && r.playerType == st.playerType && r.cachedData == st.cachedData
  {
  }

  /** A render with a snapshot never throws and leaves the override mode
      applied, the embed data latched and every counter copied. */
  lemma RenderCopiesSnapshot(cfg: Config, st: State, view: AdapterView, d: Device)
    requires st.cachedData.Some?
    ensures var r := RenderAll(cfg, st, view, d);
      var s := st.cachedData.value;
      r.thrown.None?
      && r.state.overrideModeEnabled == Some(st.queuedOverrideModeEnabled)
      && (st.embedData.Some? ==> r.state.embedData == st.embedData)
      && r.state.vodViewCount == s.vodViewCount && r.state.streamViewCount == s.streamViewCount
      && (cfg.likesEnabled ==> r.state.numLikes == s.numLikes && r.state.numDislikes == s.numDislikes)
      && GetViewCount(r.state).None? == (s.vodViewCount.None? && s.streamViewCount.None?)
  {
    var s := st.cachedData.value;
    var p1 := UpdateEmbedData(st, s);
    var p2 := UpdateOverrideMode(p1.state);
    UpdatePlayerNeverThrows(cfg, p2.state, view, d);
    var p3 := UpdatePlayer(cfg, p2.state, view, d).value;
    PlayerPassKeepsCounters(cfg, p2.state, view, d);
    CounterUpdatesCopy(cfg, p3.state, s);
  }

  /** The player pass touches neither the counters, the override mode, the
      embed data nor the cached snapshot. */
  lemma PlayerPassKeepsCounters(cfg: Config, st: State, view: AdapterView, d: Device)
    requires UpdatePlayer(cfg, st, view, d).Ok?
    ensures var r := UpdatePlayer(cfg, st, view, d).value.state;
      r.overrideModeEnabled == st.overrideModeEnabled && r.embedData == st.embedData
      && r.cachedData == st.cachedData && r.queuedOverrideModeEnabled == st.queuedOverrideModeEnabled
  {
  }

  /** Enabling override mode before the first snapshot throws, but the
      queued mode takes effect at the first render with data. */
  lemma OverrideQueuedBeforeLoad(cfg: Config, st: State, view: AdapterView, d: Device, enable: bool,
                                 s: Snapshot, db: Option<Store>)
    requires st.cachedData.None? && st.embedData.None?
    ensures EnableOverrideMode(cfg, st, view, d, enable).thrown.Some?
    ensures var st1 := EnableOverrideMode(cfg, st, view, d, enable).state;
      OnData(cfg, st1, view, d, s, db).state.overrideModeEnabled == Some(enable)
  {
    var st1 := EnableOverrideMode(cfg, st, view, d, enable).state;
    var st2 := st1.(cachedData := Some(s), vodSourceId := s.vodSourceId,
                    vodRememberedStartTime := GetRememberedTime(s, db));
    RenderCopiesSnapshot(cfg, st2, view, d);
  }
}
