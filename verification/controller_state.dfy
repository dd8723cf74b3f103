/** The player controller's options, its mutable state, the adapter it
    drives and the commands it sends to that adapter. */
module ControllerState {
  import opened Wrappers
  import opened Media
  import opened Qualities

  datatype PlayerType = Live | Vod | Ad

  /** The constructor options that never change after construction.
      `likesEnabled` and `watchingEnabled` stand for a like URI and a
      watching URI having been supplied. */
  datatype Config = Config(
    ignoreExternalStreamUrl: bool,
    initialVodQualityId: Option<int>,
    initialStreamQualityId: Option<int>,
    disableFullScreen: bool,
    showTitleInPlayer: bool,
    disablePlayerControls: bool,
    enableSmartAutoPlay: bool,
    likesEnabled: bool,
    watchingEnabled: bool)

  /** What the adapter reports when asked: whether it is paused, its
      position in whole seconds, and whether it has initialised. */
  datatype AdapterView = AdapterView(paused: bool, currentTime: Option<int>, initialized: bool)

  /** Commands sent to the player adapter, in the order they are sent.
      `SetPlayerStartTime(t, play, snap)`: `snap` is the optional third
      argument asking the adapter to fall back to 0 when `t` makes no
      sense. */
  datatype Command =
    | Create(coverUri: string)
    | ShowPlayer(show: bool)
    | SetPlayerType(playerType: PlayerType)
    | SetPlayerStartTime(time: Option<int>, play: bool, snap: Option<bool>)
    | SetPlayerUris(uris: seq<MediaUri>)
    | SetCustomMsg(msg: Option<string>)
    | SetChapters(chapters: seq<Chapter>)
    | SetScrubThumbnails(thumbnails: Option<string>)
    | SetTitle(title: Option<string>)
    | ShowStreamOver(show: bool)
    | ShowVodAvailableShortly(show: bool)
    | SetStartTime(timeMs: Option<int>, willBeLive: bool)
    | SetExternalStreamUrl(url: Option<string>)
    | DisableFullScreen(disable: bool)
    | SetPlayerPreload(preload: bool)
    | DisableControls(disable: bool)
    | Render

  /** What one step does outside the controller: an adapter command, or an
      event fired to the controller's listeners. */
  datatype Effect = Cmd(cmd: Command) | Emit(event: string)

  /** What a step leaves behind: the new state and its effects, in order. */
  datatype Pass = Pass(state: State, effects: seq<Effect>)

  datatype State = State(
    loaded: bool,
    hasComponent: bool,
    playerType: Option<PlayerType>,
    currentUris: seq<MediaUri>,
    cachedData: Option<Snapshot>,
    vodSourceId: Option<int>,
    vodRememberedStartTime: Option<int>,
    vodPlayStartTime: Option<int>,
    scheduledPublishTime: Option<int>,
    vodViewCount: Option<int>,
    streamViewCount: Option<int>,
    numWatchingNow: Option<int>,
    numLikes: Option<int>,
    numDislikes: Option<int>,
    likeType: Option<LikeType>,
    streamState: Option<int>,
    overrideModeEnabled: Option<bool>,
    queuedOverrideModeEnabled: bool,
    autoPlayVod: bool,
    autoPlayStream: bool,
    resolvedAutoPlayVod: bool,
    resolvedAutoPlayStream: bool,
    embedData: Option<string>,
    rememberedTimeTimerRunning: bool,
    qualities: Handler)

  /** The state right after construction: nothing fetched, no adapter, and
      the resolved autoplay flags equal to the requested ones. */
  function Init(autoPlayVod: bool, autoPlayStream: bool, vodPlayStartTime: Option<int>): (s: State)
    ensures !s.loaded && !s.hasComponent && s.cachedData.None? && s.playerType.None?
    ensures s.resolvedAutoPlayVod == autoPlayVod && s.resolvedAutoPlayStream == autoPlayStream
  {
    State(false, false, None, [], None, None, None, vodPlayStartTime, None, None, None, None,
          None, None, None, None, None, false, autoPlayVod, autoPlayStream, autoPlayVod,
          autoPlayStream, None, false, Handler([], None))
  }

  /** The commands of an effect list that satisfy `p`, in order. */
  function Select(es: seq<Effect>, p: Command -> bool): (cs: seq<Command>)
    ensures forall c :: c in cs <==> Cmd(c) in es && p(c)
  {
    if |es| == 0 then []
    else
      var rest := Select(es[..|es| - 1], p);
      assert es == es[..|es| - 1] + [es[|es| - 1]];
      match es[|es| - 1]
      case Cmd(c) => if p(c) then rest + [c] else rest
      case Emit(_) => rest
  }

  lemma {:induction false} SelectAppend(a: seq<Effect>, b: seq<Effect>, p: Command -> bool)
    ensures Select(a + b, p) == Select(a, p) + Select(b, p)
    decreases |b|
  {
    if |b| == 0 {
      assert a + b == a;
    } else {
      var b' := b[..|b| - 1];
      var ab := a + b;
      var x := b[|b| - 1];
      assert ab[..|ab| - 1] == a + b';
      assert ab[|ab| - 1] == x;
      SelectAppend(a, b', p);
      if x.Cmd? && p(x.cmd) {
        assert Select(ab, p) == Select(a + b', p) + [x.cmd];
        assert Select(b, p) == Select(b', p) + [x.cmd];
        assert Select(a, p) + Select(b', p) + [x.cmd] == Select(a, p) + (Select(b', p) + [x.cmd]);
      } else {
        assert Select(ab, p) == Select(a + b', p);
        assert Select(b, p) == Select(b', p);
      }
    }
  }

  /** A list with no matching command selects nothing. */
  lemma {:induction false} SelectNone(es: seq<Effect>, p: Command -> bool)
    requires forall k :: 0 <= k < |es| ==> !(es[k].Cmd? && p(es[k].cmd))
    ensures Select(es, p) == []
    decreases |es|
  {
    if |es| > 0 {
      SelectNone(es[..|es| - 1], p);
    }
  }

  /** The events of an effect list, in order. */
  function Events(es: seq<Effect>): (evs: seq<string>)
    ensures forall e :: e in evs <==> Emit(e) in es
  {
    if |es| == 0 then []
    else
      var rest := Events(es[..|es| - 1]);
      assert es == es[..|es| - 1] + [es[|es| - 1]];
      match es[|es| - 1]
      case Emit(e) => rest + [e]
      case Cmd(_) => rest
  }
}
