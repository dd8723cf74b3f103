/** The older player adapter: setters only queue values, and `render()`
    commits them, rebuilding the advert overlay and the video player only
    when something they depend on changed. URIs are plain strings here,
    compared with `===`. The visible parts of the advert are modelled by
    what each of its elements shows (`None` = hidden). */
module PlayerComponent {
  import opened Wrappers
  import opened Text

  datatype Kind = LiveKind | VodKind

  /** What the advert overlay shows. */
  datatype AdView = AdView(liveAt: Option<string>, time: Option<string>, customMsg: Option<string>,
                           streamOver: bool, vodShortly: bool)

  const EmptyAd: AdView := AdView(None, None, None, false, false)

  /** The advert values the setters queue. */
  datatype AdQueued = AdQueued(showAd: bool, startTime: Option<int>, willBeLive: Option<bool>,
                               customMsg: Option<string>, streamOver: bool, vodShortly: bool)

  /** The advert values last applied, with the two texts last written. */
  datatype AdShown = AdShown(showAd: Option<bool>, startTime: Option<int>, willBeLive: Option<bool>,
                             customMsg: Option<string>, streamOver: Option<bool>, vodShortly: Option<bool>,
                             liveAtTxt: Option<string>, timeTxt: Option<string>)

  /** The advert: queued values, applied values, and the overlay if it
      exists. */
  datatype AdPart = AdPart(q: AdQueued, s: AdShown, view: Option<AdView>)

  /** The video player: queued and committed settings, the URI list and
      whether it changed since the last reload, and whether a player
      exists. */
  datatype PlayerPart = PlayerPart(
    playerType: Option<Kind>, queuedPlayerType: Option<Kind>,
    preload: Option<bool>, queuedPreload: bool,
    showPlayer: Option<bool>, queuedShowPlayer: bool,
    autoPlay: Option<bool>, queuedAutoPlay: bool,
    urisChanged: bool, uris: seq<string>,
    created: bool)

  datatype Component = Component(ad: AdPart, player: PlayerPart)

  const NothingShown: AdShown := AdShown(None, None, None, None, None, None, None, None)

  /** A freshly constructed adapter. */
  const Fresh: Component :=
    Component(AdPart(AdQueued(true, None, None, None, false, false), NothingShown, None),
              PlayerPart(None, None, None, true, None, false, None, false, true, [], false))

  /** `setPlayerType`: only "live" and "vod" are accepted. */
  function SetPlayerType(p: PlayerPart, t: string): (r: Result<PlayerPart>)
    ensures r.Ok? <==> t == "live" || t == "vod"
    ensures t == "live" ==> r == Ok(p.(queuedPlayerType := Some(LiveKind)))
    ensures t == "vod" ==> r == Ok(p.(queuedPlayerType := Some(VodKind)))
  {
    if t == "live" then Ok(p.(queuedPlayerType := Some(LiveKind)))
    else if t == "vod" then Ok(p.(queuedPlayerType := Some(VodKind)))
    else Err("PlayerType must be \"live\" or \"vod\".")
  }

  /** `setPlayerUris`: a list equal element by element to the current one
      changes nothing; any other list is stored and marked changed. */
  method SetPlayerUris(p: PlayerPart, uris: seq<string>) returns (r: PlayerPart)
    ensures r.uris == uris
    ensures r.urisChanged == (p.urisChanged || uris != p.uris)
    ensures r.(uris := p.uris, urisChanged := p.urisChanged) == p
  {
    if |p.uris| == |uris| {
      var changed := false;
      var i := 0;
      while i < |uris|
        invariant 0 <= i <= |uris|
        invariant !changed ==> uris[..i] == p.uris[..i]
        invariant changed ==> uris != p.uris
      {
        if uris[i] != p.uris[i] {
          changed := true;
          break;
        }
        i := i + 1;
      }
      if !changed {
        assert uris == uris[..i] == p.uris[..i] == p.uris;
        return p;
      }
    }
    return p.(uris := uris, urisChanged := true);
  }

  /** `showPlayer(show)`: the player and the advert are queued as opposites. */
  function ShowPlayer(c: Component, show: bool): (r: Component)
    ensures r.player.queuedShowPlayer == show && r.ad.q.showAd == !show
    ensures r.player.(queuedShowPlayer := c.player.queuedShowPlayer) == c.player
    ensures r.ad.(q := c.ad.q) == c.ad && r.ad.q.(showAd := c.ad.q.showAd) == c.ad.q
  {
    Component(c.ad.(q := c.ad.q.(showAd := !show)), c.player.(queuedShowPlayer := show))
  }

  /** The countdown is shown while the start is strictly in the future and
      less than five minutes away. */
  const CountdownWindowMs: int := 300000

  predicate ShowCountdown(start: int, now: int)
  {
    start < now + CountdownWindowMs && start > now
  }

  /** `Math.ceil(ms / 1000)` for a positive number of milliseconds. */
  function CeilSeconds(ms: int): (s: int)
    requires ms > 0
    ensures (s - 1) * 1000 < ms <= s * 1000
    ensures s >= 1
  {
    (ms + 999) / 1000
  }

  datatype Countdown = Countdown(secondsToGo: int, minutes: int, seconds: int)

  function CountdownFor(start: int, now: int): (r: Countdown)
    requires ShowCountdown(start, now)
    ensures 1 <= r.secondsToGo <= 300
    ensures (r.secondsToGo - 1) * 1000 < start - now <= r.secondsToGo * 1000
    ensures r.minutes * 60 + r.seconds == r.secondsToGo && 0 <= r.seconds < 60 && 0 <= r.minutes <= 5
  {
    var s := CeilSeconds(start - now);
    Countdown(s, s / 60, s % 60)
  }

  /** " minute" or " minutes", and so on: plural unless exactly one. */
  function Unit(n: int, word: string): (r: string)
    ensures r == word || r == word + "s"
    ensures r == word <==> n == 1
  {
    word + (if n != 1 then "s" else "")
  }

  /** The countdown text, e.g. "4 minutes 05 seconds". */
  function CountdownText(cd: Countdown): (r: string)
    requires cd.minutes >= 0 && cd.seconds >= 0
  {
    NatToString(cd.minutes) + Unit(cd.minutes, " minute") + " " + Pad2(cd.seconds) + Unit(cd.seconds, " second")
  }

  /** The header above the time: "Live " or "Available ", then "In" while
      counting down and "At" otherwise. */
  function Header(willBeLive: Option<bool>, countdown: bool): (r: string)
    ensures willBeLive == Some(true) && countdown ==> r == "Live In"
    ensures willBeLive == Some(true) && !countdown ==> r == "Live At"
    ensures willBeLive != Some(true) && countdown ==> r == "Available In"
    ensures willBeLive != Some(true) && !countdown ==> r == "Available At"
  {
    var r := (if willBeLive == Some(true) then "Live " else "Available ") + (if countdown then "In" else "At");
    assert "Live " + "In" == "Live In" && "Live " + "At" == "Live At";
    assert "Available " + "In" == "Available In" && "Available " + "At" == "Available At";
    r
  }

  /** The time text: the countdown inside the window, the formatted date
      (`dateText`, produced by a date library) otherwise. */
  function TimeText(start: int, now: int, dateText: string): (r: string)
    ensures !ShowCountdown(start, now) ==> r == dateText
  {
    if ShowCountdown(start, now) then CountdownText(CountdownFor(start, now)) else dateText
  }

  /** The start-time part of `updateAd`, on an existing overlay. */
  function AdStartTime(a: AdPart, now: int, dateText: string): (r: AdPart)
    requires a.view.Some?
    ensures r.view.Some?
    ensures r.q.(willBeLive := a.q.willBeLive) == a.q
    ensures r.s.startTime == a.q.startTime
    ensures r.s.(startTime := a.s.startTime, willBeLive := a.s.willBeLive, liveAtTxt := a.s.liveAtTxt,
                 timeTxt := a.s.timeTxt) == a.s
    ensures r.view.value.(liveAt := a.view.value.liveAt, time := a.view.value.time) == a.view.value
  {
    var v := a.view.value;
    if a.q.startTime.None? && a.s.startTime.Some? then
      AdPart(a.q.(willBeLive := None),
             a.s.(liveAtTxt := None, willBeLive := None, timeTxt := None, startTime := None),
             Some(v.(liveAt := None, time := None)))
    else if a.q.startTime.Some? then
      var t := a.q.startTime.value;
      var header := Header(a.q.willBeLive, ShowCountdown(t, now));
      var txt := TimeText(t, now, dateText);
      var v1 := if Some(header) != a.s.liveAtTxt then v.(liveAt := Some(header)) else v;
      var v2 := if a.s.timeTxt != Some(txt) then v1.(time := Some(txt)) else v1;
      AdPart(a.q, a.s.(willBeLive := a.q.willBeLive, liveAtTxt := Some(header), timeTxt := Some(txt),
                       startTime := a.q.startTime), Some(v2))
    else a.(s := a.s.(startTime := a.q.startTime))
  }

  /** The message and flag parts of `updateAd`, on an existing overlay. */
  function AdMessages(a: AdPart): (r: AdPart)
    requires a.view.Some?
    ensures r.view.Some? && r.q == a.q
    ensures r.s == a.s.(customMsg := a.q.customMsg, streamOver := Some(a.q.streamOver), vodShortly := Some(a.q.vodShortly))
    ensures r.view.value.liveAt == a.view.value.liveAt && r.view.value.time == a.view.value.time
  {
    var v := a.view.value;
    var v1 := if a.s.customMsg != a.q.customMsg then v.(customMsg := a.q.customMsg) else v;
    var v2 := if a.s.streamOver != Some(a.q.streamOver) then v1.(streamOver := a.q.streamOver) else v1;
    var v3 := if a.s.vodShortly != Some(a.q.vodShortly) then v2.(vodShortly := a.q.vodShortly) else v2;
    AdPart(a.q, a.s.(customMsg := a.q.customMsg, streamOver := Some(a.q.streamOver), vodShortly := Some(a.q.vodShortly)),
           Some(v3))
  }

  /** Creating or removing the overlay when its visibility changed. As
      written, a new overlay keeps the previously applied values;
      `resetOnCreate` clears them along with the elements. */
  function AdVisibility(a: AdPart, resetOnCreate: bool): (r: AdPart)
    ensures r.s.showAd == Some(a.q.showAd) && r.q == a.q
    ensures a.s.showAd != Some(a.q.showAd) ==> (r.view.Some? <==> a.q.showAd)
    ensures a.s.showAd == Some(a.q.showAd) ==> r == a
  {
    if a.s.showAd == Some(a.q.showAd) then a
    else if !a.q.showAd then AdPart(a.q, a.s.(showAd := Some(false)), None)
    else if resetOnCreate then AdPart(a.q, NothingShown.(showAd := Some(true)), Some(EmptyAd))
    else AdPart(a.q, a.s.(showAd := Some(true)), Some(EmptyAd))
  }

  /** `updateAd()`: while the advert is hidden everything else stays
      queued. */
  function UpdateAdWith(a: AdPart, now: int, dateText: string, resetOnCreate: bool): (r: AdPart)
    ensures r.s.showAd == Some(a.q.showAd) && r.q.(willBeLive := a.q.willBeLive) == a.q
    ensures (a.view.Some? <==> a.s.showAd == Some(true)) ==> (r.view.Some? <==> a.q.showAd)
  {
    var a1 := AdVisibility(a, resetOnCreate);
    if !a1.q.showAd || a1.view.None? then a1
    else AdMessages(AdStartTime(a1, now, dateText))
  }

  function UpdateAdAsWritten(a: AdPart, now: int, dateText: string): (r: AdPart)
  {
    UpdateAdWith(a, now, dateText, false)
  }

  function UpdateAd(a: AdPart, now: int, dateText: string): (r: AdPart)
  {
    UpdateAdWith(a, now, dateText, true)
  }

  /** What the overlay should show for the queued values. */
  function Expected(q: AdQueued, now: int, dateText: string): (v: AdView)
  {
    AdView(
      if q.startTime.Some? then Some(Header(q.willBeLive, ShowCountdown(q.startTime.value, now))) else None,
      if q.startTime.Some? then Some(TimeText(q.startTime.value, now, dateText)) else None,
      q.customMsg, q.streamOver, q.vodShortly)
  }

  /** The start-time texts on the overlay are the ones last written, and
      there are none without a start time. */
  predicate StartConsistent(s: AdShown, v: AdView)
  {
    v.liveAt == s.liveAtTxt && v.time == s.timeTxt
    && (s.startTime.None? ==> s.liveAtTxt.None? && s.timeTxt.None?)
  }

  /** The messages on the overlay are the ones last applied. */
  predicate MessagesConsistent(s: AdShown, v: AdView)
  {
    v.customMsg == s.customMsg && v.streamOver == (s.streamOver == Some(true))
    && v.vodShortly == (s.vodShortly == Some(true))
  }

  /** The applied advert values describe what the overlay shows. */
  predicate Consistent(a: AdPart)
  {
    (a.view.Some? <==> a.s.showAd == Some(true))
    && (a.view.Some? ==> StartConsistent(a.s, a.view.value) && MessagesConsistent(a.s, a.view.value))
  }

  lemma FreshIsConsistent()
    ensures Consistent(Fresh.ad)
  {
  }

  lemma AdStartTimeShowsQueued(a: AdPart, now: int, dateText: string)
    requires a.view.Some? && StartConsistent(a.s, a.view.value)
    ensures var r := AdStartTime(a, now, dateText);
      StartConsistent(r.s, r.view.value)
      && r.view.value.liveAt == Expected(a.q, now, dateText).liveAt
      && r.view.value.time == Expected(a.q, now, dateText).time
  {
  }

  /** With the applied values cleared on creation, every `updateAd` keeps
      the advert consistent and, while it is shown, showing exactly what is
      queued. */
  lemma UpdateAdShowsQueued(a: AdPart, now: int, dateText: string)
    requires Consistent(a)
    ensures Consistent(UpdateAd(a, now, dateText))
    ensures a.q.showAd ==> UpdateAd(a, now, dateText).view == Some(Expected(a.q, now, dateText))
    ensures !a.q.showAd ==> UpdateAd(a, now, dateText).view.None?
  {
    var a1 := AdVisibility(a, true);
    assert Consistent(a1);
    if a.q.showAd {
      AdStartTimeShowsQueued(a1, now, dateText);
      var a2 := AdStartTime(a1, now, dateText);
      var a3 := AdMessages(a2);
      assert a3.view.value.customMsg == a.q.customMsg;
    }
  }

  /** As written, hiding the advert and showing it again loses a custom
      message that did not change in between: the message is still queued
      but the new overlay shows none. */
  lemma RecreatedAdLosesMessage()
    ensures
      var a0 := Fresh.ad.(q := Fresh.ad.q.(customMsg := Some("Back soon")));
      var a1 := UpdateAdAsWritten(a0, 0, "");
      var a2 := UpdateAdAsWritten(a1.(q := a1.q.(showAd := false)), 0, "");
      var a3 := UpdateAdAsWritten(a2.(q := a2.q.(showAd := true)), 0, "");
      a1.view.value.customMsg == Some("Back soon")
      && a3.q.customMsg == Some("Back soon") && a3.view == Some(EmptyAd)
      && !Consistent(a3)
  {
  }

  /** `updatePlayer()` of the adapter: a reload when the type, preload or
      visibility differ from the queued ones or the URIs changed. */
  predicate ReloadRequired(p: PlayerPart)
  {
    p.playerType != p.queuedPlayerType || p.preload != Some(p.queuedPreload)
    || p.showPlayer != Some(p.queuedShowPlayer) || p.urisChanged
  }

  datatype Reloaded = Reloaded(player: PlayerPart, events: seq<string>)

  /** `destroyPlayer()`: nothing happens when there is no player. */
  function DestroyPlayer(p: PlayerPart): (r: Reloaded)
    ensures !r.player.created && r.player.(created := p.created) == p
    ensures !p.created ==> r == Reloaded(p, [])
    ensures p.created ==> r.events == ["playerDestroying", "playerDestroyed"]
  {
    if !p.created then Reloaded(p, [])
    else Reloaded(p.(created := false), ["playerDestroying", "playerDestroyed"])
  }

  /** `destroyAd()`: nothing happens when there is no overlay. */
  function DestroyAd(a: AdPart): (r: AdPart)
    ensures r.view.None? && r.(view := a.view) == a
  {
    a.(view := None)
  }

  function UpdatePlayer(p: PlayerPart): (r: Reloaded)
    ensures r.player.autoPlay == Some(p.queuedAutoPlay)
    ensures !ReloadRequired(r.player)
    ensures ReloadRequired(p) ==> r.player.created == p.queuedShowPlayer
    ensures !ReloadRequired(p) ==> r == Reloaded(p.(autoPlay := Some(p.queuedAutoPlay)), [])
    ensures r.player.uris == p.uris && r.player.queuedShowPlayer == p.queuedShowPlayer
    ensures (p.created <==> p.showPlayer == Some(true)) ==> (r.player.created <==> p.queuedShowPlayer)
  {
    var p1 := p.(autoPlay := Some(p.queuedAutoPlay));
    if !ReloadRequired(p) then Reloaded(p1, [])
    else
      var p2 := p1.(playerType := p.queuedPlayerType, preload := Some(p.queuedPreload),
                    showPlayer := Some(p.queuedShowPlayer), urisChanged := false);
      var d := DestroyPlayer(p2);
      if !p.queuedShowPlayer then d
      else Reloaded(d.player.(created := true), d.events)
  }

  /** A second `updatePlayer()` with nothing newly queued does nothing. */
  lemma UpdatePlayerIdempotent(p: PlayerPart)
    ensures UpdatePlayer(UpdatePlayer(p).player) == UpdatePlayer(p).(events := [])
  {
  }

  /** Queuing the committed URIs again after a render needs no reload. */
  method SameUrisNeedNoReload(p: PlayerPart) returns (r: PlayerPart)
    ensures r == UpdatePlayer(p).player
    ensures !ReloadRequired(r)
  {
    var committed := UpdatePlayer(p).player;
    r := SetPlayerUris(committed, committed.uris);
  }

  /** What exists matches what was last committed: a video player exists
      exactly when it was last shown, and the overlay exists exactly when
      the advert was last applied as shown. */
  predicate Committed(c: Component)
  {
    (c.player.created <==> c.player.showPlayer == Some(true))
    && (c.ad.view.Some? <==> c.ad.s.showAd == Some(true))
  }

  /** `render()`: the advert, with `updateAd` as written, then the player.
      From a committed component, the player exists afterwards exactly when
      it was queued as shown and the overlay exactly when the advert was. */
  function RenderComponent(c: Component, now: int, dateText: string): (r: (Component, seq<string>))
    ensures !ReloadRequired(r.0.player)
    ensures r.0.ad.s.showAd == Some(c.ad.q.showAd) && r.0.ad.q.(willBeLive := c.ad.q.willBeLive) == c.ad.q
    ensures Committed(c) ==> Committed(r.0)
    ensures Committed(c) ==> (r.0.player.created <==> c.player.queuedShowPlayer)
    ensures Committed(c) ==> (r.0.ad.view.Some? <==> c.ad.q.showAd)
  {
    var reloaded := UpdatePlayer(c.player);
    (Component(UpdateAdAsWritten(c.ad, now, dateText), reloaded.player), reloaded.events)
  }

  /** A new component is committed: it shows nothing. */
  lemma FreshCommitted()
    ensures Committed(Fresh) && !Fresh.player.created && Fresh.ad.view.None?
  {
  }

  /** `showPlayer(show)` followed by `render()` leaves exactly one of the
      two visible: the video player when `show` holds, the advert
      otherwise. */
  lemma ShowThenRender(c: Component, show: bool, now: int, dateText: string)
    requires Committed(c)
    ensures var r := RenderComponent(ShowPlayer(c, show), now, dateText).0;
      Committed(r) && r.player.created == show && (r.ad.view.Some? <==> !show)
  {
  }

  /** The type given to `setPlayerType` is the one the player is built
      with at the next `render()`, and any other string is refused. */
  lemma TypeReachesPlayer(c: Component, t: string, now: int, dateText: string)
    ensures SetPlayerType(c.player, t).Err? <==> t != "live" && t != "vod"
    ensures SetPlayerType(c.player, t).Ok? ==>
      RenderComponent(c.(player := SetPlayerType(c.player, t).value), now, dateText).0.player.playerType
        == Some(if t == "live" then LiveKind else VodKind)
  {
  }

  /** Destroying twice is the same as destroying once, and quiet. */
  lemma DestroyIdempotent(c: Component)
    ensures var once := DestroyPlayer(c.player);
      DestroyPlayer(once.player) == Reloaded(once.player, [])
      && DestroyAd(DestroyAd(c.ad)) == DestroyAd(c.ad)
  {
  }
}
