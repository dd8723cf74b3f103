/** The server side of the player page: what the player-info endpoint
    reveals, which like and watching reports it accepts, the auto-continue
    mode and the playlist neighbours of the current item. Database, login
    and configuration values arrive as inputs. */
module PlayerInfo {
  import opened Wrappers
  import opened Text
  import opened Media

  /** The facts about one media item the info endpoint decides from.
      `liveStreamAccessible` stands for the item's live stream existing and
      being accessible; `hasVideoItem` for an accessible video with a source
      file while the service is not degraded. */
  datatype Item = Item(
    hasLiveStreamItem: bool,
    liveStreamAccessible: bool,
    streamState: Option<int>,
    hasVideoItem: bool,
    vodLive: bool)

  /** The URI types the stream query asks for, or `None` when the stream's
      URIs are withheld. Once the show is over only the recording is
      served. */
  function StreamUriTypes(it: Item, permission: bool): (r: Option<seq<string>>)
    ensures r.Some? <==>
              it.hasLiveStreamItem && it.liveStreamAccessible
              && (it.streamState == Some(StateLive) || it.streamState == Some(StateShowOver)
                  || (it.streamState == Some(StateNotLive) && permission))
    ensures r.Some? ==> (r.value == ["dvrBridge"] <==> it.streamState == Some(StateShowOver))
    ensures r.Some? ==> "dvrBridge" in r.value
  {
    if it.hasLiveStreamItem && it.liveStreamAccessible
       && (it.streamState == Some(StateLive) || it.streamState == Some(StateShowOver)
           || (it.streamState == Some(StateNotLive) && permission))
    then Some(if it.streamState == Some(StateShowOver) then ["dvrBridge"] else ["dvrBridge", "live"])
    else None
  }

  /** The stream URI groups sent: the query's answer when it is asked,
      none otherwise. */
  function StreamUris(it: Item, permission: bool, queried: seq<UriGroup>): (r: seq<UriGroup>)
    ensures |r| > 0 ==> StreamUriTypes(it, permission).Some?
    ensures StreamUriTypes(it, permission).Some? ==> r == queried
  {
    if StreamUriTypes(it, permission).Some? then queried else []
  }

  /** Whether the video's URIs, source file id, chapters and scrub
      thumbnails are sent. */
  predicate VideoShared(it: Item, permission: bool)
  {
    it.hasVideoItem && (it.vodLive || permission)
  }

  /** The video URI groups and source file id sent. */
  function VideoPart(it: Item, permission: bool, queried: seq<UriGroup>, sourceId: int): (r: (seq<UriGroup>, Option<int>))
    ensures r.1.Some? <==> VideoShared(it, permission)
    ensures |r.0| > 0 ==> VideoShared(it, permission)
    ensures VideoShared(it, permission) ==> r == (queried, Some(sourceId))
  {
    if VideoShared(it, permission) then (queried, Some(sourceId)) else ([], None)
  }

  /** The sum of the counters that exist. */
  function Total(vod: Option<int>, stream: Option<int>): int
  {
    (if vod.Some? then vod.value else 0) + (if stream.Some? then stream.value else 0)
  }

  /** Without permission, view counts whose sum is below the minimum are
      both withheld; otherwise they are sent as they are. */
  function ViewCounts(permission: bool, vod: Option<int>, stream: Option<int>, minViews: int): (r: (Option<int>, Option<int>))
    ensures r == (vod, stream) || r == (None, None)
    ensures r == (vod, stream) <==> permission || Total(vod, stream) >= minViews || (vod.None? && stream.None?)
    ensures !permission && (r.0.Some? || r.1.Some?) ==> Total(r.0, r.1) >= minViews
  {
    if !permission && Total(vod, stream) < minViews then (None, None) else (vod, stream)
  }

  /** Without permission, a watching count below the minimum is withheld. */
  function WatchingNow(permission: bool, n: int, minWatching: int): (r: Option<int>)
    ensures r.None? <==> !permission && n < minWatching
    ensures r.Some? ==> r.value == n
  {
    if !permission && n < minWatching then None else Some(n)
  }

  /** `getAutoContinueMode`: the query parameter when it is exactly "0",
      "1" or "2", and 0 otherwise (or when absent). */
  function AutoContinueMode(param: Option<string>): (r: int)
    ensures 0 <= r <= 2
    ensures r == 1 <==> param == Some("1")
    ensures r == 2 <==> param == Some("2")
  {
    var mode := if param.Some? then param.value else "0";
    if mode != "0" && mode != "1" && mode != "2" then 0
    else
      IntValOfDigits(mode);
      IntVal(mode)
  }

  /** A mode written into a link as its digit reads back unchanged, and
      reading normalises: whatever was in the link, writing the mode read
      and reading again gives the same mode. */
  lemma AutoContinueModeRoundTrip(m: nat, param: Option<string>)
    requires m <= 2
    ensures AutoContinueMode(Some(NatToString(m))) == m
    ensures AutoContinueMode(Some(NatToString(AutoContinueMode(param)))) == AutoContinueMode(param)
  {
    NatToStringValue(m);
    assert NatToString(0) == "0" && NatToString(1) == "1" && NatToString(2) == "2";
  }

  /** The facts `postRegisterLike` decides from. */
  datatype LikeTarget = LikeTarget(
    degraded: bool,
    hasVideo: bool,
    videoLive: bool,
    hasLiveStream: bool,
    liveStreamAccessible: bool,
    liveStreamState: int,
    userPresent: bool)

  /** Whether a like, dislike or reset is recorded: the type is one of the
      three, the item has a live video (service not degraded) or an
      accessible live stream not in the "not live" state, and a viewer is
      signed in. */
  function RegisterLikeSucceeds(t: Option<string>, x: LikeTarget): (success: bool)
    ensures success <==>
              t.Some? && t.value in {"like", "dislike", "reset"} && x.userPresent
              && ((!x.degraded && x.hasVideo && x.videoLive)
                  || (x.hasLiveStream && x.liveStreamAccessible && x.liveStreamState != StateNotLive))
  {
    if t.None? then false
    else
      var ty := t.value;
      if ty != "like" && ty != "dislike" && ty != "reset" then false
      else
        var videoAccessible := !x.degraded && x.hasVideo && x.videoLive;
        var streamValid := x.hasLiveStream && x.liveStreamAccessible && x.liveStreamState != StateNotLive;
        (videoAccessible || streamValid) && x.userPresent
  }

  /** What `postRegisterWatching` passes on: whether playing, and the time
      (`None` when reported as unavailable). */
  datatype Watching = Watching(playing: bool, time: Option<int>)

  /** Both fields must be posted; "1" means playing; "unavailable" means no
      time; any other time is read with `intval`. */
  function ParseWatching(playing: Option<string>, time: Option<string>): (r: Option<Watching>)
    ensures r.Some? <==> playing.Some? && time.Some?
    ensures r.Some? ==> (r.value.playing <==> playing == Some("1"))
    ensures r.Some? ==> (r.value.time.None? <==> time == Some("unavailable"))
  {
    if playing.None? || time.None? then None
    else Some(Watching(playing.value == "1", if time.value != "unavailable" then Some(IntVal(time.value)) else None))
  }

  /** A whole-second time the browser sends arrives unchanged. */
  lemma WatchingTimeRoundTrip(t: int, playing: bool)
    requires PhpIntMin <= t <= PhpIntMax
    ensures ParseWatching(Some(if playing then "1" else "0"), Some(IntToString(t)))
            == Some(Watching(playing, Some(t)))
  {
    IntValOfIntToString(t);
    assert IntToString(t) != "unavailable" by {
      if t >= 0 {
        assert IsDigit(IntToString(t)[0]);
      }
    }
  }

  /** One row of a playlist as the player page reads it. */
  datatype Entry = Entry(id: int, accessible: bool, uri: string)

  /** The playlist table: the accessible entries, in order. */
  function Table(items: seq<Entry>): (t: seq<Entry>)
    ensures forall e :: e in t <==> e in items && e.accessible
    ensures |t| <= |items|
  {
    if |items| == 0 then []
    else
      var rest := Table(items[..|items| - 1]);
      assert items == items[..|items| - 1] + [items[|items| - 1]];
      if items[|items| - 1].accessible then rest + [items[|items| - 1]] else rest
  }

  /** The table is built row by row in playlist order: appending an entry
      appends it to the table exactly when it is accessible. */
  lemma TableAppend(items: seq<Entry>, e: Entry)
    ensures Table(items + [e]) == Table(items) + (if e.accessible then [e] else [])
  {
    assert (items + [e])[..|items + [e]| - 1] == items;
  }

  /** A playlist without inaccessible entries is its own table. */
  lemma {:induction false} TableOfAccessible(items: seq<Entry>)
    requires forall k :: 0 <= k < |items| ==> items[k].accessible
    ensures Table(items) == items
  {
    if |items| > 0 {
      var init := items[..|items| - 1];
      TableOfAccessible(init);
      TableAppend(init, items[|items| - 1]);
      assert init + [items[|items| - 1]] == items;
    }
  }

  /** The table index of the current item: the last row with its id, or
      `None` when no row has it. */
  function ActiveIndex(t: seq<Entry>, id: int): (r: Option<nat>)
    ensures r.Some? ==> r.value < |t| && t[r.value].id == id
    ensures r.Some? ==> forall k :: r.value < k < |t| ==> t[k].id != id
    ensures r.None? <==> forall k :: 0 <= k < |t| ==> t[k].id != id
  {
    if |t| == 0 then None
    else if t[|t| - 1].id == id then Some(|t| - 1)
    else ActiveIndex(t[..|t| - 1], id)
  }

  datatype Neighbours = Neighbours(previous: Option<string>, next: Option<string>)

  /** Previous and next URIs from the active index, as the comparisons are
      written: with no active index, `null > 0` is false and `null < n`
      holds when `n` is not 0, and `null + 1` is 1; reading a row that does
      not exist is an error. */
  function NeighboursOf(t: seq<Entry>, active: Option<nat>): (r: Result<Neighbours>)
    ensures active.Some? && active.value < |t| ==> r.Ok?
    ensures active.Some? && active.value < |t| ==>
              (r.value.previous.Some? <==> active.value > 0)
              && (r.value.next.Some? <==> active.value < |t| - 1)
              && (active.value > 0 ==> r.value.previous == Some(t[active.value - 1].uri))
              && (active.value < |t| - 1 ==> r.value.next == Some(t[active.value + 1].uri))
    ensures r.Ok? && r.value.previous.Some? ==> exists k :: 0 <= k < |t| && r.value.previous == Some(t[k].uri)
    ensures r.Ok? && r.value.next.Some? ==> exists k :: 0 <= k < |t| && r.value.next == Some(t[k].uri)
  {
    match active
    case Some(i) =>
      if i >= |t| then Err("Undefined offset")
      else
        Ok(Neighbours(if i > 0 then Some(t[i - 1].uri) else None,
                      if i < |t| - 1 then Some(t[i + 1].uri) else None))
    case None =>
      if |t| - 1 != 0 then
        if 1 < |t| then Ok(Neighbours(None, Some(t[1].uri))) else Err("Undefined offset: 1")
      else Ok(Neighbours(None, None))
  }

  /** The previous and next items of the player page. */
  function PlaylistNeighbours(items: seq<Entry>, currentId: int): (r: Result<Neighbours>)
    ensures (exists e :: e in items && e.accessible && e.id == currentId) ==> r.Ok?
    ensures r.Ok? && r.value.previous.Some? ==>
              exists e :: e in items && e.accessible && r.value.previous == Some(e.uri)
    ensures r.Ok? && r.value.next.Some? ==>
              exists e :: e in items && e.accessible && r.value.next == Some(e.uri)
  {
    var t := Table(items);
    NeighboursOf(t, ActiveIndex(t, currentId))
  }

  /** When the current item is an accessible entry of the playlist, its
      neighbours are the accessible entries just before and after it, and
      there is none at either end. */
  lemma NeighboursOfCurrent(items: seq<Entry>, cur: Entry)
    requires cur in items && cur.accessible
    ensures PlaylistNeighbours(items, cur.id).Ok?
    ensures var t := Table(items);
      var i := ActiveIndex(t, cur.id).value;
      var n := PlaylistNeighbours(items, cur.id).value;
      t[i].id == cur.id
      && (n.previous.None? <==> i == 0) && (n.next.None? <==> i == |t| - 1)
      && (i > 0 ==> n.previous == Some(t[i - 1].uri))
      && (i < |t| - 1 ==> n.next == Some(t[i + 1].uri))
  {
    var t := Table(items);
    assert cur in t;
    var k :| 0 <= k < |t| && t[k] == cur;
    assert ActiveIndex(t, cur.id).Some?;
  }

  /** With no active row, a table of two or more rows offers its second row
      as next, and an empty table fails. */
  lemma NoActiveRow(t: seq<Entry>)
    ensures |t| >= 2 ==> NeighboursOf(t, None) == Ok(Neighbours(None, Some(t[1].uri)))
    ensures |t| == 0 ==> NeighboursOf(t, None).Err?
    ensures |t| == 1 ==> NeighboursOf(t, None) == Ok(Neighbours(None, None))
  {
  }
}
