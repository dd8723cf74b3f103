/** The live stream administration pages: the list page's bounds and row
    text, and the rebuilding of a stream's addresses from the edit form,
    including the device support choice that the player later filters on.
    Permissions, validation and the database are inputs. */
module LiveStreams {
  import opened Wrappers
  import opened Text
  import opened Media
  import opened DeviceFilter

  /** The device list stored for an address: "pc" is desktop only, "mobile"
      mobile only, and any other choice (or a value that is not a string,
      `None`) sets no restriction. */
  function SupportedDevices(support: Option<string>): (r: Option<string>)
    ensures r == Some("desktop") <==> support == Some("pc")
    ensures r == Some("mobile") <==> support == Some("mobile")
    ensures r.None? <==> support != Some("pc") && support != Some("mobile")
  {
    if support == Some("pc") then Some("desktop")
    else if support == Some("mobile") then Some("mobile")
    else None
  }

  /** An address is enabled unless its support choice is "none". */
  predicate UriEnabled(support: Option<string>)
  {
    support != Some("none")
  }

  /** One address as submitted in the form. */
  datatype SubmittedUri = SubmittedUri(
    qualityId: int,
    url: string,
    dvrBridgeUrl: Option<string>,
    nativeDvr: bool,
    mediaType: string,
    support: Option<string>)

  /** One stored address of a live stream. */
  datatype StoredUri = StoredUri(
    qualityId: int,
    uri: string,
    dvrBridgeUri: Option<string>,
    hasDvr: bool,
    mediaType: string,
    supportedDevices: Option<string>,
    enabled: bool)

  function Store(a: SubmittedUri): (u: StoredUri)
    ensures u.enabled <==> a.support != Some("none")
    ensures u.supportedDevices == SupportedDevices(a.support)
    ensures u.uri == a.url && u.qualityId == a.qualityId && u.mediaType == a.mediaType && u.hasDvr == a.nativeDvr
  {
    StoredUri(a.qualityId, a.url, a.dvrBridgeUrl, a.nativeDvr, a.mediaType, SupportedDevices(a.support), UriEnabled(a.support))
  }

  /** Saving the edit form: every address of the stream is deleted, then
      one is created per submitted entry, in the submitted order. `uris`
      maps stream ids to their addresses. */
  method RebuildUris(uris: map<int, seq<StoredUri>>, streamId: int, submitted: seq<SubmittedUri>)
    returns (uris': map<int, seq<StoredUri>>)
    ensures streamId in uris'
    ensures |uris'[streamId]| == |submitted|
    ensures forall i :: 0 <= i < |submitted| ==> uris'[streamId][i] == Store(submitted[i])
    ensures forall k :: k != streamId ==> (k in uris' <==> k in uris) && (k in uris ==> uris'[k] == uris[k])
  {
    uris' := uris[streamId := []];
    var i := 0;
    while i < |submitted|
      invariant 0 <= i <= |submitted|
      invariant streamId in uris' && |uris'[streamId]| == i
      invariant forall j :: 0 <= j < i ==> uris'[streamId][j] == Store(submitted[j])
      invariant forall k :: k != streamId ==> (k in uris' <==> k in uris) && (k in uris ==> uris'[k] == uris[k])
    {
      uris' := uris'[streamId := uris'[streamId] + [Store(submitted[i])]];
      i := i + 1;
    }
  }

  /** The address the player receives for a stored one. */
  function ToMediaUri(u: StoredUri): MediaUri
  {
    MediaUri(u.uri, u.mediaType, u.supportedDevices, u.hasDvr)
  }

  /** A name without commas is a device list of that one name. */
  lemma SplitSingle(s: string)
    requires ',' !in s
    ensures Split(s, ',') == [s]
  {
  }

  /** The support choice reaches the player's device filter as meant:
      "pc" plays on desktops only, "mobile" on mobiles only, and every other
      choice everywhere. */
  lemma SupportReachesPlayer(a: SubmittedUri, d: Device)
    ensures SupportedOn(ToMediaUri(Store(a)), d) <==>
              (a.support == Some("pc") ==> d == Desktop) && (a.support == Some("mobile") ==> d == Mobile)
  {
    SplitSingle("desktop");
    SplitSingle("mobile");
    assert DeviceName(Mobile) != "desktop";
    assert DeviceName(Desktop) != "mobile";
  }

  /** The list page is refused with a 404 when it is not the first page and
      starts past the last live stream. */
  predicate PageNotFound(pageNo: int, startIndex: int, count: int)
  {
    pageNo > 0 && startIndex > count - 1
  }

  /** One live stream as the list query returns it. */
  datatype Listed = Listed(id: int, name: string, description: Option<string>, enabled: bool,
                           shownAsLivestream: bool, timeCreated: string)

  /** One row of the list page, as shown. */
  datatype Row = Row(
    enabled: string,
    enabledCss: string,
    shownAsLivestream: string,
    shownAsLivestreamCss: string,
    name: string,
    description: string,
    timeCreated: string,
    playerUri: string,
    editUri: string,
    id: int)

  function YesNo(b: bool): (r: string)
    ensures r == "Yes" <==> b
    ensures r == "No" <==> !b
  {
    if b then "Yes" else "No"
  }

  const NoDescription: string := "[No Description]"

  /** The row for a live stream: each flag as "Yes" in green or "No" in
      red. */
  function RowFor(adminBase: string, a: Listed): (r: Row)
    ensures r.description == if a.description.Some? then a.description.value else NoDescription
    ensures r.name == a.name && r.id == a.id && r.timeCreated == a.timeCreated
    ensures r.playerUri == adminBase + "/livestreams/player/" + IntToString(a.id)
    ensures r.editUri == adminBase + "/livestreams/edit/" + IntToString(a.id)
    ensures (r.enabled == "Yes" <==> a.enabled) && (r.enabled == "No" <==> !a.enabled)
    ensures (r.enabledCss == "text-success" <==> a.enabled) && (r.enabledCss == "text-danger" <==> !a.enabled)
    ensures (r.shownAsLivestream == "Yes" <==> a.shownAsLivestream) && (r.shownAsLivestream == "No" <==> !a.shownAsLivestream)
    ensures (r.shownAsLivestreamCss == "text-success" <==> a.shownAsLivestream)
            && (r.shownAsLivestreamCss == "text-danger" <==> !a.shownAsLivestream)
  {
    Row(YesNo(a.enabled), if a.enabled then "text-success" else "text-danger",
        YesNo(a.shownAsLivestream), if a.shownAsLivestream then "text-success" else "text-danger",
        a.name,
        if a.description.Some? then a.description.value else NoDescription,
        a.timeCreated,
        adminBase + "/livestreams/player/" + IntToString(a.id),
        adminBase + "/livestreams/edit/" + IntToString(a.id),
        a.id)
  }

  /** The rows for a run of live streams, one each, in order. */
  function Rows(adminBase: string, ls: seq<Listed>): (rs: seq<Row>)
    ensures |rs| == |ls|
    ensures forall i :: 0 <= i < |ls| ==> rs[i] == RowFor(adminBase, ls[i])
  {
    seq(|ls|, i requires 0 <= i < |ls| => RowFor(adminBase, ls[i]))
  }

  /** Where a page starting at `startIndex` ends: a page length on, or at
      the end of the list. */
  function PageEnd(startIndex: nat, perPage: nat, count: nat): (e: nat)
    ensures e <= count && e <= startIndex + perPage
    ensures e == startIndex + perPage || e == count
  {
    if startIndex + perPage <= count then startIndex + perPage else count
  }

  /** `getIndex`: `ordered` is every matching live stream in the page's
      order (name, then description, then newest first); the page starting
      at `startIndex` holds at most `perPage` of them. A later page that
      starts past the last stream is a 404, shown as `None`. */
  function ListPage(adminBase: string, ordered: seq<Listed>, pageNo: int, startIndex: nat, perPage: nat): (r: Option<seq<Row>>)
    ensures r.None? <==> PageNotFound(pageNo, startIndex, |ordered|)
    ensures r.Some? && startIndex >= |ordered| ==> r.value == []
    ensures r.Some? && startIndex < |ordered| ==>
              |r.value| == (if startIndex + perPage <= |ordered| then perPage else |ordered| - startIndex)
              && forall i :: 0 <= i < |r.value| ==> r.value[i] == RowFor(adminBase, ordered[startIndex + i])
    ensures r.Some? && startIndex < |ordered| ==> r.value == Rows(adminBase, ordered[startIndex..PageEnd(startIndex, perPage, |ordered|)])
  {
    if PageNotFound(pageNo, startIndex, |ordered|) then None
    else if startIndex >= |ordered| then Some([])
    else Some(Rows(adminBase, ordered[startIndex..PageEnd(startIndex, perPage, |ordered|)]))
  }

  /** Rows of two runs of streams are the rows of the first then the rows
      of the second. */
  lemma RowsAppend(adminBase: string, xs: seq<Listed>, ys: seq<Listed>)
    ensures Rows(adminBase, xs + ys) == Rows(adminBase, xs) + Rows(adminBase, ys)
  {
    var l, r := Rows(adminBase, xs + ys), Rows(adminBase, xs) + Rows(adminBase, ys);
    assert |l| == |r|;
    forall i | 0 <= i < |l|
      ensures l[i] == r[i]
    {
      if i >= |xs| {
        assert (xs + ys)[i] == ys[i - |xs|];
      }
    }
  }

  /** The page starting at `start` followed by the one after it lists the
      rows of the streams from `start` up to two page lengths on, or the end
      of the list. */
  lemma SlicesJoin(adminBase: string, ordered: seq<Listed>, pageNo: nat, start: nat, perPage: nat)
    requires start + perPage < |ordered|
    ensures ListPage(adminBase, ordered, pageNo, start, perPage).Some?
    ensures ListPage(adminBase, ordered, pageNo + 1, start + perPage, perPage).Some?
    ensures ListPage(adminBase, ordered, pageNo, start, perPage).value
            + ListPage(adminBase, ordered, pageNo + 1, start + perPage, perPage).value
            == Rows(adminBase, ordered[start..PageEnd(start, 2 * perPage, |ordered|)])
  {
    var mid := start + perPage;
    var stop := PageEnd(start, 2 * perPage, |ordered|);
    assert PageEnd(start, perPage, |ordered|) == mid;
    assert PageEnd(mid, perPage, |ordered|) == stop;
    assert ordered[start..stop] == ordered[start..mid] + ordered[mid..stop];
    RowsAppend(adminBase, ordered[start..mid], ordered[mid..stop]);
  }

  /** Page `n + 1` starts a page length after page `n`. */
  lemma NextPageStart(pageNo: nat, perPage: nat)
    ensures (pageNo + 1) * perPage == pageNo * perPage + perPage
  {
  }

  /** Consecutive pages join up: a page followed by the next one lists
      exactly the rows of the streams from the first page's start up to two
      page lengths on (or the end of the list), so paging neither skips nor
      repeats a live stream. */
  lemma {:induction false} PagesJoin(adminBase: string, ordered: seq<Listed>, pageNo: nat, perPage: nat)
    requires perPage > 0
    requires (pageNo + 1) * perPage < |ordered|
    ensures ListPage(adminBase, ordered, pageNo, pageNo * perPage, perPage).Some?
    ensures ListPage(adminBase, ordered, pageNo + 1, (pageNo + 1) * perPage, perPage).Some?
    ensures ListPage(adminBase, ordered, pageNo, pageNo * perPage, perPage).value
            + ListPage(adminBase, ordered, pageNo + 1, (pageNo + 1) * perPage, perPage).value
            == Rows(adminBase, ordered[pageNo * perPage .. PageEnd(pageNo * perPage, 2 * perPage, |ordered|)])
  {
    var start, mid := pageNo * perPage, (pageNo + 1) * perPage;
    assert mid == start + perPage by {
      NextPageStart(pageNo, perPage);
    }
    SlicesJoin(adminBase, ordered, pageNo, start, perPage);
  }
}
