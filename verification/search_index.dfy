/** The search index update command for media items: items that need
    reindexing are indexed when accessible and removed otherwise, index
    entries whose media item no longer exists are removed too, and only then
    are the items' index version numbers brought up to date. The search
    service's answers and the database's are inputs. */
module SearchIndex {
  import opened Wrappers

  const IndexFailed: string := "Something went wrong indexing items."
  const RemoveFailed: string := "Something went wrong deleting items from index type."
  const SearchTimedOut: string := "Search request to get ids timed out."
  const SaveFailed: string := "Error updating model version numbers."

  const MediaItemType: string := "mediaItem"

  datatype Playlist = Playlist(id: int, accessible: bool, publishSeconds: int, seriesNo: Option<int>)

  /** A media item that needs reindexing, with its version numbers. */
  datatype Item = Item(
    id: int,
    accessible: bool,
    name: string,
    publishSeconds: int,
    playlists: seq<Playlist>,
    current: int,
    pending: int)

  datatype PlaylistDoc = PlaylistDoc(id: int, publishMs: int, seriesNo: Option<int>)

  datatype ItemDoc = ItemDoc(id: int, name: string, publishMs: int, playlists: seq<PlaylistDoc>)

  /** The search service stores times in milliseconds. */
  function Millis(seconds: int): (ms: int)
    ensures ms / 1000 == seconds && ms % 1000 == 0
  {
    seconds * 1000
  }

  function PlaylistDocOf(p: Playlist): (d: PlaylistDoc)
    ensures d.id == p.id && d.seriesNo == p.seriesNo && d.publishMs / 1000 == p.publishSeconds
  {
    PlaylistDoc(p.id, Millis(p.publishSeconds), p.seriesNo)
  }

  /** The playlist documents of an item: inaccessible playlists are
      skipped, the others kept in order. */
  function PlaylistDocs(ps: seq<Playlist>): (ds: seq<PlaylistDoc>)
    ensures forall d :: d in ds <==> exists p :: p in ps && p.accessible && d == PlaylistDocOf(p)
    ensures |ds| <= |ps|
  {
    if |ps| == 0 then []
    else
      var rest := PlaylistDocs(ps[..|ps| - 1]);
      var last := ps[|ps| - 1];
      assert ps == ps[..|ps| - 1] + [last];
      if last.accessible then rest + [PlaylistDocOf(last)] else rest
  }

  function DocOf(it: Item): (d: ItemDoc)
    ensures d.id == it.id && d.name == it.name && d.publishMs / 1000 == it.publishSeconds
  {
    ItemDoc(it.id, it.name, Millis(it.publishSeconds), PlaylistDocs(it.playlists))
  }

  /** The changed items split into documents to index (the accessible ones)
      and ids to remove (the others), each in order. */
  function Partition(items: seq<Item>): (r: (seq<ItemDoc>, seq<int>))
    ensures |r.0| + |r.1| == |items|
    ensures forall it :: it in items && it.accessible ==> DocOf(it) in r.0
    ensures forall it :: it in items && !it.accessible ==> it.id in r.1
    ensures forall d :: d in r.0 ==> exists it :: it in items && it.accessible && d == DocOf(it)
    ensures forall x :: x in r.1 ==> exists it :: it in items && !it.accessible && x == it.id
  {
    if |items| == 0 then ([], [])
    else
      var rest := Partition(items[..|items| - 1]);
      var last := items[|items| - 1];
      assert items == items[..|items| - 1] + [last];
      if last.accessible then (rest.0 + [DocOf(last)], rest.1) else (rest.0, rest.1 + [last.id])
  }

  /** The ids in `ids` without a database record, in order
      (`array_diff`). */
  function Nonexistent(ids: seq<int>, found: set<int>): (r: seq<int>)
    ensures forall x :: x in r <==> x in ids && x !in found
    ensures |r| <= |ids|
  {
    if |ids| == 0 then []
    else
      var rest := Nonexistent(ids[..|ids| - 1], found);
      assert ids == ids[..|ids| - 1] + [ids[|ids| - 1]];
      if ids[|ids| - 1] !in found then rest + [ids[|ids| - 1]] else rest
  }

  predicate Distinct(s: seq<int>)
  {
    forall i, j :: 0 <= i < j < |s| ==> s[i] != s[j]
  }

  /** `array_unique`: the first occurrence of each value, in order. */
  function Unique(s: seq<int>): (r: seq<int>)
    ensures forall x :: x in r <==> x in s
    ensures Distinct(r)
    ensures |r| <= |s|
  {
    if |s| == 0 then []
    else
      var rest := Unique(s[..|s| - 1]);
      var last := s[|s| - 1];
      assert s == s[..|s| - 1] + [last];
      if last in rest then rest else rest + [last]
  }

  /** Lines of a bulk request: an index header followed by the document,
      or a delete header. */
  datatype BulkLine =
    | IndexHeader(indexType: string, id: int)
    | Document(doc: ItemDoc)
    | DeleteHeader(indexType: string, id: int)

  /** The body indexing `entries`: a header and the document for each. */
  function IndexBody(indexType: string, entries: seq<ItemDoc>): (body: seq<BulkLine>)
    ensures |body| == 2 * |entries|
    ensures forall i :: 0 <= i < |entries| ==>
              body[2 * i] == IndexHeader(indexType, entries[i].id) && body[2 * i + 1] == Document(entries[i])
  {
    var body := seq(2 * |entries|, k requires 0 <= k < 2 * |entries| =>
                      if k % 2 == 0 then IndexHeader(indexType, entries[k / 2].id) else Document(entries[k / 2]));
    assert forall i :: 0 <= i < |entries| ==> (2 * i) % 2 == 0 && (2 * i) / 2 == i
                                              && (2 * i + 1) % 2 == 1 && (2 * i + 1) / 2 == i;
    body
  }

  /** The body removing `ids`: one delete header each. */
  function DeleteBody(indexType: string, ids: seq<int>): (body: seq<BulkLine>)
    ensures |body| == |ids|
    ensures forall i :: 0 <= i < |ids| ==> body[i] == DeleteHeader(indexType, ids[i])
  {
    seq(|ids|, i requires 0 <= i < |ids| => DeleteHeader(indexType, ids[i]))
  }

  /** The search service's answer to a bulk request. */
  datatype BulkResponse = BulkResponse(items: nat, errors: bool)

  /** A bulk answer is accepted when it covers every item without errors. */
  function CheckBulk(resp: BulkResponse, count: nat, failure: string): (r: Option<string>)
    ensures r.None? <==> resp.items == count && !resp.errors
    ensures r.Some? ==> r.value == failure
  {
    if resp.items != count || resp.errors then Some(failure) else None
  }

  /** The answer to the query for every id in the index. */
  datatype SearchResponse = SearchResponse(timedOut: bool, total: int, ids: seq<int>)

  /** The ids in the index: none when the total is not positive. */
  function IndexedIds(resp: SearchResponse): (r: Result<seq<int>>)
    ensures r.Err? <==> resp.timedOut
    ensures r.Ok? ==> r.value == if resp.total > 0 then resp.ids else []
  {
    if resp.timedOut then Err(SearchTimedOut)
    else if resp.total > 0 then Ok(resp.ids) else Ok([])
  }

  /** Brings every item's current version up to its pending one, stopping
      at the first save that fails (`failAt`). */
  function UpdateVersions(items: seq<Item>, failAt: Option<nat>): (r: (seq<Item>, Option<string>))
    ensures |r.0| == |items|
    ensures r.1.Some? <==> failAt.Some? && failAt.value < |items|
    ensures forall i :: 0 <= i < |items| ==>
              r.0[i] == if failAt.None? || i < failAt.value then items[i].(current := items[i].pending) else items[i]
  {
    var stop := if failAt.Some? && failAt.value < |items| then failAt.value else |items|;
    (seq(|items|, i requires 0 <= i < |items| => if i < stop then items[i].(current := items[i].pending) else items[i]),
     if stop < |items| then Some(SaveFailed) else None)
  }

  /** Everything the search service and the database answer during one
      run. */
  datatype Answers = Answers(
    indexResponse: BulkResponse,
    search: SearchResponse,
    found: set<int>,
    deleteResponse: BulkResponse,
    saveFailsAt: Option<nat>)

  /** One run: the bulk requests sent, the items afterwards, and the error
      that stopped the run, if any. */
  datatype Run = Run(requests: seq<seq<BulkLine>>, items: seq<Item>, error: Option<string>)

  /** The bulk request for a body, none when it is empty. */
  function Request(body: seq<BulkLine>): (r: seq<seq<BulkLine>>)
    ensures |r| <= 1
    ensures r == [] <==> body == []
  {
    if body == [] then [] else [body]
  }

  /** The ids to remove: the inaccessible items and the index entries
      without a database record, each once. */
  function Removals(items: seq<Item>, indexed: seq<int>, found: set<int>): (r: seq<int>)
    ensures Distinct(r)
    ensures forall x :: x in r <==>
              (exists it :: it in items && !it.accessible && x == it.id) || (x in indexed && x !in found)
  {
    Unique(Partition(items).1 + Nonexistent(indexed, found))
  }

  /** `fire` for media items, with `syncIndexType`: index, look up the
      index's ids, remove, then update the version numbers. A failure stops
      the run where it happens. */
  function Sync(items: seq<Item>, a: Answers): (r: Run)
    ensures var entries := Partition(items).0;
      entries != [] && (a.indexResponse.items != |entries| || a.indexResponse.errors) ==>
        r == Run(Request(IndexBody(MediaItemType, entries)), items, Some(IndexFailed))
    ensures var entries := Partition(items).0;
      (entries == [] || (a.indexResponse.items == |entries| && !a.indexResponse.errors)) && a.search.timedOut ==>
        r == Run(Request(IndexBody(MediaItemType, entries)), items, Some(SearchTimedOut))
    ensures var entries := Partition(items).0;
      var removals := Removals(items, if a.search.total > 0 then a.search.ids else [], a.found);
      (entries == [] || (a.indexResponse.items == |entries| && !a.indexResponse.errors)) && !a.search.timedOut
      && removals != [] && (a.deleteResponse.items != |removals| || a.deleteResponse.errors) ==>
        r.error == Some(RemoveFailed) && r.items == items
    ensures var entries := Partition(items).0;
      var removals := Removals(items, if a.search.total > 0 then a.search.ids else [], a.found);
      (entries == [] || (a.indexResponse.items == |entries| && !a.indexResponse.errors)) && !a.search.timedOut
      && (removals == [] || (a.deleteResponse.items == |removals| && !a.deleteResponse.errors)) ==>
        (r.items, r.error) == UpdateVersions(items, a.saveFailsAt)
  {
    var (entries, _) := Partition(items);
    var indexRequest := Request(IndexBody(MediaItemType, entries));
    var indexError := if entries == [] then None else CheckBulk(a.indexResponse, |entries|, IndexFailed);
    if indexError.Some? then Run(indexRequest, items, indexError)
    else
      match IndexedIds(a.search)
      case Err(e) => Run(indexRequest, items, Some(e))
      case Ok(indexed) =>
        var removals := Removals(items, indexed, a.found);
        var requests := indexRequest + Request(DeleteBody(MediaItemType, removals));
        var removeError := if removals == [] then None else CheckBulk(a.deleteResponse, |removals|, RemoveFailed);
        if removeError.Some? then Run(requests, items, removeError)
        else
          var (items', saveError) := UpdateVersions(items, a.saveFailsAt);
          Run(requests, items', saveError)
  }

  /** Version numbers move only when indexing and removal both succeeded;
      a run without errors leaves every item at its pending version. */
  lemma VersionsLast(items: seq<Item>, a: Answers)
    ensures var r := Sync(items, a);
      |r.items| == |items|
      && (r.error.None? ==> forall i :: 0 <= i < |items| ==> r.items[i].current == items[i].pending)
      && (r.error.Some? && r.error.value != SaveFailed ==> r.items == items)
      && (r.items != items ==> r.error.None? || r.error == Some(SaveFailed))
  {
  }

  /** The requests: indexing comes first and is sent only when there is
      something to index; removal is sent only when there is something to
      remove; both carry exactly the documents and ids decided on. */
  lemma RequestsSent(items: seq<Item>, a: Answers)
    requires !a.search.timedOut
    requires Partition(items).0 != [] ==> CheckBulk(a.indexResponse, |Partition(items).0|, IndexFailed).None?
    ensures var r := Sync(items, a);
      var entries := Partition(items).0;
      var indexed := IndexedIds(a.search).value;
      var removals := Removals(items, indexed, a.found);
      r.requests == Request(IndexBody(MediaItemType, entries)) + Request(DeleteBody(MediaItemType, removals))
      && (|r.requests| == 0 <==> entries == [] && removals == [])
  {
  }

  /** Nothing changed and nothing stale in the index: no request at all. */
  lemma QuietRun(a: Answers)
    requires !a.search.timedOut && (forall x :: x in a.search.ids ==> x in a.found)
    ensures Sync([], a).requests == []
  {
    var indexed := IndexedIds(a.search).value;
    AllFound(indexed, a.found);
    assert Partition([]).1 + Nonexistent(indexed, a.found) == [];
  }

  /** Ids that all have a record leave nothing to remove. */
  lemma {:induction false} AllFound(xs: seq<int>, known: set<int>)
    requires forall x :: x in xs ==> x in known
    ensures Nonexistent(xs, known) == []
  {
    if |xs| > 0 {
      assert forall x :: x in xs[..|xs| - 1] ==> x in xs;
      AllFound(xs[..|xs| - 1], known);
      var last := xs[|xs| - 1];
      assert last in xs;
      assert last in known;
    }
  }

  /** Every changed item is either indexed or removed, never both, unless
      another changed item shares its id. */
  lemma EachItemOnce(items: seq<Item>, it: Item)
    requires it in items
    requires forall other :: other in items && other.id == it.id ==> other.accessible == it.accessible
    ensures var (entries, removals) := Partition(items);
      (it.accessible ==> DocOf(it) in entries && it.id !in removals)
      && (!it.accessible ==> it.id in removals && forall d :: d in entries ==> d.id != it.id)
  {
  }
}
