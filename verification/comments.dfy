/** `postComments`: one page of an item's comments, identified by id,
    either from a given comment onwards or up to it (the latest ones when
    the id is -1). The comments are modelled by their ids in ascending
    order, which is the order the database query sorts by. */
module Comments {
  import opened Wrappers
  import opened Text

  predicate Ascending(s: seq<int>)
  {
    forall i, j :: 0 <= i < j < |s| ==> s[i] < s[j]
  }

  /** Appending the last element of an ascending list to an ascending
      selection of the others keeps it ascending. */
  lemma AscendingSnoc(s: seq<int>, r: seq<int>)
    requires |s| > 0
    requires forall y :: y in r ==> y in s[..|s| - 1]
    ensures Ascending(s) && Ascending(r) ==> Ascending(r + [s[|s| - 1]])
  {
    if Ascending(s) && Ascending(r) {
      var t := r + [s[|s| - 1]];
      forall i, j | 0 <= i < j < |t|
        ensures t[i] < t[j]
      {
        if j == |t| - 1 {
          assert t[i] == r[i] && r[i] in r;
          assert t[i] in s[..|s| - 1];
          var k :| 0 <= k < |s| - 1 && s[k] == t[i];
        }
      }
    }
  }

  /** The ids at or above `x`, in order (`where id >= x`). */
  function AtLeast(s: seq<int>, x: int): (r: seq<int>)
    ensures forall y :: y in r <==> y in s && y >= x
    ensures Ascending(s) ==> Ascending(r)
  {
    if |s| == 0 then []
    else
      var rest := AtLeast(s[..|s| - 1], x);
      assert s == s[..|s| - 1] + [s[|s| - 1]];
      AscendingSnoc(s, rest);
      if s[|s| - 1] >= x then rest + [s[|s| - 1]] else rest
  }

  /** The ids at or below `x`, in order (`where id <= x`). */
  function AtMost(s: seq<int>, x: int): (r: seq<int>)
    ensures forall y :: y in r <==> y in s && y <= x
    ensures Ascending(s) ==> Ascending(r)
  {
    if |s| == 0 then []
    else
      var rest := AtMost(s[..|s| - 1], x);
      assert s == s[..|s| - 1] + [s[|s| - 1]];
      AscendingSnoc(s, rest);
      if s[|s| - 1] <= x then rest + [s[|s| - 1]] else rest
  }

  /** The ids other than `x`, in order. */
  function Without(s: seq<int>, x: int): (r: seq<int>)
    ensures forall y :: y in r <==> y in s && y != x
    ensures Ascending(s) ==> Ascending(r)
    ensures |r| <= |s|
  {
    if |s| == 0 then []
    else
      var rest := Without(s[..|s| - 1], x);
      assert s == s[..|s| - 1] + [s[|s| - 1]];
      AscendingSnoc(s, rest);
      if s[|s| - 1] != x then rest + [s[|s| - 1]] else rest
  }

  function Reverse(s: seq<int>): (r: seq<int>)
    ensures |r| == |s|
    ensures forall i :: 0 <= i < |s| ==> r[i] == s[|s| - 1 - i]
  {
    if |s| == 0 then [] else [s[|s| - 1]] + Reverse(s[..|s| - 1])
  }

  /** `limit(k)`: at most the first `k`. */
  function Take(s: seq<int>, k: nat): (r: seq<int>)
    ensures |r| == if |s| < k then |s| else k
    ensures r == s[..|r|]
  {
    if |s| <= k then s else s[..k]
  }

  datatype Page = Page(ids: seq<int>, more: bool)

  const IdMissing: string := "Id must be set."
  const BadLaterRequest: string := "If the id is -1 then load_later_comments must be false."

  /** The rows the query returns before the requested comment itself is
      skipped: one more than a page is fetched, `more` says whether that
      extra row came back, and it is dropped. Earlier comments are fetched
      newest first and turned round. */
  function Rows(all: seq<int>, id: int, loadLater: bool, n: nat): (p: Page)
  {
    if loadLater then
      var fetched := Take(AtLeast(all, id), n + 1);
      var more := |fetched| == n + 1;
      Page(if more then fetched[..n] else fetched, more)
    else
      var candidates := if id != -1 then AtMost(all, id) else all;
      var fetched := Take(Reverse(candidates), n + 1);
      var more := |fetched| == n + 1;
      Page(Reverse(if more then fetched[..n] else fetched), more)
  }

  /** The response: the id is required and read with `intval`; -1 with
      later comments is refused; the comment with the given id is never
      returned. */
  function FetchComments(all: seq<int>, idParam: Option<string>, loadLater: bool, n: nat): (r: Result<Page>)
    ensures idParam.None? ==> r == Err(IdMissing)
    ensures idParam.Some? && IntVal(idParam.value) == -1 && loadLater ==> r == Err(BadLaterRequest)
    ensures r.Ok? ==> |r.value.ids| <= n
    ensures r.Ok? ==> IntVal(idParam.value) != -1 ==> IntVal(idParam.value) !in r.value.ids
    ensures r.Ok? ==> forall y :: y in r.value.ids ==> y in all
  {
    if idParam.None? then Err(IdMissing)
    else
      var id := IntVal(idParam.value);
      if id == -1 && loadLater then Err(BadLaterRequest)
      else
        var rows := Rows(all, id, loadLater, n);
        RowsAreAPage(all, id, loadLater, n);
        assert forall y :: y in rows.ids ==> y in all;
        Ok(Page(if id != -1 then Without(rows.ids, id) else rows.ids, rows.more))
  }

  /** The comments the query chooses from. */
  function Candidates(all: seq<int>, id: int, loadLater: bool): (c: seq<int>)
    ensures Ascending(all) ==> Ascending(c)
    ensures forall y :: y in c ==> y in all
    ensures loadLater ==> forall y :: y in c ==> y >= id
    ensures !loadLater && id != -1 ==> forall y :: y in c ==> y <= id
  {
    if loadLater then AtLeast(all, id) else if id != -1 then AtMost(all, id) else all
  }

  function Min(a: int, b: int): int
  {
    if a < b then a else b
  }

  /** Later comments: the first `n` candidates. */
  lemma LaterRowsAreFirstN(all: seq<int>, id: int, n: nat)
    ensures var c := Candidates(all, id, true);
      var p := Rows(all, id, true, n);
      (p.more <==> |c| > n) && p.ids == c[..Min(|c|, n)]
  {
  }

  /** Earlier comments: the last `n` candidates, in ascending order. */
  lemma EarlierRowsAreLastN(all: seq<int>, id: int, n: nat)
    ensures var c := Candidates(all, id, false);
      var p := Rows(all, id, false, n);
      (p.more <==> |c| > n) && p.ids == c[|c| - Min(|c|, n)..]
  {
    var c := Candidates(all, id, false);
    var fetched := Take(Reverse(c), n + 1);
    var kept := if |fetched| == n + 1 then fetched[..n] else fetched;
    var lo := |c| - Min(|c|, n);
    assert |kept| == |c| - lo;
    forall i | 0 <= i < |kept|
      ensures Reverse(kept)[i] == c[lo + i]
    {
      assert Reverse(kept)[i] == kept[|kept| - 1 - i] == Reverse(c)[|kept| - 1 - i];
    }
    assert Reverse(kept) == c[lo..];
  }

  /** The rows are the first `n` comments from the id on, or the last `n`
      up to it; `more` says there were further ones in that direction. */
  lemma RowsAreAPage(all: seq<int>, id: int, loadLater: bool, n: nat)
    ensures var c := Candidates(all, id, loadLater);
      var p := Rows(all, id, loadLater, n);
      (p.more <==> |c| > n)
      && (loadLater ==> p.ids == c[..Min(|c|, n)])
      && (!loadLater ==> p.ids == c[|c| - Min(|c|, n)..])
      && |p.ids| <= n
      && (forall y :: y in p.ids ==> y in c)
  {
    if loadLater {
      LaterRowsAreFirstN(all, id, n);
    } else {
      EarlierRowsAreLastN(all, id, n);
    }
  }

  /** A slice of an ascending list is ascending. */
  lemma SliceAscending(c: seq<int>, lo: nat, hi: nat)
    requires Ascending(c) && lo <= hi <= |c|
    ensures Ascending(c[lo..hi])
  {
  }

  /** The rows of an ascending list are ascending. */
  lemma RowsAscending(all: seq<int>, id: int, loadLater: bool, n: nat)
    requires Ascending(all)
    ensures Ascending(Rows(all, id, loadLater, n).ids)
  {
    RowsAreAPage(all, id, loadLater, n);
    var c := Candidates(all, id, loadLater);
    if loadLater {
      SliceAscending(c, 0, Min(|c|, n));
    } else {
      SliceAscending(c, |c| - Min(|c|, n), |c|);
      assert c[|c| - Min(|c|, n)..] == c[|c| - Min(|c|, n)..|c|];
    }
  }

  /** Pages are in ascending order and lie on the requested side of the
      given id. */
  lemma PageIsOrdered(all: seq<int>, idParam: Option<string>, loadLater: bool, n: nat)
    requires Ascending(all)
    requires FetchComments(all, idParam, loadLater, n).Ok?
    ensures var page := FetchComments(all, idParam, loadLater, n).value;
      var id := IntVal(idParam.value);
      Ascending(page.ids)
      && (loadLater ==> forall y :: y in page.ids ==> y > id)
      && (!loadLater && id != -1 ==> forall y :: y in page.ids ==> y < id)
  {
    var id := IntVal(idParam.value);
    var rows := Rows(all, id, loadLater, n);
    RowsAreAPage(all, id, loadLater, n);
    RowsAscending(all, id, loadLater, n);
    var ids := if id != -1 then Without(rows.ids, id) else rows.ids;
    assert FetchComments(all, idParam, loadLater, n).value.ids == ids;
    assert forall y :: y in ids ==> y in Candidates(all, id, loadLater);
  }

  /** Whether the viewer may delete a comment: with comment-managing
      permission, or when signed in as the comment's author. Station
      comments have no author. */
  predicate CanDelete(permission: bool, viewer: Option<int>, author: Option<int>)
  {
    permission || (viewer.Some? && author.Some? && viewer.value == author.value)
  }
}
