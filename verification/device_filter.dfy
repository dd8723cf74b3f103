/** Selection of the addresses this device can play, and removal of the
    non-DVR addresses once a stream is over. */
module DeviceFilter {
  import opened Wrappers
  import opened Text
  import opened Media

  function DeviceName(d: Device): string
  {
    match d
    case Mobile => "mobile"
    case Desktop => "desktop"
  }

  /** An address without a device list plays everywhere; otherwise the
      device's name must be one of the comma-separated entries. */
  predicate SupportedOn(u: MediaUri, d: Device)
  {
    u.supportedDevices.None? || DeviceName(d) in Split(u.supportedDevices.value, ',')
  }

  /** `a` is `b` with some elements left out, order kept. */
  predicate IsSubsequence<T(==)>(a: seq<T>, b: seq<T>)
    decreases |b|
  {
    if |a| == 0 then true
    else if |b| == 0 then false
    else if a[|a| - 1] == b[|b| - 1] then IsSubsequence(a[..|a| - 1], b[..|b| - 1])
    else IsSubsequence(a, b[..|b| - 1])
  }

  lemma {:induction false} SubsequenceRefl<T>(a: seq<T>)
    ensures IsSubsequence(a, a)
    decreases |a|
  {
    if |a| > 0 {
      SubsequenceRefl(a[..|a| - 1]);
    }
  }

  /** The addresses of one group this device supports, in their order. */
  function FilterUris(us: seq<MediaUri>, d: Device): (r: seq<MediaUri>)
    ensures forall u :: u in r <==> u in us && SupportedOn(u, d)
    ensures |r| <= |us|
  {
    if |us| == 0 then []
    else
      var init := FilterUris(us[..|us| - 1], d);
      var u := us[|us| - 1];
      assert us == us[..|us| - 1] + [u];
      if SupportedOn(u, d) then init + [u] else init
  }

  function FilterGroup(g: UriGroup, d: Device): UriGroup
  {
    UriGroup(g.quality, FilterUris(g.uris, d))
  }

  /** `extractUrisForDevice`: each group keeps its quality and the addresses
      the device supports; groups left without addresses are dropped. */
  function FilterGroups(gs: seq<UriGroup>, d: Device): (r: seq<UriGroup>)
    ensures |r| <= |gs|
    ensures forall g :: g in r ==> |g.uris| > 0
    ensures forall g, u :: g in r && u in g.uris ==> SupportedOn(u, d)
    ensures forall g :: g in r <==> exists h :: h in gs && g == FilterGroup(h, d) && |g.uris| > 0
  {
    if |gs| == 0 then []
    else
      var init := FilterGroups(gs[..|gs| - 1], d);
      var g := FilterGroup(gs[|gs| - 1], d);
      assert gs == gs[..|gs| - 1] + [gs[|gs| - 1]];
      if |g.uris| > 0 then init + [g] else init
  }

  lemma {:induction false} FilterUrisSubsequence(us: seq<MediaUri>, d: Device)
    ensures IsSubsequence(FilterUris(us, d), us)
    decreases |us|
  {
    if |us| > 0 {
      var init := us[..|us| - 1];
      var u := us[|us| - 1];
      FilterUrisSubsequence(init, d);
      var r := FilterUris(us, d);
      if SupportedOn(u, d) {
        assert r == FilterUris(init, d) + [u];
        assert r[..|r| - 1] == FilterUris(init, d);
      } else {
        assert r == FilterUris(init, d);
        SubsequenceDropLast(r, us);
      }
    }
  }

  lemma {:induction false} FilterUrisIdempotent(us: seq<MediaUri>, d: Device)
    ensures FilterUris(FilterUris(us, d), d) == FilterUris(us, d)
    decreases |us|
  {
    if |us| > 0 {
      var init := us[..|us| - 1];
      var u := us[|us| - 1];
      FilterUrisIdempotent(init, d);
      var r := FilterUris(us, d);
      if SupportedOn(u, d) {
        assert r[..|r| - 1] == FilterUris(init, d);
      }
    }
  }

  /** Filtering an already filtered list changes nothing. */
  lemma {:induction false} FilterGroupsIdempotent(gs: seq<UriGroup>, d: Device)
    ensures FilterGroups(FilterGroups(gs, d), d) == FilterGroups(gs, d)
    decreases |gs|
  {
    if |gs| > 0 {
      var init := gs[..|gs| - 1];
      var g := FilterGroup(gs[|gs| - 1], d);
      FilterGroupsIdempotent(init, d);
      var r := FilterGroups(gs, d);
      if |g.uris| > 0 {
        assert r[..|r| - 1] == FilterGroups(init, d);
        FilterUrisIdempotent(gs[|gs| - 1].uris, d);
        assert FilterGroup(g, d) == g;
      }
    }
  }

  /** The surviving groups keep the order of the input (compared by their
      qualities, which the filter never changes). */
  lemma {:induction false} FilterGroupsKeepsOrder(gs: seq<UriGroup>, d: Device)
    ensures IsSubsequence(QualityIds(FilterGroups(gs, d)), QualityIds(gs))
    decreases |gs|
  {
    if |gs| > 0 {
      var init := gs[..|gs| - 1];
      var g := FilterGroup(gs[|gs| - 1], d);
      FilterGroupsKeepsOrder(init, d);
      var r := FilterGroups(gs, d);
      var ids := QualityIds(gs);
      assert ids[..|ids| - 1] == QualityIds(init);
      if |g.uris| > 0 {
        assert r == FilterGroups(init, d) + [g];
        assert QualityIds(r)[..|r| - 1] == QualityIds(FilterGroups(init, d));
      } else {
        assert r == FilterGroups(init, d);
        SubsequenceDropLast(QualityIds(r), ids);
      }
    }
  }

  lemma {:induction false} SubsequenceDropLast<T>(a: seq<T>, b: seq<T>)
    requires |b| > 0 && IsSubsequence(a, b[..|b| - 1])
    ensures IsSubsequence(a, b)
    decreases |a| + |b|
  {
    if |a| > 0 && a[|a| - 1] == b[|b| - 1] {
      SubsequenceWeaken(a, b[..|b| - 1]);
    }
  }

  /** Dropping the last element of a subsequence keeps it a subsequence. */
  lemma {:induction false} SubsequenceWeaken<T>(a: seq<T>, b: seq<T>)
    requires |a| > 0 && IsSubsequence(a, b)
    ensures IsSubsequence(a[..|a| - 1], b)
    decreases |a| + |b|
  {
    if |b| > 0 {
      if a[|a| - 1] == b[|b| - 1] {
        SubsequenceDropLast(a[..|a| - 1], b);
      } else {
        SubsequenceWeaken(a, b[..|b| - 1]);
        SubsequenceDropLast(a[..|a| - 1], b);
      }
    }
  }

  /** `extractUrisForDevice` as written: one pass over the groups and, inside
      it, one pass over each group's addresses. */
  method ExtractUrisForDevice(gs: seq<UriGroup>, d: Device) returns (r: seq<UriGroup>)
    ensures r == FilterGroups(gs, d)
  {
    r := [];
    var i := 0;
    while i < |gs|
      invariant 0 <= i <= |gs|
      invariant r == FilterGroups(gs[..i], d)
    {
      var group := gs[i];
      var kept: seq<MediaUri> := [];
      var j := 0;
      while j < |group.uris|
        invariant 0 <= j <= |group.uris|
        invariant kept == FilterUris(group.uris[..j], d)
      {
        var u := group.uris[j];
        assert group.uris[..j + 1][..j] == group.uris[..j];
        if SupportedOn(u, d) {
          kept := kept + [u];
        }
        j := j + 1;
      }
      assert group.uris[..j] == group.uris;
      assert gs[..i + 1][..i] == gs[..i];
      if |kept| > 0 {
        r := r + [UriGroup(group.quality, kept)];
      }
      i := i + 1;
    }
    assert gs[..i] == gs;
  }

  /** The addresses of a group that support DVR, in their order. */
  function KeepDvr(us: seq<MediaUri>): (r: seq<MediaUri>)
    ensures forall u :: u in r <==> u in us && u.uriWithDvrSupport
  {
    if |us| == 0 then []
    else if us[0].uriWithDvrSupport then [us[0]] + KeepDvr(us[1..])
    else KeepDvr(us[1..])
  }

  /** Once a stream is over only DVR addresses remain, and groups left
      without addresses are removed. */
  function StripNonDvr(gs: seq<UriGroup>): (r: seq<UriGroup>)
    ensures |r| <= |gs|
    ensures forall g :: g in r ==> |g.uris| > 0
    ensures forall g, u :: g in r && u in g.uris ==> u.uriWithDvrSupport
    ensures forall g :: g in r <==> exists h :: h in gs && g == UriGroup(h.quality, KeepDvr(h.uris)) && |g.uris| > 0
  {
    if |gs| == 0 then []
    else
      var g := UriGroup(gs[0].quality, KeepDvr(gs[0].uris));
      var rest := StripNonDvr(gs[1..]);
      assert gs == [gs[0]] + gs[1..];
      if |g.uris| > 0 then [g] + rest else rest
  }

  /** The removal loop as written: groups and addresses are visited from
      the last to the first and removed in place. */
  method StripNonDvrInPlace(gs: seq<UriGroup>) returns (r: seq<UriGroup>)
    ensures r == StripNonDvr(gs)
  {
    r := [];
    var i := |gs|;
    while i > 0
      invariant 0 <= i <= |gs|
      invariant r == StripNonDvr(gs[i..])
    {
      i := i - 1;
      var uris := gs[i].uris;
      var kept: seq<MediaUri> := [];
      var j := |uris|;
      while j > 0
        invariant 0 <= j <= |uris|
        invariant kept == KeepDvr(uris[j..])
      {
        j := j - 1;
        assert uris[j..][1..] == uris[j + 1..];
        if uris[j].uriWithDvrSupport {
          kept := [uris[j]] + kept;
        }
      }
      assert uris[0..] == uris;
      assert gs[i..][1..] == gs[i + 1..];
      if |kept| > 0 {
        r := [UriGroup(gs[i].quality, kept)] + r;
      }
    }
  }

  /** Removing non-DVR addresses keeps the device filter's guarantees: the
      groups are still non-empty and every address still plays here. */
  lemma {:induction false} StripKeepsDeviceSupport(gs: seq<UriGroup>, d: Device)
    requires forall g, u :: g in gs && u in g.uris ==> SupportedOn(u, d)
    ensures forall g, u :: g in StripNonDvr(gs) && u in g.uris ==> SupportedOn(u, d)
  {
    forall g, u | g in StripNonDvr(gs) && u in g.uris
      ensures SupportedOn(u, d)
    {
      var h :| h in gs && g == UriGroup(h.quality, KeepDvr(h.uris)) && |g.uris| > 0;
      assert u in h.uris;
    }
  }

  lemma {:induction false} KeepDvrIdempotent(us: seq<MediaUri>)
    ensures KeepDvr(KeepDvr(us)) == KeepDvr(us)
    decreases |us|
  {
    if |us| > 0 {
      KeepDvrIdempotent(us[1..]);
    }
  }

  /** Stripping twice is the same as stripping once. */
  lemma {:induction false} StripNonDvrIdempotent(gs: seq<UriGroup>)
    ensures StripNonDvr(StripNonDvr(gs)) == StripNonDvr(gs)
    decreases |gs|
  {
    if |gs| > 0 {
      StripNonDvrIdempotent(gs[1..]);
      KeepDvrIdempotent(gs[0].uris);
    }
  }
}
