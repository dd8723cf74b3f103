/** How the server's decisions and the player's agree: the view counts the
    info endpoint releases and the total the player shows, the like
    requests the player sends and the ones the server records, and the
    addresses the endpoint withholds or shares and what the player then
    plays. */
module Integration {
  import opened Wrappers
  import opened Media
  import opened ControllerState
  import PlayerInfo
  import Render
  import Likes
  import DeviceFilter
  import Reconcile

  /** A viewer without permission never sees a view total below the
      minimum: the player shows the server's total of the released counters,
      or nothing when both were withheld. */
  lemma ShownViewCountRespectsMinimum(st: State, s: Snapshot, permission: bool, vod: Option<int>, stream: Option<int>, minViews: int)
    requires st.cachedData.Some?
    requires (s.vodViewCount, s.streamViewCount) == PlayerInfo.ViewCounts(permission, vod, stream, minViews)
    ensures var shown := Render.GetViewCount(Render.UpdateViewCounts(st, s).state);
      (shown.Some? ==> shown.value == PlayerInfo.Total(vod, stream))
      && (shown.Some? && !permission ==> shown.value >= minViews)
      && (shown.None? <==> (vod.None? && stream.None?) || (!permission && PlayerInfo.Total(vod, stream) < minViews))
  {
    var r := PlayerInfo.ViewCounts(permission, vod, stream, minViews);
    var st' := Render.UpdateViewCounts(st, s).state;
    assert st'.vodViewCount == r.0 && st'.streamViewCount == r.1;
  }

  /** Every request type the player sends is one the server accepts, and
      the server records nothing else: a sent type is recorded exactly when
      a viewer is signed in and the item has a live video (service not
      degraded) or an accessible stream that is not in the "not live"
      state. */
  lemma LikeRequestsAgree(t: string, x: PlayerInfo.LikeTarget)
    ensures PlayerInfo.RegisterLikeSucceeds(Some(t), x) ==> Likes.ParseAction(t).Some?
    ensures Likes.ParseAction(t).Some? ==>
              (PlayerInfo.RegisterLikeSucceeds(Some(t), x) <==>
                 x.userPresent
                 && ((x.hasVideo && x.videoLive && !x.degraded)
                     || (x.hasLiveStream && x.liveStreamAccessible && x.liveStreamState != StateNotLive)))
  {
  }

  /** A video whose addresses the endpoint withholds is never played, on
      any device and whatever the override mode. */
  lemma WithheldVideoNeverPlays(it: PlayerInfo.Item, permission: bool, q: seq<UriGroup>, sourceId: int,
                                s: Snapshot, cfg: Config, d: Device, sg: seq<UriGroup>, overrideMode: bool)
    requires s.videoUris == PlayerInfo.VideoPart(it, permission, q, sourceId).0
    requires !PlayerInfo.VideoShared(it, permission)
    ensures Reconcile.Resolve(s, cfg, sg, DeviceFilter.FilterGroups(s.videoUris, d), overrideMode).playerType != Vod
  {
  }

  /** A shared video with an address this device supports is played
      whenever the stream does not take precedence and the video condition
      holds. */
  lemma SharedVideoPlays(it: PlayerInfo.Item, permission: bool, q: seq<UriGroup>, sourceId: int,
                         s: Snapshot, cfg: Config, d: Device, sg: seq<UriGroup>, overrideMode: bool,
                         g: UriGroup, u: MediaUri)
    requires s.videoUris == PlayerInfo.VideoPart(it, permission, q, sourceId).0
    requires PlayerInfo.VideoShared(it, permission)
    requires g in q && u in g.uris && DeviceFilter.SupportedOn(u, d)
    requires !Reconcile.LiveCondition(s, sg, overrideMode) && Reconcile.VodCondition(s, overrideMode)
    ensures Reconcile.Resolve(s, cfg, sg, DeviceFilter.FilterGroups(s.videoUris, d), overrideMode).playerType == Vod
  {
    var fg := DeviceFilter.FilterGroup(g, d);
    assert u in fg.uris;
    assert fg in DeviceFilter.FilterGroups(q, d);
  }

  /** A stream whose addresses the endpoint withholds leaves the player no
      stream group, so a live pass can only hand over the external page. */
  lemma WithheldStreamOnlyExternal(it: PlayerInfo.Item, permission: bool, q: seq<UriGroup>,
                                   s: Snapshot, cfg: Config, d: Device, vg: seq<UriGroup>, overrideMode: bool)
    requires s.streamUris == PlayerInfo.StreamUris(it, permission, q)
    requires PlayerInfo.StreamUriTypes(it, permission).None?
    ensures Reconcile.StreamGroupsFor(s, d) == []
    ensures var r := Reconcile.Resolve(s, cfg, Reconcile.StreamGroupsFor(s, d), vg, overrideMode);
      r.playerType == Live ==> r.externalUrl.Some?
  {
    assert s.streamUris == [];
    assert DeviceFilter.FilterGroups([], d) == [];
    assert DeviceFilter.StripNonDvr([]) == [];
  }
}
