/** The data the player-info endpoint sends to the browser and the player
    controller reads back: URI groups per quality, stream and video state,
    counters and like state. */
module Media {
  import opened Wrappers

  datatype Device = Desktop | Mobile

  datatype Quality = Quality(id: int, name: string)

  /** One playable address. `supportedDevices` is a comma-separated list of
      device names, or `None` when every device may play it. */
  datatype MediaUri = MediaUri(
    uri: string,
    mediaType: string,
    supportedDevices: Option<string>,
    uriWithDvrSupport: bool)

  /** The addresses that serve one quality. */
  datatype UriGroup = UriGroup(quality: Quality, uris: seq<MediaUri>)

  datatype LikeType = Like | Dislike

  datatype Chapter = Chapter(title: string, time: int)

  /** Live stream states as numbered by the server. */
  const StateNotLive: int := 1
  const StateLive: int := 2
  const StateShowOver: int := 3

  /** One player-info response. Times are whole seconds; `streamState` is
      `None` when the item has no stream. */
  datatype Snapshot = Snapshot(
    id: int,
    title: string,
    uri: string,
    coverUri: string,
    scheduledPublishTime: Option<int>,
    embedData: Option<string>,
    hasStream: bool,
    streamInfoMsg: Option<string>,
    streamState: Option<int>,
    streamUris: seq<UriGroup>,
    availableOnDemand: Option<bool>,
    externalStreamUrl: Option<string>,
    streamViewCount: Option<int>,
    hasVod: bool,
    vodSourceId: Option<int>,
    vodLive: Option<bool>,
    videoUris: seq<UriGroup>,
    vodViewCount: Option<int>,
    vodChapters: Option<seq<Chapter>>,
    vodThumbnails: Option<string>,
    rememberedPlaybackTime: Option<int>,
    numWatchingNow: Option<int>,
    numLikes: Option<int>,
    numDislikes: Option<int>,
    likeType: Option<LikeType>)
  {
    predicate StateIs(n: int) { streamState == Some(n) }

    /** JavaScript truthiness of `vodLive`. */
    predicate VodLiveTruthy() { vodLive == Some(true) }
  }

  /** The quality ids of a list of groups, in order. */
  function QualityIds(gs: seq<UriGroup>): (ids: seq<int>)
    ensures |ids| == |gs|
    ensures forall k :: 0 <= k < |gs| ==> ids[k] == gs[k].quality.id
  {
    if |gs| == 0 then [] else QualityIds(gs[..|gs| - 1]) + [gs[|gs| - 1].quality.id]
  }
}
