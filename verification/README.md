# LA1TV player and server rules, modelled in Dafny

This project models the core of the LA1TV website's media player and the
server rules it depends on. Everything is written as immutable datatypes and
pure functions that return the new state together with what was sent.

**Player controller.** This part models `player-controller.js`:
- The reconciliation pass `updatePlayer` and each of its steps:
  - device filtering of the address groups;
  - keeping only DVR addresses once a show is over;
  - resolving the player type (live, video or ad);
  - quality handling and choosing the quality's addresses;
  - positional change detection;
  - the start position and autoplay commands sent to the adapter.
- The state machines around that pass:
  - the resolved autoplay flags driven by play and pause;
  - the optimistic like update;
  - the load latch.
- The counters copied by `render`.
- The remembered playback position.

The adapter is an abstract command log (`ControllerState.Command`). Each pass
returns its new state and the list of adapter commands and events it
produced.

**Player component.** This part models `player-component.js`: the queued
versus committed bookkeeping, the reload decision, showing the player or the
ad, and the countdown and header of the ad.

**Server rules.** This part models the following:
- what the player info endpoint reveals;
- like eligibility;
- the watching report;
- comment pagination;
- previous/next in a playlist;
- upload acceptance, file registration, deletion and the file access chain;
- search index synchronisation;
- the client log fields;
- the push endpoint whitelist;
- notification expiry;
- the live stream edit and list pages.

Database, configuration, session, clock and network answers are parameters.

Modules, one per file:

| module | models |
|---|---|
| `Wrappers`, `Text` | `Option`/`Result`; JavaScript `split`, PHP `intval`, `strtolower`, `substr` prefix test |
| `Media` | the snapshot the info endpoint returns; quality, address and address group records |
| `DeviceFilter` | `extractUrisForDevice` and the DVR strip |
| `Qualities` | the quality handler, as the controller relies on it |
| `ControllerState` | controller state, configuration, adapter commands and events |
| `Reconcile`, `ReconcileProps` | `updatePlayer` and its properties |
| `Autoplay`, `Likes`, `Loading`, `Resume`, `Render` | the state machines and `render`'s other steps |
| `PlayerComponent` | the older adapter in `player-component.js` |
| `PlayerInfo`, `Comments` | `PlayerController.php` |
| `UploadManager` | `UploadManager.php` |
| `SearchIndex` | `UpdateSearchIndexCommand.php` |
| `Ajax` | `AjaxController.php` |
| `LiveStreams` | `LiveStreamsController.php` |
| `Integration` | how server and player agree |

Where the code and its documented behaviour disagree, the model follows the
code:
- **Snapshot address lists.** The snapshot's address lists are sequences,
  because the server always sends arrays
  (app/controllers/home/player/PlayerController.php:532, 549).
- **Like handler throws.** The like protocol is documented as never throwing.
  The code throws on a confirmed reset of a shown dislike (see Findings).
- **Answer status.** The like protocol is documented as failing on a non-2xx
  answer. The code accepts only status 200, and so does `Likes.OnLikeResponse`.
- **Dislike event name.** The dislike event is documented as
  `numDislikesChanged`. The code fires `numDisikesChanged` (see Findings).

## Model

| member | source | states |
|---|---|---|
| DeviceFilter.FilterUris | app/assets/src/app/player-controller.js:711-721 | an address is kept iff it has no device list or its comma-split list names the current device; never more addresses than given |
| DeviceFilter.FilterUrisSubsequence | app/assets/src/app/player-controller.js:711-721 | the kept addresses are a subsequence of the given ones, in their order |
| DeviceFilter.FilterUrisIdempotent | app/assets/src/app/player-controller.js:711-721 | filtering one group's addresses twice is filtering them once |
| DeviceFilter.FilterGroups | app/assets/src/app/player-controller.js:700-728 | every group kept is non-empty and holds only supported addresses; a group is kept iff its filtered form is non-empty, with its quality |
| DeviceFilter.FilterGroupsIdempotent | app/assets/src/app/player-controller.js:700-728 | filtering twice is filtering once |
| DeviceFilter.FilterGroupsKeepsOrder | app/assets/src/app/player-controller.js:700-728 | the quality ids after filtering are a subsequence of those before |
| DeviceFilter.ExtractUrisForDevice | app/assets/src/app/player-controller.js:700-728 | the nested loop computes exactly the filter |
| DeviceFilter.StripNonDvr | app/assets/src/app/player-controller.js:471-488 | once a show is over, every address left supports DVR and no group left is empty; a group survives iff it keeps a DVR address |
| DeviceFilter.StripNonDvrInPlace | app/assets/src/app/player-controller.js:474-487 | the backwards splicing loop computes exactly the strip |
| DeviceFilter.StripNonDvrIdempotent | app/assets/src/app/player-controller.js:471-488 | stripping twice is stripping once |
| DeviceFilter.KeepDvrIdempotent | app/assets/src/app/player-controller.js:474-487 | keeping the DVR addresses of one group twice is keeping them once |
| DeviceFilter.StripKeepsDeviceSupport | app/assets/src/app/player-controller.js:468-488 | stripping after device filtering leaves only addresses the device supports |
| Qualities.SetAvailable | app/assets/src/app/player-controller.js:517-521 | the handler offers exactly the new list, keeps the chosen quality when asked to stick and it is still offered, and otherwise chooses an offered one |
| Qualities.OffersQualitiesOf | app/assets/src/app/player-controller.js:730-741 | the qualities handed to the handler are offered iff their id is a group's quality id |
| Qualities.SetAvailableAgainKeepsChoice | app/assets/src/app/player-controller.js:517-521 | offering the same list again, sticking, changes nothing |
| Qualities.SetAvailableSameIsNoop | app/assets/src/app/player-controller.js:517-521 | a consistent handler offered its own list again, sticking, is unchanged |
| ControllerState.Init | app/assets/src/app/player-controller.js:249-275 | a new controller is not loaded, has no component, no snapshot, no player type, and its resolved autoplay flags are the configured ones |
| Reconcile.StreamGroupsFor | app/assets/src/app/player-controller.js:468-488 | stream groups are device-filtered and, once a show is over, DVR-only; no group is empty |
| Reconcile.Resolve | app/assets/src/app/player-controller.js:490-515 | an external address exists only for a stream that is not over and not ignored; a video pass has no external address and uses the video groups; a hosted live pass uses the stream groups; the ad has no groups |
| Reconcile.LivePrecedence | app/assets/src/app/player-controller.js:493-498 | when the live condition holds the type is never video, and it is live iff there is an external address or a stream group |
| Reconcile.VodWhenNoLive | app/assets/src/app/player-controller.js:499-504 | when the live condition fails the type is video iff the video condition holds and a video group exists, and never live |
| Reconcile.OverrideAloneSelectsVod | app/assets/src/app/player-controller.js:499 | by operator precedence, override mode alone selects video when the live condition fails and a video group exists |
| Reconcile.NothingMeansAd | app/assets/src/app/player-controller.js:492-504 | without override, a stream or a video, the type is the ad |
| Reconcile.IndexOfId | app/assets/src/app/player-controller.js:752 | `indexOf`: the first position holding the id, or -1 iff none does |
| Reconcile.GetChosenUris | app/assets/src/app/player-controller.js:743-756 | no groups gives no addresses; otherwise the chosen quality's group's addresses, and a chosen quality with no group is the error path |
| Reconcile.ChosenUrisExist | app/assets/src/app/player-controller.js:517-542 | after the handler has been given the groups, the chosen quality always has a group |
| Reconcile.UrisDiffer | app/assets/src/app/player-controller.js:544-556 | the length-then-position loop reports a change iff the two address lists differ |
| Reconcile.UpdateQualities | app/assets/src/app/player-controller.js:517-539 | the handler offers exactly the groups' qualities; when the type is unchanged it sticks with the chosen quality |
| Reconcile.MakePlan | app/assets/src/app/player-controller.js:468-542 | the plan's handler is valid and offers exactly the resolved groups' qualities |
| Reconcile.UpdatePlayer | app/assets/src/app/player-controller.js:423-426 | without a snapshot a pass does nothing |
| ReconcileProps.UpdatePlayerNeverThrows | app/assets/src/app/player-controller.js:423-697 | with a snapshot a pass always completes, so the chosen quality lookup never fails |
| ReconcileProps.UrisPushedIffChanged | app/assets/src/app/player-controller.js:540-614 | addresses are sent to the adapter exactly once when the type or the chosen addresses changed, and not at all otherwise |
| ReconcileProps.SecondPassIsQuiet | app/assets/src/app/player-controller.js:517-560 | a second pass over the same snapshot keeps the type and addresses and sends no addresses |
| ReconcileProps.StartPushesOfPass | app/assets/src/app/player-controller.js:560-614 | the start positions a pass sends are exactly those of its reload step, and none without a reload |
| ReconcileProps.LiveStartRules | app/assets/src/app/player-controller.js:564-583 | live starts at 0: an address change keeps the play state; a finished show plays only with video autoplay and is otherwise left alone; a live show follows stream autoplay |
| ReconcileProps.VodStartRules | app/assets/src/app/player-controller.js:584-612 | video: an address change resumes at the current time and play state; a first load with a requested start uses it unsnapped; otherwise the remembered time or 0, snapped; autoplay is the resolved video flag |
| ReconcileProps.AdSendsNoStart | app/assets/src/app/player-controller.js:560-614 | the ad sends no start position |
| ReconcileProps.PassFiresLoaded | app/assets/src/app/player-controller.js:692-695 | a pass fires `loaded` iff it creates the component |
| ReconcileProps.LoadedLatch | app/assets/src/app/player-controller.js:692-695 | `loaded` fires on the first pass only, and the state is loaded afterwards |
| ReconcileProps.MetaFiresNoEvent | app/assets/src/app/player-controller.js:616-671 | the chapter, thumbnail, title and message steps only send commands |
| Autoplay.OnPlay | app/assets/src/app/player-controller.js:434-438 | play resets both resolved flags to the requested ones, changes nothing else and fires `play` |
| Autoplay.OnPause | app/assets/src/app/player-controller.js:455-460 | with smart autoplay, pause clears both resolved flags; otherwise the state is unchanged; `pause` fires |
| Autoplay.SetAutoPlayVod | app/assets/src/app/player-controller.js:210-218 | the request is stored; disabling clears the resolved flag; enabling sets it unless a component exists and is paused |
| Autoplay.SetAutoPlayStream | app/assets/src/app/player-controller.js:220-228 | the same rule for the stream flag |
| Autoplay.PlayUndoesPause | app/assets/src/app/player-controller.js:434-460 | after pause then play the state is what play alone gives |
| Autoplay.RequestWinsAtNextPlay | app/assets/src/app/player-controller.js:210-228 | whatever was requested while paused is in force after the next play |
| Autoplay.PauseSuppressesLiveAutoplay | app/assets/src/app/player-controller.js:564-583 | after a pause with smart autoplay, a switch to live does not start playing |
| Autoplay.PauseSuppressesVodAutoplay | app/assets/src/app/player-controller.js:584-612 | after a pause with smart autoplay, a switch to video does not start playing |
| Likes.ParseAction | app/assets/src/app/player-controller.js:1078-1080 | exactly "like", "dislike" and "reset" are actions |
| Likes.RegisterLike | app/assets/src/app/player-controller.js:1074-1090 | disabled likes and unknown types are errors; a request for the current state sends nothing and succeeds; otherwise the previous state and the action are sent |
| Likes.Bump | app/assets/src/app/player-controller.js:1110-1140 | a hidden counter stays hidden; a shown one moves by the delta |
| Likes.OnLikeResponse | app/assets/src/app/player-controller.js:1101-1170 | a non-200 or refused answer reports failure and changes nothing; a confirmed answer applies only if the like state is still the one the request started from, and then sets the new like state |
| Likes.LikeDeltaTable | app/assets/src/app/player-controller.js:1109-1119 | from no like: a like raises the shown like count, a dislike the dislike count, each firing its counter event; a reset changes nothing and fires only `likeTypeChanged` |
| Likes.LikeDeltaTableFromLike | app/assets/src/app/player-controller.js:1120-1130 | from a like: a dislike lowers likes and raises dislikes, a reset lowers likes and clears the state, a like changes nothing; hidden counters stay hidden |
| Likes.LikeDeltaTableFromDislike | app/assets/src/app/player-controller.js:1131-1141 | from a dislike: a like raises likes and lowers dislikes, a reset lowers dislikes and clears the state, a dislike changes nothing; hidden counters stay hidden |
| Likes.ConfirmedTotalMovesByOne | app/assets/src/app/player-controller.js:1081-1160 | the shown like plus dislike total moves by at most one, by the change in whether any like state is set |
| Likes.RegisterLikeIdempotent | app/assets/src/app/player-controller.js:1081-1089 | asking again for the confirmed state sends nothing |
| Likes.ResetAfterDislikeThrows | app/assets/src/app/player-controller.js:1137-1140 | the handler as written fails on a confirmed reset of a shown dislike; the corrected one lowers the count and clears the like state |
| Likes.AsWrittenAgreesOtherwise | app/assets/src/app/player-controller.js:1101-1170 | apart from that case, the handler as written and the corrected one give the same state and callback |
| Likes.GetNumLikes | app/assets/src/app/player-controller.js:75-80 | an error iff likes are disabled, else the like count |
| Likes.GetNumDislikes | app/assets/src/app/player-controller.js:83-88 | an error iff likes are disabled, else the dislike count |
| Likes.GetNumDislikesAlwaysThrows | app/assets/src/app/player-controller.js:83-88 | as written the getter always fails; the corrected getter answers the count |
| Likes.GetLikeType | app/assets/src/app/player-controller.js:91-96 | an error iff likes are disabled, else the like state |
| Likes.UpdateLikes | app/assets/src/app/player-controller.js:1033-1053 | disabled likes change nothing; otherwise the counts and state are copied and each event fires iff its value changed |
| Likes.DislikeEventMisnamed | app/assets/src/app/player-controller.js:1044-1047 | as written, a changed dislike count fires `numDisikesChanged` and never `numDislikesChanged` |
| Likes.GettersReadCopiedValues | app/assets/src/app/player-controller.js:75-96 | after the copy the getters answer the snapshot's values |
| Loading.Apply | app/assets/src/app/player-controller.js:37-45 | the latch is loaded once a pass has run, and callbacks already run stay run |
| Loading.EachCallbackRunsOnce | app/assets/src/app/player-controller.js:37-45 | with a pass, every registered callback runs exactly once, in registration order, and none waits; without one none runs |
| Loading.LoadedEventIffOpen | app/assets/src/app/player-controller.js:692-695 | a pass fires `loaded` iff the latch was still open |
| Resume.ReadStore | app/assets/src/app/player-controller.js:884-930 | a stored position is found iff storage is available and holds the source id |
| Resume.GetRememberedTime | app/assets/src/app/player-controller.js:802-818 | no source id gives none; the server's position wins; otherwise the stored one |
| Resume.Prune | app/assets/src/app/player-controller.js:849-857 | exactly the entries updated within the last 21 days are kept, unchanged |
| Resume.UpdateRememberedTime | app/assets/src/app/player-controller.js:849-868 | without storage nothing is written; when the conditions fail nothing changes; otherwise the current time stamped now is stored under the source id, and another video's entry is kept, unchanged, iff it is at most three weeks old |
| Resume.WriteRetention | app/assets/src/app/player-controller.js:849-868 | after a write, another video's entry is present iff it was present and at most three weeks old |
| Resume.WriteThenResume | app/assets/src/app/player-controller.js:802-818 | a position written is the one read back when the server has none |
| Resume.ServerTimeWins | app/assets/src/app/player-controller.js:808-810 | with a server position, local storage is irrelevant |
| Resume.PruneIdempotent | app/assets/src/app/player-controller.js:849-857 | pruning twice is pruning once |
| Resume.FreshEntrySurvives | app/assets/src/app/player-controller.js:849-857 | an entry updated within the retention window survives pruning |
| Render.UpdateEmbedData | app/assets/src/app/player-controller.js:403-414 | embed data is taken once, from the first snapshot with a non-empty one, and `embedDataAvailable` fires iff it was taken |
| Render.EmbedDataIsFirstSeen | app/assets/src/app/player-controller.js:403-414 | across many snapshots the embed data is the first non-empty one |
| Render.UpdateOverrideMode | app/assets/src/app/player-controller.js:416-421 | the queued override mode is applied, with an event iff it changed |
| Render.UpdateViewCounts | app/assets/src/app/player-controller.js:991-1007 | both counts are copied; each event fires iff its count changed, and the combined event iff either did |
| Render.GetViewCount | app/assets/src/app/player-controller.js:118-136 | none without a snapshot or with both counts hidden; otherwise the sum of the shown counts |
| Render.UpdateNumWatchingNow | app/assets/src/app/player-controller.js:1009-1020 | disabled watching changes nothing; otherwise the number is copied, with an event iff it changed |
| Render.UpdateScheduledPublishTime | app/assets/src/app/player-controller.js:1022-1031 | the publish time is the snapshot's in milliseconds, or none, with an event iff it changed |
| Render.RenderAll | app/assets/src/app/player-controller.js:393-401 | without a snapshot `render` stops with a type error at the embed data step |
| Render.RenderCopiesSnapshot | app/assets/src/app/player-controller.js:393-401 | a render leaves the counters equal to the snapshot's (likes only when enabled) and does not throw |
| Render.CounterUpdatesCopy | app/assets/src/app/player-controller.js:991-1053 | the counter steps copy the snapshot's counters |
| Render.PlayerPassKeepsCounters | app/assets/src/app/player-controller.js:423-697 | the player pass does not touch the counters |
| Render.EnableOverrideMode | app/assets/src/app/player-controller.js:193-196 | before any snapshot, enabling override queues it and the render stops with the type error |
| Render.OverrideQueuedBeforeLoad | app/assets/src/app/player-controller.js:193-196 | an override requested before the first snapshot is still queued and applied by the first render |
| PlayerComponent.SetPlayerType | app/assets/includes/custom_ordered/js/player-component.js:34-40 | only "live" and "vod" are accepted, and each queues its kind |
| PlayerComponent.TypeReachesPlayer | app/assets/includes/custom_ordered/js/player-component.js:34-40 | a string is refused iff it is neither "live" nor "vod"; an accepted type is the committed player type after the next render |
| PlayerComponent.SetPlayerUris | app/assets/includes/custom_ordered/js/player-component.js:42-61 | the list is stored and the change flag is set iff the list differs, and stays set once set |
| PlayerComponent.ShowPlayer | app/assets/includes/custom_ordered/js/player-component.js:73-77 | the player is queued shown exactly when the ad is queued hidden; nothing else changes |
| PlayerComponent.ShowThenRender | app/assets/includes/custom_ordered/js/player-component.js:73-83 | `showPlayer(show)` then `render()` leaves the player existing iff `show` and the advert overlay existing iff not, keeping what exists in line with what was committed |
| PlayerComponent.FreshCommitted | app/assets/includes/custom_ordered/js/player-component.js:99-120 | a new component shows neither a player nor an overlay, in line with what it has committed |
| PlayerComponent.CeilSeconds | app/assets/includes/custom_ordered/js/player-component.js:185 | the ceiling of milliseconds over 1000 |
| PlayerComponent.CountdownFor | app/assets/includes/custom_ordered/js/player-component.js:178-187 | within the five minute window the seconds to go lie in 1..300 and split into minutes and seconds below 60 |
| PlayerComponent.Unit | app/assets/includes/custom_ordered/js/player-component.js:188 | the unit is plural iff the value is not 1 |
| PlayerComponent.Header | app/assets/includes/custom_ordered/js/player-component.js:191-204 | "Live" or "Available" by whether it will be live, then "In" with a countdown and "At" without |
| PlayerComponent.TimeText | app/assets/includes/custom_ordered/js/player-component.js:178-183 | outside the countdown window the time text is the formatted date |
| PlayerComponent.AdStartTime | app/assets/includes/custom_ordered/js/player-component.js:168-217 | the start time step shows the queued start and touches only the header and time |
| PlayerComponent.AdStartTimeShowsQueued | app/assets/includes/custom_ordered/js/player-component.js:168-217 | on an overlay whose texts are the last written, the start step shows the header and time the queued start calls for and keeps the texts in line |
| PlayerComponent.AdMessages | app/assets/includes/custom_ordered/js/player-component.js:218-247 | the message steps record the queued message and flags and leave the header and time alone |
| PlayerComponent.AdVisibility | app/assets/includes/custom_ordered/js/player-component.js:154-162 | the ad is created or removed iff its shown state differs from the queued one |
| PlayerComponent.UpdateAdWith | app/assets/includes/custom_ordered/js/player-component.js:153-248 | after an update the ad's shown state is the queued one |
| PlayerComponent.UpdateAdShowsQueued | app/assets/includes/custom_ordered/js/player-component.js:153-271 | with creation resetting what was applied, a shown ad displays exactly the queued header, time, message and flags |
| PlayerComponent.RecreatedAdLosesMessage | app/assets/includes/custom_ordered/js/player-component.js:250-271 | as written, an ad hidden and shown again with an unchanged message displays no message |
| PlayerComponent.FreshIsConsistent | app/assets/includes/custom_ordered/js/player-component.js:99-100 | a new component's ad is consistent with what it shows |
| PlayerComponent.DestroyPlayer | app/assets/includes/custom_ordered/js/player-component.js:336-347 | a no-op without a player; otherwise the player is gone and the two destroy events fire in order |
| PlayerComponent.DestroyAd | app/assets/includes/custom_ordered/js/player-component.js:274-281 | the ad is gone and nothing else changes |
| PlayerComponent.UpdatePlayer | app/assets/includes/custom_ordered/js/player-component.js:285-307 | a reload happens iff type, preload, shown state or addresses changed; afterwards no reload is pending, the player exists iff it is to be shown, and autoplay is the queued value |
| PlayerComponent.UpdatePlayerIdempotent | app/assets/includes/custom_ordered/js/player-component.js:285-307 | a second update does nothing |
| PlayerComponent.SameUrisNeedNoReload | app/assets/includes/custom_ordered/js/player-component.js:42-61 | setting the same addresses after an update requires no reload |
| PlayerComponent.RenderComponent | app/assets/includes/custom_ordered/js/player-component.js:79-83 | renders the advert with `updateAd` as written, then the player: no reload is pending afterwards, the advert is applied as queued, and from a committed state the player exists iff queued shown and the overlay iff the advert is queued shown |
| PlayerComponent.DestroyIdempotent | app/assets/includes/custom_ordered/js/player-component.js:336-347 | destroying twice is destroying once, with no events the second time |
| PlayerInfo.StreamUriTypes | app/controllers/home/player/PlayerController.php:536-538 | stream addresses are queried iff the stream is accessible and live, over, or not yet live with permission; only DVR ones once over |
| PlayerInfo.StreamUris | app/controllers/home/player/PlayerController.php:532-547 | stream addresses are sent only when queried, and then all of them |
| PlayerInfo.VideoPart | app/controllers/home/player/PlayerController.php:549-563 | video addresses and the source id are sent iff there is a video that is live or the viewer has permission |
| PlayerInfo.ViewCounts | app/controllers/home/player/PlayerController.php:487-501 | both counts are sent unchanged iff the viewer has permission or the total reaches the minimum; otherwise both are hidden |
| PlayerInfo.WatchingNow | app/controllers/home/player/PlayerController.php:503-507 | the number is hidden iff the viewer lacks permission and it is below the minimum |
| PlayerInfo.AutoContinueMode | app/controllers/home/player/PlayerController.php:395-401 | "1" gives 1, "2" gives 2, anything else 0 |
| PlayerInfo.AutoContinueModeRoundTrip | app/controllers/home/player/PlayerController.php:395-401 | a mode 0-2 written as its digit reads back as itself, and writing back the mode read reads it again unchanged |
| PlayerInfo.RegisterLikeSucceeds | app/controllers/home/player/PlayerController.php:629-656 | success iff the type is one of the three, the video is live (outside degraded service) or the stream is accessible and not in the "not live" state, and a user is present |
| PlayerInfo.ParseWatching | app/controllers/home/player/PlayerController.php:608-613 | a report needs both fields; playing iff "1"; no time iff "unavailable" |
| PlayerInfo.WatchingTimeRoundTrip | app/controllers/home/player/PlayerController.php:608-613 | a time the player sends is the time the server reads |
| PlayerInfo.Table | app/controllers/home/player/PlayerController.php:90-95 | an entry is in the table iff it is an accessible entry of the playlist |
| PlayerInfo.TableAppend | app/controllers/home/player/PlayerController.php:90-95 | the table is built in playlist order: appending an entry appends it to the table iff it is accessible |
| PlayerInfo.TableOfAccessible | app/controllers/home/player/PlayerController.php:90-95 | a playlist of accessible entries is its own table, order and repeats included |
| PlayerInfo.ActiveIndex | app/controllers/home/player/PlayerController.php:100-103 | the active row is the last row with the current id, or none |
| PlayerInfo.NeighboursOf | app/controllers/home/player/PlayerController.php:128-135 | previous and next are the rows either side of the active one, none at the ends; any link given is a row of the table |
| PlayerInfo.PlaylistNeighbours | app/controllers/home/player/PlayerController.php:86-135 | a current item in the accessible playlist always gets its links, and every link given is to an accessible entry of the playlist |
| PlayerInfo.NeighboursOfCurrent | app/controllers/home/player/PlayerController.php:86-135 | for an accessible current item, the links are its neighbours in the accessible list |
| PlayerInfo.NoActiveRow | app/controllers/home/player/PlayerController.php:128-135 | without an active row PHP's null comparisons link the second row as next, and an empty table fails |
| Comments.FetchComments | app/controllers/home/player/PlayerController.php:678-718 | a missing id and -1 with later comments are errors; a page has at most N comments, all existing, never the given id |
| Comments.RowsAreAPage | app/controllers/home/player/PlayerController.php:689-708 | later comments are the first N from the id on and earlier ones the last N up to it; `more` iff further comments exist in that direction |
| Comments.LaterRowsAreFirstN | app/controllers/home/player/PlayerController.php:691-697 | later comments are the first N candidates |
| Comments.EarlierRowsAreLastN | app/controllers/home/player/PlayerController.php:698-708 | earlier comments are the last N candidates, turned back to ascending order |
| Comments.PageIsOrdered | app/controllers/home/player/PlayerController.php:689-718 | a page is ascending and lies strictly on the requested side of the id |
| UploadManager.Extension | app/serviceProviders/upload/UploadManager.php:47 | the extension is the text after the last dot, and the name is the rest, the dot and the extension |
| UploadManager.RequestChecks | app/serviceProviders/upload/UploadManager.php:36-55 | an upload passes iff the CSRF token is valid, the upload point is strictly among the allowed ids, the name has at most 50 bytes in UTF-8, the lower-cased extension is allowed and the size is positive |
| UploadManager.NameLimitCountsBytes | app/serviceProviders/upload/UploadManager.php:41 | the name limit counts bytes: 26 "é" (52 bytes) are refused, while 50 ASCII characters pass the length check |
| UploadManager.Process | app/serviceProviders/upload/UploadManager.php:24-116 | a second call fails; a rejected upload records failure; success iff accepted and stored, recording the id, name and size |
| UploadManager.ProcessOnce | app/serviceProviders/upload/UploadManager.php:26-29 | processing twice fails the second time and keeps the first result |
| UploadManager.IntegerIdsAdmitNothing | app/serviceProviders/upload/UploadManager.php:36 | with the strict comparison, a list of integer ids accepts no posted upload point |
| UploadManager.GetResponse | app/serviceProviders/upload/UploadManager.php:119-124 | an error iff `process` has not run |
| UploadManager.GetInfo | app/serviceProviders/upload/UploadManager.php:128-134 | an error iff `process` has not run; name and size iff it stored a file |
| UploadManager.InfoIffSuccess | app/serviceProviders/upload/UploadManager.php:128-134 | after processing, information is available iff the upload succeeded |
| UploadManager.Delete | app/serviceProviders/upload/UploadManager.php:194-204 | exactly the named files gain the delete mark; nothing else changes |
| UploadManager.DeleteIgnoresNulls | app/serviceProviders/upload/UploadManager.php:194-204 | nulls are skipped, and one file behaves like a list of one |
| UploadManager.DeleteIdempotent | app/serviceProviders/upload/UploadManager.php:194-204 | deleting twice is deleting once |
| UploadManager.Register | app/serviceProviders/upload/UploadManager.php:142-190 | an unknown upload point is an error; the file being replaced is returned unchanged; a returned file is the requested one; no file id returns none; "Error saving file model." iff an acceptable new file fails to save |
| UploadManager.RegisterErrors | app/serviceProviders/upload/UploadManager.php:157-182 | a missing file, a file without upload point, one in use, or one of another upload point each give their error; success iff none applies and the save succeeds |
| UploadManager.RegisterOkValue | app/serviceProviders/upload/UploadManager.php:142-190 | a successful registration of a new file means the upload point exists and the file is unused at that point, and returns the file marked in use with the replaced one marked for deletion |
| UploadManager.RegisterMarks | app/serviceProviders/upload/UploadManager.php:174-189 | on success the file is in use and the replaced one is marked for deletion, nothing else changes, and registering it again fails as already registered |
| UploadManager.RegisterNothing | app/serviceProviders/upload/UploadManager.php:174-189 | without a file id the replaced file is marked and none returned |
| UploadManager.GetFile | app/serviceProviders/upload/UploadManager.php:208-279 | a file is returned only when it exists, is finished and has a source file |
| UploadManager.FirstOwner | app/serviceProviders/upload/UploadManager.php:222-275 | the first relation present, or none iff none is |
| UploadManager.GetFileFirstOwner | app/serviceProviders/upload/UploadManager.php:222-278 | access is decided by the first present relation alone |
| UploadManager.LaterOwnersIgnored | app/serviceProviders/upload/UploadManager.php:222-278 | changing relations after the first present one does not change the answer |
| SearchIndex.Millis | app/commands/UpdateSearchIndexCommand.php:223 | milliseconds divide back exactly to the seconds |
| SearchIndex.PlaylistDocs | app/commands/UpdateSearchIndexCommand.php:207-210 | exactly the accessible playlists appear in an item's document |
| SearchIndex.DocOf | app/commands/UpdateSearchIndexCommand.php:204-226 | the document carries the item's id, name and publish time |
| SearchIndex.Partition | app/commands/UpdateSearchIndexCommand.php:58-71 | each item goes to the documents if accessible and to the removals otherwise; the two sizes add up |
| SearchIndex.EachItemOnce | app/commands/UpdateSearchIndexCommand.php:61-69 | an item is indexed or removed, never both |
| SearchIndex.Nonexistent | app/commands/UpdateSearchIndexCommand.php:161-164 | the indexed ids without a database record |
| SearchIndex.Unique | app/commands/UpdateSearchIndexCommand.php:108 | duplicates removed, same members |
| SearchIndex.Removals | app/commands/UpdateSearchIndexCommand.php:108-109 | the removal ids are the inaccessible items and the stale index entries, each once |
| SearchIndex.IndexBody | app/commands/UpdateSearchIndexCommand.php:80-94 | two lines per document: its header, then the document |
| SearchIndex.DeleteBody | app/commands/UpdateSearchIndexCommand.php:115-127 | one delete header per id |
| SearchIndex.CheckBulk | app/commands/UpdateSearchIndexCommand.php:97-99 | a bulk answer passes iff its item count matches and it reports no errors |
| SearchIndex.IndexedIds | app/commands/UpdateSearchIndexCommand.php:135-159 | a timed-out search is an error; no hits give no ids |
| SearchIndex.UpdateVersions | app/commands/UpdateSearchIndexCommand.php:166-173 | items up to the first failing save get their pending version; the rest keep theirs |
| SearchIndex.Sync | app/commands/UpdateSearchIndexCommand.php:44-113 | a failed index check on a non-empty batch ends the run with its error and nothing saved; a search time-out likewise; a failed removal check on a non-empty removal likewise; otherwise the versions are those `UpdateVersions` leaves |
| SearchIndex.VersionsLast | app/commands/UpdateSearchIndexCommand.php:103-113 | version numbers move only after indexing and removal succeeded |
| SearchIndex.RequestsSent | app/commands/UpdateSearchIndexCommand.php:80-127 | indexing then removal, each sent only when non-empty, carrying exactly the decided documents and ids |
| SearchIndex.QuietRun | app/commands/UpdateSearchIndexCommand.php:80-82 | nothing changed and nothing stale sends no request |
| Ajax.GetLogValue | app/controllers/home/ajax/AjaxController.php:265-276 | "[None]" for null; "[Invalid]" for a quote when quotes are not allowed; otherwise the value in double quotes |
| Ajax.LogValueDelimited | app/controllers/home/ajax/AjaxController.php:265-276 | without quotes allowed, the only quotes are the delimiting ones and the value reads back from between them |
| Ajax.FloorThousandth | app/controllers/home/ajax/AjaxController.php:258 | the whole second a millisecond time falls in |
| Ajax.FormatLogDateAsWritten | app/controllers/home/ajax/AjaxController.php:254-263 | as written, the invalid marker is never produced |
| Ajax.MissingTimestampDatedAtEpoch | app/controllers/home/ajax/AjaxController.php:255-258 | as written, a missing client time is dated at the epoch |
| Ajax.FormatLogDate | app/controllers/home/ajax/AjaxController.php:254-263 | invalid iff the value is missing; otherwise milliseconds are floored to seconds |
| Ajax.LogDateSeconds | app/controllers/home/ajax/AjaxController.php:254-263 | a client time names the second it falls in; the server's time is written as is |
| Ajax.UrlAllowed | app/controllers/home/ajax/AjaxController.php:189-203 | the loop allows a URL iff some whitelist entry is a prefix of it |
| Ajax.RegisterEndpoint | app/controllers/home/ajax/AjaxController.php:176-223 | 404 when off; 500 without a valid URL; failure outside the whitelist; success iff allowed and saved, and only then is the endpoint stored |
| Ajax.FreshPayloads | app/controllers/home/ajax/AjaxController.php:241-247 | exactly the payloads of notifications younger than two days |
| Ajax.FreshPayloadsAppend | app/controllers/home/ajax/AjaxController.php:241-247 | the filter keeps the stored order |
| Ajax.ExpiryOnlyRemoves | app/controllers/home/ajax/AjaxController.php:243-247 | a notification answered later would also be answered earlier |
| Ajax.GetNotificationsAsWritten | app/controllers/home/ajax/AjaxController.php:225-252 | as written, the taken list stays under the temporary key |
| Ajax.ArrivingNotificationLost | app/controllers/home/ajax/AjaxController.php:236-239 | as written, a notification arriving between the rename and the delete is deleted unread |
| Ajax.GetNotifications | app/controllers/home/ajax/AjaxController.php:225-252 | a 404 iff off; no list gives no payloads; otherwise the fresh payloads, and the temporary key is gone |
| Ajax.ArrivingNotificationKept | app/controllers/home/ajax/AjaxController.php:236-247 | with the delete on the temporary key, an arriving notification is answered by the next request and other keys are untouched |
| LiveStreams.SupportedDevices | app/controllers/home/admin/livestreams/LiveStreamsController.php:213-221 | "pc" is stored as desktop, "mobile" as mobile, anything else as no restriction |
| LiveStreams.Store | app/controllers/home/admin/livestreams/LiveStreamsController.php:213-229 | the stored address is enabled iff the choice is not "none" and carries the submitted fields |
| LiveStreams.RebuildUris | app/controllers/home/admin/livestreams/LiveStreamsController.php:206-232 | the stream ends with exactly one address per submitted entry, in order; other streams are unchanged |
| LiveStreams.SupportReachesPlayer | app/controllers/home/admin/livestreams/LiveStreamsController.php:213-221 | the choice reaches the player's device filter as meant: "pc" desktop only, "mobile" mobile only, else everywhere |
| LiveStreams.RowFor | app/controllers/home/admin/livestreams/LiveStreamsController.php:44-62 | each flag shows "Yes" in green iff set and "No" in red iff clear; a missing description shows as "[No Description]"; links end in the stream's id |
| LiveStreams.Rows | app/controllers/home/admin/livestreams/LiveStreamsController.php:44-62 | one row per listed stream, in order |
| LiveStreams.ListPage | app/controllers/home/admin/livestreams/LiveStreamsController.php:23-69 | a later page starting past the last stream is a 404; otherwise the page lists exactly the rows of the ordered streams from its start index, at most the page size of them |
| LiveStreams.PagesJoin | app/controllers/home/admin/livestreams/LiveStreamsController.php:36-42 | when the next page exists, page `n` followed by page `n + 1` lists exactly the rows of the streams from `n` page lengths up to `n + 2` page lengths (or the end of the list): paging neither skips nor repeats a stream |
| Integration.ShownViewCountRespectsMinimum | app/controllers/home/player/PlayerController.php:487-501 | a viewer without permission never sees a view total below the minimum |
| Integration.LikeRequestsAgree | app/controllers/home/player/PlayerController.php:629-656 | every action the player sends is one the server accepts, and a sent action is recorded iff a viewer is signed in and the video is live (outside degraded service) or the stream is accessible and not "not live" |
| Integration.WithheldVideoNeverPlays | app/controllers/home/player/PlayerController.php:549-563 | a video whose addresses are withheld is never played, on any device |
| Integration.SharedVideoPlays | app/controllers/home/player/PlayerController.php:549-563 | a shared video with an address the device supports plays whenever the stream does not take precedence and the video condition holds |
| Integration.WithheldStreamOnlyExternal | app/controllers/home/player/PlayerController.php:532-547 | a stream whose addresses are withheld leaves no stream group, so a live pass hands over only the external page |

## Left out

- Requests, timers and analytics: polling, the info request, the watching report timer and analytics reporting (player-controller.js:289-391, 1055-1072, 1174-1176). The snapshot a request yields is an input.
- The `chosenQualityChanged` handler (player-controller.js:277-286) re-runs `updatePlayer` through `setTimeout(…, 0)`. The timer is not modelled; `ReconcileProps.SecondPassIsQuiet` shows that such a re-run over the same snapshot sends nothing.
- The controller's `destroy` (player-controller.js:47-59) only stops timers and notification listeners and destroys the component. None of those are modelled.
- The controller's `setPlayerType` (player-controller.js:758-769) throws on a type other than live, video or ad. The `PlayerType` datatype has no other value, so that throw cannot occur in the model.
- IndexedDB: opening, upgrading and its errors (player-controller.js:820-989). Storage is an optional map, and `None` stands for no storage or a failure.
- DOM, videojs, fit-text and the date formatter (player-component.js:182, 250-379). Their observable results are in `AdView`; the formatted date is a parameter.
- Snapping a start time to 0 happens in an adapter that is not part of this model. Only the snap flag that is passed is modelled.
- The quality selection handler's source is not part of this model. `Qualities` states the behaviour the controller relies on (an offered list and one chosen quality).
- The controller calls `setPlayerStartTime`, `paused` and `getPlayerCurrentTime` on its adapter, and `player-component.js` has none of them. Those calls are commands in the log, and the adapter's answers are an `AdapterView` parameter.
- The title link's time parameter uses floating-point playback times (player-controller.js:640-657). Times are whole numbers throughout.
- Null address lists in the snapshot (player-controller.js:468-469) are not modelled, because the server always sends arrays.
- Laravel calls are inputs: Eloquent queries, Auth, Config, Cache, Validator, `filter_var`, Response and View. Whether saving an upload or a registration succeeds is an input.
- Elasticsearch query bodies and Redis commands are not modelled; their answers are inputs (`Answers`, `Store`).
- UploadManager.RequestChecks: allowed extensions use strict string comparison. PHP's loose `in_array` also matches numeric strings such as "1.0" against "1", and that is not modelled.
- UploadManager.Extension: directory parts of the name are not handled, because posted file names carry none.
- Ajax.FormatLogDate: the RFC 2822 text of the date is not produced; the result is the instant in whole seconds.
- Ajax.RegisterEndpoint: only the URL syntax test (`filter_var` with `FILTER_VALIDATE_URL`) is folded into the `validUrl` flag.
- Ajax.GetNotifications: `Store` holds only lists that decode correctly. A stored value that `json_decode` cannot read (AjaxController.php:240) makes the `foreach` raise (an unreadable entry does too); the exception is swallowed at :250, so the answer is empty or partial although the list was already renamed away. That path is not modelled.
- `postSearch`, `postHello`, `postDelete`, `getPlayer`, `hasAccessToFile` and `getFileResponse` are left out: they are framework glue or queries with no rule of their own. `hasAccessToFile` is `GetFile(..).Some?`.
- Comment deletion (`CanDelete`) is only a predicate, with no contract beyond its definition.
- PHP integers beyond 64 bits: `IntVal` saturates as PHP does, but sums of counts are unbounded.
- The remaining files (MediaItemEmailsCommand.php, artisan.php, filters.php, the view template, the admin page scripts, PlaylistController.php) are registration, UI or framework glue.

## Findings

| source | as written | input that shows it | evidently intended | confidence | as-written member | corrected member |
|---|---|---|---|---|---|---|
| app/assets/src/app/player-controller.js:1139 | a confirmed reset of a dislike decrements `numDisikes`, an undeclared name | like state "dislike", dislike count shown, `registerLike("reset")`, server answers 200 with success | decrement `numDislikes`, clear the like state, call back `true` | high, not executed | Likes.ResetAfterDislikeThrows | Likes.LikeDeltaTableFromDislike |
| app/assets/src/app/player-controller.js:87 | `getNumDislikes` returns the undeclared `numDisikes` | any call with likes enabled | return `numDislikes` | high, not executed | Likes.GetNumDislikesAlwaysThrows | Likes.GetNumDislikes |
| app/assets/src/app/player-controller.js:1046 | the dislike count event is named `numDisikesChanged`, here and again at line 1158 | any change of the dislike count | `numDislikesChanged`, matching the other counter events | medium, not executed | Likes.DislikeEventMisnamed | Likes.UpdateLikes |
| app/assets/includes/custom_ordered/js/player-component.js:250-271 | creating the ad builds hidden elements but keeps the previously applied message, so an unchanged message is never shown again | ad shown with a message, player shown, ad shown again with the same message | a re-created ad shows the queued message | medium, not executed | PlayerComponent.RecreatedAdLosesMessage | PlayerComponent.UpdateAdShowsQueued |
| app/controllers/home/ajax/AjaxController.php:255-258 | the value goes through `intval` before the `is_null` test, so a missing time becomes 0 | a client log without a time | a missing time is logged as invalid | high, not executed | Ajax.MissingTimestampDatedAtEpoch | Ajax.FormatLogDate |
| app/controllers/home/ajax/AjaxController.php:236-239 | after renaming the list to a temporary key, the session key is deleted instead of the temporary one | a notification stored for the session between the rename and the delete | delete the temporary key, so the new notification waits for the next request | medium, not executed | Ajax.ArrivingNotificationLost | Ajax.ArrivingNotificationKept |

`PlayerComponent.RenderComponent` models `render()` as written, so it updates the advert with `UpdateAdAsWritten`. The corrected update is `UpdateAd`, and `UpdateAdShowsQueued` is what it guarantees.
