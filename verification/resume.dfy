/** The remembered playback position of a video: the server's value first,
    then the browser's own store of positions keyed by the video's source
    file id. The store is a map; `None` stands for a browser without the
    store or a store that could not be opened. Times are milliseconds since
    the epoch for `timeUpdated` and `now`, whole seconds for positions. */
module Resume {
  import opened Wrappers
  import opened Media
  import opened ControllerState

  datatype Entry = Entry(time: int, timeUpdated: int)

  type Store = map<int, Entry>

  /** Entries older than three weeks are removed on every write. */
  const RetentionMs: int := 21 * 24 * 60 * 60 * 1000

  /** Reading one position: nothing without a store or an entry. */
  function ReadStore(db: Option<Store>, id: int): (r: Option<int>)
    ensures r.Some? <==> db.Some? && id in db.value
    ensures r.Some? ==> r.value == db.value[id].time
  {
    if db.Some? && id in db.value then Some(db.value[id].time) else None
  }

  /** `getRememberedTime(data)`: nothing without a source file; the
      server's remembered time when it sent one; otherwise the store's. */
  function GetRememberedTime(s: Snapshot, db: Option<Store>): (r: Option<int>)
    ensures s.vodSourceId.None? ==> r.None?
    ensures s.vodSourceId.Some? && s.rememberedPlaybackTime.Some? ==> r == s.rememberedPlaybackTime
    ensures s.vodSourceId.Some? && s.rememberedPlaybackTime.None? ==> r == ReadStore(db, s.vodSourceId.value)
  {
    if s.vodSourceId.None? then None
    else if s.rememberedPlaybackTime.Some? then s.rememberedPlaybackTime
    else ReadStore(db, s.vodSourceId.value)
  }

  /** `areRememberedTimeUpdateConditionsMet`: a video is showing, it has a
      source file, and the adapter exists, is playing, has initialised and
      knows its position. */
  predicate ConditionsMet(st: State, view: AdapterView)
  {
    st.playerType == Some(Vod) && st.vodSourceId.Some? && st.hasComponent
    && !view.paused && view.currentTime.Some? && view.initialized
  }

  /** The store with every entry last updated strictly before
      `now - RetentionMs` removed. */
  function Prune(m: Store, now: int): (r: Store)
    ensures forall k :: k in r <==> k in m && m[k].timeUpdated >= now - RetentionMs
    ensures forall k :: k in r ==> r[k] == m[k]
  {
    map k | k in m && m[k].timeUpdated >= now - RetentionMs :: m[k]
  }

  /** `updateRememberedTime`: when the conditions hold, prune the store and
      write the current position stamped with `now`. */
  function UpdateRememberedTime(st: State, view: AdapterView, db: Option<Store>, now: int): (r: Option<Store>)
    ensures r.Some? <==> db.Some?
    ensures !ConditionsMet(st, view) ==> r == db
    ensures ConditionsMet(st, view) && db.Some? ==>
              st.vodSourceId.value in r.value
              && r.value[st.vodSourceId.value] == Entry(view.currentTime.value, now)
    ensures ConditionsMet(st, view) && db.Some? ==>
              forall k :: k != st.vodSourceId.value ==>
                (k in r.value <==> k in db.value && db.value[k].timeUpdated >= now - RetentionMs)
    ensures ConditionsMet(st, view) && db.Some? ==>
              forall k :: k in r.value && k != st.vodSourceId.value ==> k in db.value && r.value[k] == db.value[k]
  {
    if !ConditionsMet(st, view) || db.None? then db
    else Some(Prune(db.value, now)[st.vodSourceId.value := Entry(view.currentTime.value, now)])
  }

  /** A written position is what a later load of the same video reads back
      when the server has none. */
  lemma WriteThenResume(st: State, view: AdapterView, db: Option<Store>, now: int, s: Snapshot)
    requires ConditionsMet(st, view) && db.Some?
    requires s.vodSourceId == st.vodSourceId && s.rememberedPlaybackTime.None?
    ensures GetRememberedTime(s, UpdateRememberedTime(st, view, db, now)) == view.currentTime
  {
  }

  /** The server's remembered time wins over anything in the store. */
  lemma ServerTimeWins(s: Snapshot, db: Option<Store>, db': Option<Store>)
    requires s.vodSourceId.Some? && s.rememberedPlaybackTime.Some?
    ensures GetRememberedTime(s, db) == GetRememberedTime(s, db') == s.rememberedPlaybackTime
  {
  }

  /** A write keeps exactly the entries of other videos that are at most
      three weeks old. */
  lemma WriteRetention(st: State, view: AdapterView, db: Option<Store>, now: int, k: int)
    requires ConditionsMet(st, view) && db.Some? && k != st.vodSourceId.value
    ensures k in UpdateRememberedTime(st, view, db, now).value <==>
              k in db.value && db.value[k].timeUpdated >= now - RetentionMs
  {
  }

  /** Pruning twice at the same moment removes nothing more. */
  lemma PruneIdempotent(m: Store, now: int)
    ensures Prune(Prune(m, now), now) == Prune(m, now)
  {
  }

  /** A position written now survives every write for the next three
      weeks, so long as nothing overwrites it. */
  lemma FreshEntrySurvives(m: Store, id: int, e: Entry, later: int)
    requires id in m && m[id] == e && e.timeUpdated <= later <= e.timeUpdated + RetentionMs
    ensures id in Prune(m, later) && Prune(m, later)[id] == e
  {
  }
}
