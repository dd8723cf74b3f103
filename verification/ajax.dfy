/** The small AJAX endpoints behind the player: the client log line, the
    push-notification endpoint registration with its URL whitelist, and the
    collection of pending notifications. Configuration, the session, URL
    validation, the clock and the key-value store are inputs. */
module Ajax {
  import opened Wrappers
  import opened Text

  /** `getLogValue`: a value in double quotes; "[None]" without one; and
      "[Invalid]" when quotes are not allowed and the value holds one. */
  function GetLogValue(a: Option<string>, quotesAllowed: bool): (r: string)
    ensures a.None? ==> r == "[None]"
    ensures a.Some? && !quotesAllowed && '"' in a.value ==> r == "[Invalid]"
    ensures a.Some? && (quotesAllowed || '"' !in a.value) ==> r == "\"" + a.value + "\""
  {
    if !quotesAllowed && a.Some? && '"' in a.value then "[Invalid]"
    else if a.Some? then "\"" + a.value + "\""
    else "[None]"
  }

  /** Without quotes allowed, the only double quotes in a log value are the
      two that delimit it, so the fields of a log line can be told apart;
      a value that is not refused can be read back from between them. */
  lemma LogValueDelimited(a: Option<string>)
    ensures var r := GetLogValue(a, false);
      forall k :: 0 < k < |r| - 1 ==> r[k] != '"'
    ensures var r := GetLogValue(a, false);
      a.Some? && '"' !in a.value ==> |r| >= 2 && r[0] == '"' && r[|r| - 1] == '"' && r[1..|r| - 1] == a.value
  {
    var r := GetLogValue(a, false);
    if a.Some? && '"' !in a.value {
      assert r == "\"" + a.value + "\"";
      forall k | 0 < k < |r| - 1
        ensures r[k] != '"'
      {
        assert r[k] == a.value[k - 1];
      }
      assert r[1..|r| - 1] == a.value;
    }
  }

  /** A value handed to `formatLogDate`: missing, posted text, or a number
      the server supplies. */
  datatype LogInput = Missing | Posted(s: string) | Number(n: int)

  /** `intval` of such a value: a missing value reads as 0. */
  function IntValOf(a: LogInput): (r: int)
    ensures a.Missing? ==> r == 0
    ensures a.Number? ==> r == a.n
  {
    match a
    case Missing => 0
    case Posted(s) => IntVal(s)
    case Number(n) => n
  }

  /** A log date: the invalid marker, or the instant (whole seconds) that is
      written out in RFC 2822 form between double quotes. */
  datatype LogDate = InvalidDate | Rfc2822(seconds: int)

  /** `floor(a / 1000)`. */
  function FloorThousandth(a: int): (r: int)
    ensures r * 1000 <= a < r * 1000 + 1000
  {
    a / 1000
  }

  /** `formatLogDate` as written: the value is read with `intval` before it
      is compared with null, and `intval` never gives null, so the invalid
      marker is never produced. */
  function FormatLogDateAsWritten(a: LogInput, milliseconds: bool): (r: LogDate)
    ensures r.Rfc2822?
    ensures r.seconds == if milliseconds then FloorThousandth(IntValOf(a)) else IntValOf(a)
  {
    var v := IntValOf(a);
    if milliseconds then Rfc2822(FloorThousandth(v)) else Rfc2822(v)
  }

  /** A client log without a timestamp is dated at the epoch instead of
      being marked invalid. */
  lemma MissingTimestampDatedAtEpoch()
    ensures FormatLogDateAsWritten(Missing, true) == Rfc2822(0)
    ensures FormatLogDateAsWritten(Missing, true) != InvalidDate
  {
  }

  /** `formatLogDate` with the null test made before `intval`: a missing
      value is marked invalid; otherwise milliseconds are floored to whole
      seconds. */
  function FormatLogDate(a: LogInput, milliseconds: bool): (r: LogDate)
    ensures r == InvalidDate <==> a.Missing?
    ensures !a.Missing? ==> r == FormatLogDateAsWritten(a, milliseconds)
  {
    if a.Missing? then InvalidDate else FormatLogDateAsWritten(a, milliseconds)
  }

  /** A client time in milliseconds names the second it falls in, and the
      server's own time is written as it is. */
  lemma LogDateSeconds(ms: int, now: int)
    ensures var d := FormatLogDate(Number(ms), true);
      d.Rfc2822? && d.seconds * 1000 <= ms < d.seconds * 1000 + 1000
    ensures FormatLogDate(Number(now), false) == Rfc2822(now)
    ensures FormatLogDate(Missing, true) == InvalidDate
  {
  }

  /** Whether some whitelist entry begins the URL, as the loop decides it:
      `substr(url, 0, strlen(entry)) === entry`, stopping at the first
      match. */
  method UrlAllowed(url: string, whitelist: seq<string>) returns (allowed: bool)
    ensures allowed <==> exists w :: w in whitelist && w <= url
  {
    allowed := false;
    var i := 0;
    while i < |whitelist|
      invariant 0 <= i <= |whitelist|
      invariant !allowed
      invariant forall k :: 0 <= k < i ==> !(whitelist[k] <= url)
    {
      HeadMatchesIffPrefix(url, whitelist[i]);
      if Head(url, |whitelist[i]|) == whitelist[i] {
        assert whitelist[i] in whitelist;
        allowed := true;
        return;
      }
      i := i + 1;
    }
  }

  /** The answer of the registration endpoint: an abort with a status, or
      JSON saying whether the endpoint was stored. */
  datatype Reply = Abort(status: int) | Json(success: bool)

  /** `postRegisterPushNotificationEndpoint`: 404 when notifications are
      off, 500 without a valid URL, `{success: false}` for a URL outside the
      whitelist; otherwise the session's endpoint is set to the URL, and a
      failed save is a 500. `endpoints` maps session ids to URLs. */
  method RegisterEndpoint(enabled: bool, url: Option<string>, validUrl: bool, whitelist: seq<string>,
                          endpoints: map<string, string>, session: string, saveOk: bool)
    returns (reply: Reply, endpoints': map<string, string>)
    ensures !enabled ==> reply == Abort(404) && endpoints' == endpoints
    ensures enabled && (url.None? || !validUrl) ==> reply == Abort(500) && endpoints' == endpoints
    ensures reply == Json(true) <==>
              enabled && url.Some? && validUrl && saveOk && (exists w :: w in whitelist && w <= url.value)
    ensures reply == Json(true) ==> endpoints' == endpoints[session := url.value]
    ensures reply != Json(true) ==> endpoints' == endpoints
  {
    endpoints' := endpoints;
    if !enabled {
      return Abort(404), endpoints';
    }
    if url.None? || !validUrl {
      return Abort(500), endpoints';
    }
    var allowed := UrlAllowed(url.value, whitelist);
    if !allowed {
      return Json(false), endpoints';
    }
    if !saveOk {
      return Abort(500), endpoints';
    }
    endpoints' := endpoints[session := url.value];
    reply := Json(true);
  }

  /** A stored notification: when it was made (milliseconds) and its
      payload. */
  datatype Notification = Notification(time: int, payload: string)

  /** Notifications are kept for two days. */
  const ExpirySeconds: int := 172800

  predicate Fresh(n: Notification, now: int)
  {
    n.time >= (now - ExpirySeconds) * 1000
  }

  /** The payloads of the notifications that have not expired, in the
      stored order. */
  function FreshPayloads(ns: seq<Notification>, now: int): (r: seq<string>)
    ensures |r| <= |ns|
    ensures forall p :: p in r <==> exists n :: n in ns && Fresh(n, now) && n.payload == p
  {
    if |ns| == 0 then []
    else
      var rest := FreshPayloads(ns[..|ns| - 1], now);
      var last := ns[|ns| - 1];
      assert ns == ns[..|ns| - 1] + [last];
      if Fresh(last, now) then rest + [last.payload] else rest
  }

  /** The filter keeps the stored order: it distributes over
      concatenation. */
  lemma {:induction false} FreshPayloadsAppend(a: seq<Notification>, b: seq<Notification>, now: int)
    ensures FreshPayloads(a + b, now) == FreshPayloads(a, now) + FreshPayloads(b, now)
    decreases |b|
  {
    if |b| == 0 {
      assert a + b == a;
    } else {
      var b' := b[..|b| - 1];
      assert (a + b)[..|a + b| - 1] == a + b';
      assert (a + b)[|a + b| - 1] == b[|b| - 1];
      FreshPayloadsAppend(a, b', now);
    }
  }

  /** A notification answered once is answered again at any earlier
      moment: expiry only ever removes. */
  lemma ExpiryOnlyRemoves(ns: seq<Notification>, now: int, later: int)
    requires now <= later
    ensures forall p :: p in FreshPayloads(ns, later) ==> p in FreshPayloads(ns, now)
  {
  }

  /** The key-value store: each key holds a list of notifications. */
  type Store = map<string, seq<Notification>>

  /** `getNotifications`: move the session's list to a temporary key (the
      rename fails when there is none), read it, delete `deleted`, and answer
      the fresh payloads. `arriving` stands for a notification stored under
      the session key by another request between the rename and the
      delete. With notifications off the answer is a 404, shown as `None`. */
  function TakeNotifications(enabled: bool, s: Store, key: string, tmpKey: string, now: int,
                             arriving: Option<Notification>, deleteTmp: bool): (r: Option<(seq<string>, Store)>)
    requires key != tmpKey
  {
    if !enabled then None
    else if key !in s then Some(([], s))
    else
      var moved := s[tmpKey := s[key]] - {key};
      var during := if arriving.Some? then moved[key := [arriving.value]] else moved;
      var after := if deleteTmp then during - {tmpKey} else during - {key};
      Some((FreshPayloads(s[key], now), after))
  }

  /** As written, the delete names the session key, which the rename has
      just emptied: a notification arriving in between is deleted unread,
      and the taken list stays under the temporary key. */
  function GetNotificationsAsWritten(enabled: bool, s: Store, key: string, tmpKey: string, now: int,
                                     arriving: Option<Notification>): (r: Option<(seq<string>, Store)>)
    requires key != tmpKey
    ensures enabled && key in s ==> r.Some? && tmpKey in r.value.1 && key !in r.value.1
  {
    TakeNotifications(enabled, s, key, tmpKey, now, arriving, false)
  }

  lemma ArrivingNotificationLost(s: Store, key: string, tmpKey: string, now: int, n: Notification)
    requires key != tmpKey && key in s
    ensures var r := GetNotificationsAsWritten(true, s, key, tmpKey, now, Some(n));
      r.Some? && key !in r.value.1 && r.value.1[tmpKey] == s[key]
  {
  }

  /** The delete made on the temporary key: the list taken is removed and a
      notification arriving meanwhile waits under the session key for the
      next request. */
  function GetNotifications(enabled: bool, s: Store, key: string, tmpKey: string, now: int,
                            arriving: Option<Notification>): (r: Option<(seq<string>, Store)>)
    requires key != tmpKey
    ensures r.None? <==> !enabled
    ensures enabled && key !in s ==> r == Some(([], s))
    ensures enabled && key in s ==> r.value.0 == FreshPayloads(s[key], now) && tmpKey !in r.value.1
  {
    TakeNotifications(enabled, s, key, tmpKey, now, arriving, true)
  }

  /** Nothing is lost: a notification arriving while the list is taken is
      answered by the next request, and every other key is left alone. */
  lemma ArrivingNotificationKept(s: Store, key: string, tmpKey: string, now: int, n: Notification, later: int)
    requires key != tmpKey && key in s && tmpKey !in s && Fresh(n, later)
    ensures var r := GetNotifications(true, s, key, tmpKey, now, Some(n));
      r.Some? && r.value.1[key] == [n]
      && (forall k :: k != key && k != tmpKey ==> (k in r.value.1 <==> k in s))
      && GetNotifications(true, r.value.1, key, tmpKey, later, None).value.0 == [n.payload]
  {
    var r := GetNotifications(true, s, key, tmpKey, now, Some(n));
    assert FreshPayloads([n], later) == FreshPayloads([], later) + [n.payload];
  }
}
