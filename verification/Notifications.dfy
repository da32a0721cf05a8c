/** The notification gate: preferences, a dedupe map, a sliding rate limit, and quiet hours. */
module Notifications {
  import opened Wrappers

  const DEDUPE_WINDOW := 2000
  const RATE_LIMIT_WINDOW := 10000
  const RATE_LIMIT_MAX := 6

  /** One call to `notify`; `muted` is the verdict of the preferences, the quiet hours and the focus. */
  datatype Call = Call(key: string, at: int, muted: bool)

  // ------------------------------------------- the gate, read off the whole history

  /** When a call with this key last passed the dedupe test. */
  function LastPassed(calls: seq<Call>, key: string): Option<int>
    decreases |calls|, 0
  {
    if calls == [] then None
    else
      var last := calls[|calls| - 1];
      if last.key == key && Passes(calls) then Some(last.at) else LastPassed(calls[..|calls| - 1], key)
  }

  /** The last call is not muted, and its key did not pass within two seconds before. */
  predicate Passes(calls: seq<Call>)
    requires calls != []
    decreases |calls| - 1, 1
  {
    var last := calls[|calls| - 1];
    var earlier := LastPassed(calls[..|calls| - 1], last.key);
    !last.muted && (earlier.None? || last.at - earlier.value >= DEDUPE_WINDOW)
  }

  /** The times of the calls that were let through. */
  function Shown(calls: seq<Call>): seq<int>
    decreases |calls|, 0
  {
    if calls == [] then []
    else Shown(calls[..|calls| - 1]) + if IsShown(calls) then [calls[|calls| - 1].at] else []
  }

  /** The last call passes, and fewer than six were let through in the ten seconds up to it. */
  predicate IsShown(calls: seq<Call>)
    requires calls != []
    decreases |calls| - 1, 1
  {
    Passes(calls) && |Recent(Shown(calls[..|calls| - 1]), calls[|calls| - 1].at)| < RATE_LIMIT_MAX
  }

  function Recent(times: seq<int>, now: int): (r: seq<int>)
    ensures |r| <= |times|
  {
    if times == [] then []
    else
      var front, last := Recent(times[..|times| - 1], now), times[|times| - 1];
      if now - last <= RATE_LIMIT_WINDOW then front + [last] else front
  }

  predicate Ordered(calls: seq<Call>) {
    forall i, j :: 0 <= i < j < |calls| ==> calls[i].at <= calls[j].at
  }

  predicate Ascending(times: seq<int>) {
    forall i, j :: 0 <= i < j < |times| ==> times[i] <= times[j]
  }

  lemma {:induction false} ShownInOrder(calls: seq<Call>)
    requires Ordered(calls)
    ensures Ascending(Shown(calls))
    ensures calls != [] ==> forall t :: t in Shown(calls) ==> t <= calls[|calls| - 1].at
  {
    if calls != [] {
      var front := calls[..|calls| - 1];
      ShownInOrder(front);
      assert forall i :: 0 <= i < |Shown(front)| ==> Shown(front)[i] in Shown(front);
    }
  }

  /** Of ascending times, the recent ones are those behind the outdated ones. */
  lemma {:induction false} RecentIsTail(times: seq<int>, now: int, k: nat)
    requires Ascending(times) && k <= |times|
    requires forall i :: 0 <= i < k ==> now - times[i] > RATE_LIMIT_WINDOW
    requires k < |times| ==> now - times[k] <= RATE_LIMIT_WINDOW
    ensures Recent(times, now) == times[k..]
  {
    if times != [] {
      var front, last := times[..|times| - 1], times[|times| - 1];
      assert times == front + [last];
      if k < |times| {
        RecentIsTail(front, now, k);
        assert times[k..] == front[k..] + [last];
        assert times[k] <= last;
      } else {
        RecentIsTail(front, now, k - 1);
      }
    }
  }

  lemma {:induction false} RecentHolds(times: seq<int>, now: int, k: nat)
    requires Ascending(times) && k < |times| && now - times[k] <= RATE_LIMIT_WINDOW
    ensures |Recent(times, now)| >= |times| - k
  {
    var front := times[..|times| - 1];
    if k < |times| - 1 {
      RecentHolds(front, now, k);
    }
  }

  /** Any seven notifications let through span more than ten seconds. */
  lemma {:induction false} SevenSpanTheWindow(calls: seq<Call>, i: nat)
    requires Ordered(calls) && i + 6 < |Shown(calls)|
    ensures Shown(calls)[i + 6] - Shown(calls)[i] > 10000
  {
    var front, now := calls[..|calls| - 1], calls[|calls| - 1].at;
    if i + RATE_LIMIT_MAX < |Shown(front)| {
      SevenSpanTheWindow(front, i);
    } else {
      ShownInOrder(front);
      assert i + RATE_LIMIT_MAX == |Shown(front)| && Shown(calls)[i + RATE_LIMIT_MAX] == now;
      if now - Shown(front)[i] <= RATE_LIMIT_WINDOW {
        RecentHolds(Shown(front), now, i);
      }
    }
  }

  lemma {:induction false} PassedIsRemembered(calls: seq<Call>, m: nat)
    requires Ordered(calls) && m < |calls| && Passes(calls[..m + 1])
    ensures LastPassed(calls, calls[m].key).Some? && LastPassed(calls, calls[m].key).value >= calls[m].at
  {
    var n, key := |calls| - 1, calls[m].key;
    if m == n {
      assert calls[..m + 1] == calls;
    } else if calls[n].key != key || !Passes(calls) {
      assert calls[..n][..m + 1] == calls[..m + 1];
      PassedIsRemembered(calls[..n], m);
    }
  }

  /** Two notifications let through with the same key are at least two seconds apart. */
  lemma SameKeyIsSpaced(calls: seq<Call>, m: nat, n: nat)
    requires Ordered(calls) && m < n < |calls| && calls[m].key == calls[n].key
    requires IsShown(calls[..m + 1]) && IsShown(calls[..n + 1])
    ensures calls[n].at - calls[m].at >= 2000
  {
    assert calls[..n + 1][..n] == calls[..n] && calls[..n][..m + 1] == calls[..m + 1];
    PassedIsRemembered(calls[..n], m);
  }

  lemma {:induction false} LastPassedWas(calls: seq<Call>, key: string)
    ensures LastPassed(calls, key).Some? ==>
      exists m :: 0 <= m < |calls| && calls[m].key == key && calls[m].at == LastPassed(calls, key).value
        && Passes(calls[..m + 1])
  {
    if calls != [] {
      var n := |calls| - 1;
      if calls[n].key == key && Passes(calls) {
        assert calls[..n + 1] == calls;
      } else {
        LastPassedWas(calls[..n], key);
        if LastPassed(calls, key).Some? {
          var m :| 0 <= m < n && calls[..n][m].key == key && calls[..n][m].at == LastPassed(calls, key).value
                   && Passes(calls[..n][..m + 1]);
          assert calls[..n][..m + 1] == calls[..m + 1];
        }
      }
    }
  }

  /** Some earlier call with the key of the last one passed less than two seconds before it. */
  ghost predicate Repeats(calls: seq<Call>)
    requires calls != []
  {
    var n := |calls| - 1;
    exists m :: 0 <= m < n && calls[m].key == calls[n].key && Passes(calls[..m + 1]) && calls[n].at - calls[m].at < 2000
  }

  lemma PassesIff(calls: seq<Call>)
    requires Ordered(calls) && calls != []
    ensures Passes(calls) <==> !calls[|calls| - 1].muted && !Repeats(calls)
  {
    var n := |calls| - 1;
    var key, front := calls[n].key, calls[..n];
    LastPassedWas(front, key);
    if LastPassed(front, key).Some? {
      var m :| 0 <= m < n && front[m].key == key && front[m].at == LastPassed(front, key).value
               && Passes(front[..m + 1]);
      assert front[..m + 1] == calls[..m + 1];
    }
    forall m | 0 <= m < n && calls[m].key == key && Passes(calls[..m + 1])
      ensures LastPassed(front, key).Some? && LastPassed(front, key).value >= calls[m].at
    {
      assert front[..m + 1] == calls[..m + 1];
      PassedIsRemembered(front, m);
    }
  }

  lemma RecentCount(times: seq<int>, now: int)
    requires Ascending(times)
    ensures |Recent(times, now)| < 6 <==> |times| < 6 || now - times[|times| - 6] > 10000
  {
    var k := CountOld(times, now);
    RecentIsTail(times, now, k);
    if |times| >= 6 && k <= |times| - 6 {
      assert times[k] <= times[|times| - 6];
    }
  }

  /**
    A call is shown if and only if it is not muted, no call with its key passed
    less than two seconds before, and fewer than six were shown within the last
    ten seconds: the sixth last one shown lies further back.
  */
  lemma ShownIff(calls: seq<Call>)
    requires Ordered(calls) && calls != []
    ensures
      var last, shown := calls[|calls| - 1], Shown(calls[..|calls| - 1]);
      IsShown(calls) <==>
        && !last.muted && !Repeats(calls)
        && (|shown| < 6 || last.at - shown[|shown| - 6] > 10000)
  {
    ShownInOrder(calls[..|calls| - 1]);
    PassesIff(calls);
    RecentCount(Shown(calls[..|calls| - 1]), calls[|calls| - 1].at);
  }

  // ---------------------------------------------------------------- the gate as built

  predicate LongAgo(calls: seq<Call>, t: int, window: nat) {
    calls != [] && calls[|calls| - 1].at - t > window
  }

  /** The map holds when each key last passed, except for keys that passed too long ago to matter. */
  ghost predicate TracksKeys(recent: map<string, int>, calls: seq<Call>) {
    && (forall key :: key in recent ==> LastPassed(calls, key) == Some(recent[key]))
    && (forall key :: key !in recent && LastPassed(calls, key).Some? ==>
          LongAgo(calls, LastPassed(calls, key).value, DEDUPE_WINDOW))
  }

  /** The list is the tail of the times let through, without times too long ago to matter. */
  ghost predicate TracksTimes(emitted: seq<int>, calls: seq<Call>) {
    exists k :: 0 <= k <= |Shown(calls)| && IsTail(emitted, calls, k)
  }

  ghost predicate IsTail(emitted: seq<int>, calls: seq<Call>, k: nat)
    requires k <= |Shown(calls)|
  {
    && emitted == Shown(calls)[k..]
    && forall i :: 0 <= i < k ==> LongAgo(calls, Shown(calls)[i], RATE_LIMIT_WINDOW)
  }

  lemma KeysAfter(recent: map<string, int>, past: seq<Call>, call: Call)
    requires TracksKeys(recent, past) && Ordered(past + [call])
    ensures Passes(past + [call]) <==>
      !call.muted && !(call.key in recent && call.at - recent[call.key] < DEDUPE_WINDOW)
    ensures !Passes(past + [call]) ==> TracksKeys(recent, past + [call])
    ensures Passes(past + [call]) ==>
      var all := recent[call.key := call.at];
      TracksKeys(map k | k in all && call.at - all[k] <= DEDUPE_WINDOW * 4 :: all[k], past + [call])
  {
    var calls := past + [call];
    assert calls[..|past|] == past && calls[|past|] == call;
    assert past != [] ==> calls[|past| - 1].at <= calls[|past|].at;
  }

  /** Shifting the list and shifting the whole history leave the same times. */
  lemma ShiftIsExact(shown: seq<int>, now: int, k: nat) returns (n: nat)
    requires Ascending(shown) && k <= |shown|
    requires forall i :: 0 <= i < k ==> now - shown[i] > RATE_LIMIT_WINDOW
    ensures Ascending(shown[k..]) && n <= |shown|
    ensures Recent(shown[k..], now) == shown[n..] == Recent(shown, now)
    ensures forall i :: 0 <= i < n ==> now - shown[i] > RATE_LIMIT_WINDOW
  {
    n := CountOld(shown, now);
    RecentIsTail(shown, now, n);
    assert n >= k;
    var tail := shown[k..];
    assert forall i :: 0 <= i < |tail| ==> tail[i] == shown[k + i];
    RecentIsTail(tail, now, n - k);
    assert tail[n - k..] == shown[n..];
  }

  lemma TimesAfter(emitted: seq<int>, past: seq<Call>, call: Call)
    requires TracksTimes(emitted, past) && Ordered(past + [call])
    ensures Ascending(emitted)
    ensures Recent(emitted, call.at) == Recent(Shown(past), call.at)
    ensures !IsShown(past + [call]) ==> TracksTimes(emitted, past + [call])
    ensures !IsShown(past + [call]) ==> TracksTimes(Recent(emitted, call.at), past + [call])
    ensures IsShown(past + [call]) ==> TracksTimes(Recent(emitted, call.at) + [call.at], past + [call])
  {
    var k :| 0 <= k <= |Shown(past)| && IsTail(emitted, past, k);
    var calls := past + [call];
    assert calls[|past|] == call && forall i :: 0 <= i < |past| ==> past[i] == calls[i];
    assert past != [] ==> past[|past| - 1].at <= call.at;
    ShownInOrder(past);
    var n := ShiftIsExact(Shown(past), call.at, k);
    TailAfter(emitted, past, call, k);
    TailAfter(Shown(past)[n..], past, call, n);
  }

  lemma TailAfter(emitted: seq<int>, past: seq<Call>, call: Call, k: nat)
    requires k <= |Shown(past)| && emitted == Shown(past)[k..]
    requires forall i :: 0 <= i < k ==> call.at - Shown(past)[i] > RATE_LIMIT_WINDOW
    ensures TracksTimes(if IsShown(past + [call]) then emitted + [call.at] else emitted, past + [call])
  {
    var calls := past + [call];
    assert calls[..|past|] == past && calls[|past|] == call;
    if IsShown(calls) {
      assert Shown(calls)[k..] == emitted + [call.at];
      assert IsTail(emitted + [call.at], calls, k);
    } else {
      assert IsTail(emitted, calls, k);
    }
  }

  function CountOld(times: seq<int>, now: int): (n: nat)
    ensures n <= |times|
    ensures forall i :: 0 <= i < n ==> now - times[i] > RATE_LIMIT_WINDOW
    ensures n < |times| ==> now - times[n] <= RATE_LIMIT_WINDOW
  {
    if times == [] || now - times[0] <= RATE_LIMIT_WINDOW then 0 else CountOld(times[1..], now) + 1
  }

  /** The module keeps a pruned map and a shifted list instead of the history. */
  class Notifier {
    var recentByKey: map<string, int>
    var emitted: seq<int>
    ghost var calls: seq<Call>

    constructor ()
      ensures Valid() && calls == []
    {
      recentByKey := map[];
      emitted := [];
      calls := [];
      new;
      assert IsTail(emitted, calls, 0);
    }

    ghost predicate Valid()
      reads this
    {
      Ordered(calls) && TracksKeys(recentByKey, calls) && TracksTimes(emitted, calls)
    }

    method ShouldRateLimit(now: int) returns (limited: bool)
      modifies this`emitted
      requires Ascending(emitted)
      ensures emitted == Recent(old(emitted), now)
      ensures limited == (|emitted| >= RATE_LIMIT_MAX)
    {
      ghost var k := 0;
      while |emitted| > 0 && now - emitted[0] > RATE_LIMIT_WINDOW
        invariant k <= |old(emitted)| && emitted == old(emitted)[k..]
        invariant forall i :: 0 <= i < k ==> now - old(emitted)[i] > RATE_LIMIT_WINDOW
        decreases |emitted|
      {
        emitted := emitted[1..];
        k := k + 1;
      }
      RecentIsTail(old(emitted), now, k);
      limited := |emitted| >= RATE_LIMIT_MAX;
    }

    /** Remembers a key that passes, and prunes what is older than four windows. */
    method SeenRecently(key: string, now: int) returns (seen: bool)
      modifies this`recentByKey
      ensures seen == (key in old(recentByKey) && now - old(recentByKey)[key] < DEDUPE_WINDOW)
      ensures seen ==> recentByKey == old(recentByKey)
      ensures !seen ==>
        var all := old(recentByKey)[key := now];
        recentByKey == map k | k in all && now - all[k] <= DEDUPE_WINDOW * 4 :: all[k]
    {
      if key in recentByKey && now - recentByKey[key] < DEDUPE_WINDOW {
        return true;
      }
      recentByKey := recentByKey[key := now];
      ghost var all := recentByKey;
      var rest := recentByKey.Keys;
      while rest != {}
        invariant rest <= all.Keys && rest <= recentByKey.Keys
        invariant forall k :: k in recentByKey <==> k in all && (k in rest || now - all[k] <= DEDUPE_WINDOW * 4)
        invariant forall k :: k in recentByKey ==> recentByKey[k] == all[k]
        decreases rest
      {
        var k :| k in rest;
        if now - recentByKey[k] > DEDUPE_WINDOW * 4 {
          recentByKey := recentByKey - {k};
        }
        rest := rest - {k};
      }
      seen := false;
    }

    /** The pruned state decides every call as the whole history does. */
    method Notify(call: Call) returns (shown: bool)
      requires Valid() && (calls != [] ==> calls[|calls| - 1].at <= call.at)
      modifies this
      ensures Valid() && calls == old(calls) + [call]
      ensures shown == IsShown(calls)
    {
      ghost var past := calls;
      calls := calls + [call];
      assert calls[..|past|] == past;
      KeysAfter(recentByKey, past, call);
      TimesAfter(emitted, past, call);
      if call.muted {
        return false;
      }
      var seen := SeenRecently(call.key, call.at);
      if seen {
        return false;
      }
      var limited := ShouldRateLimit(call.at);
      if limited {
        return false;
      }
      emitted := emitted + [call.at];
      shown := true;
    }
  }

  // --------------------------------------------------------------------- quiet hours

  const DAY := 1440

  /** `isQuietHoursActive` on minutes of the day; a time that does not parse turns it off. */
  function QuietHoursActive(enabled: bool, start: Option<nat>, end: Option<nat>, now: nat): bool {
    if !enabled || start.None? || end.None? || start == end then false
    else if start.value < end.value then start.value <= now < end.value
    else now >= start.value || now < end.value
  }

  /** The two branches together are membership in a stretch of the clock face, across midnight or not. */
  lemma QuietHoursAreCircular(start: nat, end: nat, now: nat)
    requires start < DAY && end < DAY && now < DAY
    ensures QuietHoursActive(true, Some(start), Some(end), now) <==> (now - start) % 1440 < (end - start) % 1440
    ensures !QuietHoursActive(false, Some(start), Some(end), now)
    ensures !QuietHoursActive(true, None, Some(end), now) && !QuietHoursActive(true, Some(start), None, now)
  {
    assert (now - start) % DAY == if now >= start then now - start else now - start + DAY;
    assert (end - start) % DAY == if end >= start then end - start else end - start + DAY;
  }
}
