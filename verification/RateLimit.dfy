/** The sliding-window limiter on sign-in attempts, against the plain count of its history. */
module RateLimit {
  import opened Core

  /** An accepted hit, or a key's reset. */
  datatype Event = Hit(key: string, at: Time) | Reset(key: string)

  /** Accepted hits of a key since its last reset, oldest first. */
  function Hits(log: seq<Event>, key: string): seq<Time> {
    if log == [] then []
    else
      var (rest, e) := (Hits(log[..|log| - 1], key), log[|log| - 1]);
      if e.key != key then rest else if e.Reset? then [] else rest + [e.at]
  }

  function After(times: seq<Time>, cutoff: Time): seq<Time> {
    if times == [] then []
    else
      var (rest, t) := (After(times[..|times| - 1], cutoff), times[|times| - 1]);
      if t > cutoff then rest + [t] else rest
  }

  /** Fewer than `limit` hits of the key were accepted within the last `window`. */
  predicate Below(log: seq<Event>, key: string, now: Time, limit: int, window: int) {
    |After(Hits(log, key), now - window)| < limit
  }

  predicate Ascending(times: seq<Time>) {
    forall i, j :: 0 <= i < j < |times| ==> times[i] <= times[j]
  }

  // ---------------------------------------------------------------------------
  // Facts about the count
  // ---------------------------------------------------------------------------

  lemma AfterNone(cutoff: Time)
    ensures After([], cutoff) == []
  {
  }

  lemma AfterAppend(times: seq<Time>, t: Time, cutoff: Time)
    ensures After(times + [t], cutoff) == if t > cutoff then After(times, cutoff) + [t] else After(times, cutoff)
  {
    assert (times + [t])[..|times|] == times;
  }

  lemma HitsAppend(log: seq<Event>, e: Event, key: string)
    ensures Hits(log + [e], key)
         == if e.key != key then Hits(log, key) else if e.Reset? then [] else Hits(log, key) + [e.at]
  {
    assert (log + [e])[..|log|] == log;
  }

  /** What an earlier cutoff dropped a later one would have dropped. */
  lemma {:induction false} AfterTwice(times: seq<Time>, earlier: Time, later: Time)
    requires earlier <= later
    ensures After(After(times, earlier), later) == After(times, later)
  {
    if times != [] {
      var (init, t) := (times[..|times| - 1], times[|times| - 1]);
      AfterTwice(init, earlier, later);
      AfterAppend(After(init, earlier), t, later);
    }
  }

  lemma {:induction false} AfterAll(times: seq<Time>, cutoff: Time)
    requires forall i :: 0 <= i < |times| ==> times[i] <= cutoff
    ensures After(times, cutoff) == []
  {
    if times != [] {
      AfterAll(times[..|times| - 1], cutoff);
    }
  }

  /** In ascending times the hits after a cutoff are the last ones. */
  lemma {:induction false} AfterIsSuffix(times: seq<Time>, cutoff: Time)
    requires Ascending(times)
    ensures |After(times, cutoff)| <= |times|
    ensures After(times, cutoff) == times[|times| - |After(times, cutoff)|..]
    ensures forall i :: 0 <= i < |times| ==> (times[i] > cutoff <==> i >= |times| - |After(times, cutoff)|)
  {
    if times != [] {
      var (init, t) := (times[..|times| - 1], times[|times| - 1]);
      AfterIsSuffix(init, cutoff);
      if t <= cutoff {
        AfterAll(times, cutoff);
      } else {
        assert times[|times| - |After(times, cutoff)|..] == init[|init| - |After(init, cutoff)|..] + [t];
      }
    }
  }

  /** Stored hits stand for a key's whole history as far as any answer from `latest` on can tell. */
  ghost predicate StandsFor(stored: seq<Time>, history: seq<Time>, latest: Option<Time>, limit: int, window: int) {
    && Ascending(stored)
    && |stored| <= (if limit < 0 then 0 else limit)
    && (latest.None? ==> stored == [] && history == [])
    && (latest.Some? ==>
          && (forall i :: 0 <= i < |stored| ==> stored[i] <= latest.value)
          && After(stored, latest.value - window) == After(history, latest.value - window))
  }

  lemma StandsLater(stored: seq<Time>, history: seq<Time>, latest: Option<Time>, now: Time, limit: int, window: int)
    requires StandsFor(stored, history, latest, limit, window) && (latest.Some? ==> latest.value <= now)
    ensures StandsFor(stored, history, Some(now), limit, window)
  {
    if latest.Some? {
      AfterTwice(stored, latest.value - window, now - window);
      AfterTwice(history, latest.value - window, now - window);
    }
  }

  /** Dropping a key whose last hit has left the window changes no later answer. */
  lemma DroppedStands(stored: seq<Time>, history: seq<Time>, now: Time, limit: int, window: int)
    requires StandsFor(stored, history, Some(now), limit, window)
    requires stored != [] && now - stored[|stored| - 1] > window
    ensures StandsFor([], history, Some(now), limit, window)
  {
    AfterAll(stored, now - window);
  }

  lemma CompactedStands(stored: seq<Time>, history: seq<Time>, now: Time, limit: int, window: int)
    requires StandsFor(stored, history, Some(now), limit, window)
    ensures StandsFor(After(stored, now - window), history, Some(now), limit, window)
    ensures After(stored, now - window) == After(history, now - window)
  {
    hide After;
    var kept := After(stored, now - window);
    var n := |stored| - |kept|;
    AfterIsSuffix(stored, now - window);
    AfterTwice(stored, now - window, now - window);
    SuffixAscends(stored, n, now);
    assert kept == stored[n..];
    hide Ascending;
    assert Ascending(kept) && |kept| <= |stored|;
  }

  lemma SuffixAscends(times: seq<Time>, n: nat, latest: Time)
    requires Ascending(times) && n <= |times| && forall i :: 0 <= i < |times| ==> times[i] <= latest
    ensures Ascending(times[n..]) && forall i :: 0 <= i < |times| - n ==> times[n..][i] <= latest
  {
  }

  lemma AcceptedStands(stored: seq<Time>, history: seq<Time>, now: Time, limit: int, window: int)
    requires StandsFor(stored, history, Some(now), limit, window) && |stored| < limit
    ensures StandsFor(stored + [now], history + [now], Some(now), limit, window)
  {
    AfterAppend(stored, now, now - window);
    AfterAppend(history, now, now - window);
    hide After;
    var longer := stored + [now];
    assert forall i :: 0 <= i < |stored| ==> longer[i] == stored[i] && stored[i] <= now;
    assert Ascending(longer) && |longer| <= limit;
    hide Ascending;
  }

  lemma FullExactlyWhenCounted(stored: seq<Time>, log: seq<Event>, key: string, now: Time, limit: int, window: int)
    requires StandsFor(stored, Hits(log, key), Some(now), limit, window)
    ensures Below(log, key, now, limit, window) <==> |After(stored, now - window)| < limit
  {
    CompactedStands(stored, Hits(log, key), now, limit, window);
  }

  /** Every key's stored hits still stand for its history after an answer about one of them. */
  lemma AnsweredStands(before: seq<Time>, after: seq<Time>, log: seq<Event>, k: string, key: string, now: Time,
                       ok: bool, limit: int, window: int)
    requires StandsFor(before, Hits(log, k), Some(now), limit, window)
    requires k != key ==> after == before
    requires k == key ==> after == After(before, now - window) + (if ok then [now] else [])
    requires ok && k == key ==> |After(before, now - window)| < limit
    ensures StandsFor(after, Hits(if ok then log + [Hit(key, now)] else log, k), Some(now), limit, window)
  {
    hide After, StandsFor, Hits;
    HitsAppend(log, Hit(key, now), k);
    if k == key {
      var kept := After(before, now - window);
      CompactedStands(before, Hits(log, k), now, limit, window);
      if ok {
        AcceptedStands(kept, Hits(log, k), now, limit, window);
      } else {
        assert kept + [] == kept;
      }
    }
  }

  // ---------------------------------------------------------------------------
  // What a history of answers holds
  // ---------------------------------------------------------------------------

  function LastHit(log: seq<Event>): Option<Time> {
    if log == [] then None
    else if log[|log| - 1].Hit? then Some(log[|log| - 1].at) else LastHit(log[..|log| - 1])
  }

  predicate NotAfter(earlier: Option<Time>, now: Time) {
    earlier.Some? ==> earlier.value <= now
  }

  /** A history in which every hit came in time order and found its window below the limit. */
  predicate Admitted(log: seq<Event>, limit: int, window: int) {
    log == []
    || (var (init, e) := (log[..|log| - 1], log[|log| - 1]);
        Admitted(init, limit, window)
        && (e.Hit? ==> NotAfter(LastHit(init), e.at) && Below(init, e.key, e.at, limit, window)))
  }

  lemma AdmittedAppend(log: seq<Event>, e: Event, limit: int, window: int)
    requires Admitted(log, limit, window)
    ensures LastHit(log + [e]) == if e.Hit? then Some(e.at) else LastHit(log)
    ensures (e.Hit? ==> NotAfter(LastHit(log), e.at) && Below(log, e.key, e.at, limit, window))
            ==> Admitted(log + [e], limit, window)
  {
    assert (log + [e])[..|log|] == log;
  }

  lemma {:induction false} HitsAscend(log: seq<Event>, key: string, limit: int, window: int)
    requires Admitted(log, limit, window)
    ensures Ascending(Hits(log, key))
    ensures forall i :: 0 <= i < |Hits(log, key)| ==> LastHit(log).Some? && Hits(log, key)[i] <= LastHit(log).value
  {
    hide Below;
    if log != [] {
      var (init, e) := (log[..|log| - 1], log[|log| - 1]);
      HitsAscend(init, key, limit, window);
      var (h, rest) := (Hits(log, key), Hits(init, key));
      assert h == [] || h == rest || (e.Hit? && h == rest + [e.at]);
      assert LastHit(log) == if e.Hit? then Some(e.at) else LastHit(init);
      hide Hits, Admitted, LastHit;
    }
  }

  /** Hits less than `window` apart have, both counted, at most `limit` hits from one to the other. */
  predicate WindowsHold(h: seq<Time>, limit: int, window: int) {
    forall i, j :: 0 <= i <= j < |h| && h[j] - h[i] < window ==> j - i + 1 <= limit
  }

  lemma OneMoreFits(h: seq<Time>, at: Time, limit: int, window: int)
    requires Ascending(h) && |After(h, at - window)| < limit && WindowsHold(h, limit, window)
    ensures WindowsHold(h + [at], limit, window)
  {
    AfterIsSuffix(h, at - window);
    hide After, Ascending;
    forall i | 0 <= i < |h| && at - h[i] < window
      ensures |h| - i + 1 <= limit
    {
      assert h[i] > at - window;
    }
  }

  /**
   * Since a key's last reset any stretch of `window`, open at one end, holds at
   * most `limit` accepted hits: hits less than `window` apart have, both
   * counted, at most `limit` hits from one to the other.
   */
  lemma {:induction false} EveryWindowHoldsAtMostTheLimit(log: seq<Event>, key: string, limit: int, window: int)
    requires Admitted(log, limit, window)
    ensures var h := Hits(log, key);
      && (limit <= 0 ==> h == [])
      && WindowsHold(h, limit, window)
  {
    if log != [] {
      var (init, e) := (log[..|log| - 1], log[|log| - 1]);
      EveryWindowHoldsAtMostTheLimit(init, key, limit, window);
      HitsAscend(init, key, limit, window);
      if e.Hit? && e.key == key {
        var h := Hits(init, key);
        assert Hits(log, key) == h + [e.at] && Below(init, key, e.at, limit, window);
        hide After, Admitted, Hits, Ascending;
        OneMoreFits(h, e.at, limit, window);
      }
    }
  }


  // ---------------------------------------------------------------------------
  // The limiter
  // ---------------------------------------------------------------------------

  /** A slice over an array it owns: `data[..len]` is in use, the rest is spare capacity. */
  datatype Slice = Slice(data: array<Time>, len: nat)

  /** No two keys share an array. */
  predicate Apart(hits: map<string, Slice>) {
    && (forall k :: k in hits ==> hits[k].len <= hits[k].data.Length)
    && (forall j, k :: j in hits && k in hits && j != k ==> hits[j].data != hits[k].data)
  }

  predicate Fewer(hits: map<string, Slice>, was: map<string, Slice>) {
    hits.Keys <= was.Keys && forall k :: k in hits ==> hits[k] == was[k]
  }

  lemma FewerStayApart(hits: map<string, Slice>, was: map<string, Slice>)
    requires Apart(was) && Fewer(hits, was)
    ensures Apart(hits)
  {
  }

  class RateLimiter {
    var hits: map<string, Slice>
    const limit: int
    const window: int
    var lastScan: Option<Time>
    ghost var log: seq<Event>
    ghost var latest: Option<Time>

    ghost predicate Shape()
      reads this`hits
    {
      Apart(hits)
    }

    ghost function Stored(key: string): seq<Time>
      reads this`hits, set k | k in hits :: hits[k].data
      requires Shape()
    {
      if key in hits then hits[key].data[..hits[key].len] else []
    }

    ghost predicate Stands(key: string, log: seq<Event>, latest: Option<Time>)
      reads this`hits, set k | k in hits :: hits[k].data
      requires Shape()
    {
      StandsFor(Stored(key), Hits(log, key), latest, limit, window)
    }

    ghost predicate Valid()
      reads this, set k | k in hits :: hits[k].data
    {
      && Shape() && (forall key :: Stands(key, log, latest))
      && Admitted(log, limit, window)
      && (LastHit(log).Some? ==> latest.Some? && LastHit(log).value <= latest.value)
    }

    constructor (limit: int, window: int)
      ensures Valid() && this.limit == limit && this.window == window && log == [] && latest.None?
    {
      this.limit, this.window := limit, window;
      hits, lastScan, log, latest := map[], None, [], None;
    }

    method Reset(key: string)
      requires Valid()
      modifies this`hits, this`log
      ensures Valid() && log == old(log) + [Event.Reset(key)]
    {
      hits := hits - {key};
      AdmittedAppend(log, Event.Reset(key), limit, window);
      log := log + [Event.Reset(key)];
      forall k
        ensures Stands(k, log, latest)
      {
        HitsAppend(old(log), Event.Reset(key), k);
        assert old(Stands(k, log, latest));
      }
    }

    ghost predicate Stale(times: Slice, now: Time)
      reads times.data
    {
      times.len == 0 || (times.len <= times.data.Length && now - times.data[times.len - 1] > window)
    }

    /** Drops the keys whose last hit left the window, so that they have none. */
    method Scan(now: Time)
      requires Shape()
      modifies this`hits
      ensures Shape() && forall k :: k in hits ==> k in old(hits) && hits[k] == old(hits)[k]
      ensures forall k :: Stored(k) == old(Stored(k))
                          || (Stored(k) == [] && old(Stored(k)) != []
                              && now - old(Stored(k))[|old(Stored(k))| - 1] > window)
    {
      DropStale(now);
      forall k
        ensures Stored(k) == old(Stored(k))
                || (Stored(k) == [] && old(Stored(k)) != [] && now - old(Stored(k))[|old(Stored(k))| - 1] > window)
      {
        assert k in old(hits) && k !in hits ==> Stale(old(hits)[k], now);
      }
    }

    method DropStale(now: Time)
      requires Shape()
      modifies this`hits
      ensures Shape() && Fewer(hits, old(hits))
      ensures forall k :: k in old(hits) && k !in hits ==> Stale(old(hits)[k], now)
    {
      var keys := hits.Keys;
      ghost var was := hits;
      while keys != {}
        invariant keys <= hits.Keys && Fewer(hits, was)
        invariant forall k :: k in was && k !in hits ==> Stale(was[k], now)
        decreases |keys|
      {
        var k :| k in keys;
        keys := keys - {k};
        var times := hits[k];
        if times.len == 0 || now - times.data[times.len - 1] > window {
          hits := hits - {k};
        }
      }
      FewerStayApart(hits, was);
    }

    /** Keeps the hits after the cutoff in the slice's own array. */
    method Compact(times: Slice, cutoff: Time) returns (kept: nat)
      requires times.len <= times.data.Length
      modifies times.data
      ensures kept <= times.len && times.data[..kept] == After(old(times.data[..times.len]), cutoff)
    {
      kept := 0;
      ghost var was := times.data[..times.len];
      AfterNone(cutoff);
      assert was[..0] == [];
      hide After;
      for i := 0 to times.len
        invariant kept <= i
        invariant times.data[..kept] == After(was[..i], cutoff)
        invariant forall j :: i <= j < times.len ==> times.data[j] == was[j]
      {
        var t := times.data[i];
        AfterAppend(was[..i], t, cutoff);
        assert was[..i + 1] == was[..i] + [t];
        if t > cutoff {
          ghost var before := times.data[..kept];
          times.data[kept] := t;
          assert times.data[..kept + 1] == before + [t];
          kept := kept + 1;
        }
      }
      assert was[..times.len] == was;
    }

    /** The slice with one more hit: in its own array while it has room, in a larger copy otherwise. */
    method Append(times: Slice, t: Time) returns (longer: Slice)
      requires times.len <= times.data.Length
      modifies times.data
      ensures longer.len == times.len + 1 <= longer.data.Length
      ensures longer.data == times.data || fresh(longer.data)
      ensures longer.data[..longer.len] == old(times.data[..times.len]) + [t]
    {
      if times.len < times.data.Length {
        times.data[times.len] := t;
        return Slice(times.data, times.len + 1);
      }
      var data := new Time[2 * times.len + 1];
      for i := 0 to times.len
        invariant forall j :: 0 <= j < i ==> data[j] == times.data[j]
        invariant unchanged(times.data)
      {
        data[i] := times.data[i];
      }
      data[times.len] := t;
      return Slice(data, times.len + 1);
    }

    /**
     * The answer depends on the history alone: scans, compaction in place and
     * the arrays they share never change it.
     */
    method Allow(key: string, now: Time) returns (ok: bool)
      requires Valid() && (latest.Some? ==> latest.value <= now)
      modifies this`hits, this`lastScan, this`log, this`latest, set k | k in hits :: hits[k].data
      ensures Valid() && latest == Some(now)
      ensures ok == Below(old(log), key, now, limit, window)
      ensures log == if ok then old(log) + [Hit(key, now)] else old(log)
    {
      hide After, StandsFor, Hits, Below, Ascending, Admitted, LastHit;
      if lastScan.None? || now - lastScan.value > window {
        Scan(now);
        lastScan := Some(now);
      }
      forall k
        ensures Stands(k, log, Some(now))
      {
        assert old(Stands(k, log, latest));
        StandsLater(old(Stored(k)), Hits(log, k), latest, now, limit, window);
        if Stored(k) != old(Stored(k)) {
          DroppedStands(old(Stored(k)), Hits(log, k), now, limit, window);
        }
      }
      AdmittedAppend(log, Hit(key, now), limit, window);
      latest := Some(now);
      ok := Count(key, now);
    }

    /** Compacts the key's hits and adds this one unless the window is full. */
    method Count(key: string, now: Time) returns (ok: bool)
      requires Shape() && forall k :: Stands(k, log, Some(now))
      modifies this`hits, this`log, if key in hits then {hits[key].data} else {}
      ensures Shape() && forall k :: Stands(k, log, Some(now))
      ensures ok == Below(old(log), key, now, limit, window)
      ensures log == if ok then old(log) + [Hit(key, now)] else old(log)
    {
      hide After, StandsFor, Hits, Below, Ascending;
      assert Stands(key, log, Some(now));
      FullExactlyWhenCounted(Stored(key), log, key, now, limit, window);
      ok := Replace(key, now);
      if ok {
        log := log + [Hit(key, now)];
      }
      forall k
        ensures Stands(k, log, Some(now))
      {
        assert old(Stands(k, log, Some(now)));
        AnsweredStands(old(Stored(k)), Stored(k), old(log), k, key, now, ok, limit, window);
      }
    }

    /** The array work of one answer: compact, compare, append. */
    method Replace(key: string, now: Time) returns (ok: bool)
      requires Shape()
      modifies this`hits, if key in hits then {hits[key].data} else {}
      ensures Shape() && ok == (|After(old(Stored(key)), now - window)| < limit)
      ensures Stored(key) == After(old(Stored(key)), now - window) + (if ok then [now] else [])
      ensures forall k :: k != key ==> Stored(k) == old(Stored(k))
    {
      hide After;
      var times;
      if key in hits {
        times := hits[key];
      } else {
        var none := new Time[0];
        times := Slice(none, 0);
      }
      var kept := Compact(times, now - window);
      ok := kept < limit;
      if ok {
        var longer := Append(Slice(times.data, kept), now);
        Put(key, longer);
      } else {
        Put(key, Slice(times.data, kept));
      }
    }

    method Put(key: string, times: Slice)
      requires Shape() && times.len <= times.data.Length
      requires forall k :: k in hits && k != key ==> hits[k].data != times.data
      modifies this`hits
      ensures Shape() && Stored(key) == times.data[..times.len]
      ensures forall k :: k != key ==> Stored(k) == old(Stored(k))
    {
      hits := hits[key := times];
    }
  }
}
