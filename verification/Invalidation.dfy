/** Invalidation of cached iterators from the changelog of a store. */
module Invalidation {
  import opened Options
  import opened Model

  type Time = int

  /** A change to a tuple. */
  datatype Change = Change(obj: Object, relation: string, user: User, at: Time)

  /** The entries of the cache that the controller reads and writes, for one store. */
  datatype CacheKey =
    | Changelog
    | StoreInvalid
    | ObjectRelationInvalid(obj: Object, relation: string)
    | UserObjectTypeInvalid(user: User, objectType: string)

  type Cache = map<CacheKey, Time>

  // ------------------------------------------------------------ the changelog

  /** The changelog, most recent change first. */
  ghost predicate Descending(log: seq<Change>) {
    forall i, j :: 0 <= i < j < |log| ==> log[i].at >= log[j].at
  }

  predicate Young(ch: Change, cutoff: Time) {
    ch.at > cutoff
  }

  predicate MarkerOf(ch: Change, key: CacheKey) {
    key == ObjectRelationInvalid(ch.obj, ch.relation) || key == UserObjectTypeInvalid(ch.user, ch.obj.typ)
  }

  /** Some young change on the page concerns the marker. */
  predicate Concerned(page: seq<Change>, cutoff: Time, key: CacheKey) {
    exists i :: 0 <= i < |page| && Young(page[i], cutoff) && MarkerOf(page[i], key)
  }

  /** The change is covered: by the marker of the store, or by both its own markers, at `now` or later. */
  ghost predicate Covered(cache: Cache, ch: Change, now: Time) {
    || SetAt(cache, StoreInvalid, now)
    || (SetAt(cache, ObjectRelationInvalid(ch.obj, ch.relation), now) &&
        SetAt(cache, UserObjectTypeInvalid(ch.user, ch.obj.typ), now))
  }

  predicate SetAt(cache: Cache, key: CacheKey, now: Time) {
    key in cache && cache[key] >= now
  }

  // ------------------------------------------------------------ the controller

  class CacheController {
    var cache: Cache
    const iteratorCacheTTL: nat

    constructor (cache: Cache, iteratorCacheTTL: nat)
      ensures this.cache == cache && this.iteratorCacheTTL == iteratorCacheTTL
    {
      this.cache, this.iteratorCacheTTL := cache, iteratorCacheTTL;
    }

    /**
     * findChangesAndInvalidateIfNecessary. `page` is what the changelog read returns, if it succeeds: the most
     * recent part of the changelog. `now` and `later` are successive clock readings. If the newest change is
     * later than the one remembered, or none is, every change of the whole changelog that is younger than the
     * lifetime of cached iterators is covered; a failed read covers everything. Nothing else is marked.
     */
    method FindChangesAndInvalidate(page: Option<seq<Change>>, ghost log: seq<Change>, now: Time, later: Time)
      requires page.Some? ==> page.value != [] && page.value <= log && Descending(log)
      requires now <= later
      modifies this
      ensures page.None? ==> cache == old(cache)[StoreInvalid := now]
      ensures page.Some? ==> Changelog in cache && cache[Changelog] == page.value[0].at
      ensures page.Some? && !NewChange(old(cache), page.value) ==> cache == old(cache)[Changelog := page.value[0].at]
      ensures page.Some? && NewChange(old(cache), page.value) ==>
        Marked(old(cache), page.value, now - iteratorCacheTTL, later, cache)
      ensures page.Some? ==> Updated(old(cache), page.value, iteratorCacheTTL, now, later, cache)
      ensures page.Some? && (Changelog !in old(cache) || page.value[0].at > old(cache)[Changelog]) ==>
        forall ch :: ch in log && ch.at > now - iteratorCacheTTL ==> Covered(cache, ch, later)
      ensures page.None? ==> forall ch :: Covered(cache, ch, now)
      ensures forall key :: key in old(cache) ==> key in cache
      ensures forall key :: key in cache && (key !in old(cache) || cache[key] != old(cache)[key]) ==>
        || key == Changelog
        || (key == StoreInvalid && (page.None? || page.value[|page.value| - 1].at > now - iteratorCacheTTL))
        || (page.Some? && Concerned(page.value, now - iteratorCacheTTL, key))
    {
      if page.None? {
        cache := cache[StoreInvalid := now];
        return;
      }
      var changes := page.value;
      if Changelog in cache && changes[0].at <= cache[Changelog] {
        cache := cache[Changelog := changes[0].at];
        return;
      }
      assert Descending(changes);
      Invalidate(changes, now - iteratorCacheTTL, later);
      YoungCovered(old(cache), changes, log, now - iteratorCacheTTL, later, cache);
      OnlyConcerned(old(cache), changes, now - iteratorCacheTTL, later, cache);
    }

    /** Marks the store, or the young changes, and remembers the newest change. */
    method Invalidate(changes: seq<Change>, cutoff: Time, later: Time)
      requires changes != [] && Descending(changes)
      modifies this
      ensures Changelog in cache && cache[Changelog] == changes[0].at
      ensures Marked(old(cache), changes, cutoff, later, cache)
    {
      var idx := OldestYoung(changes, cutoff);
      if idx == |changes| - 1 {
        cache := cache[StoreInvalid := later];
      } else {
        ghost var before := cache;
        MarkChanges(changes, idx, later);
        AllMarked(before, changes, cutoff, idx, later, cache);
      }
      cache := cache[Changelog := changes[0].at];
    }

    /** Marks the changes from `first` down to the newest. */
    method MarkChanges(changes: seq<Change>, first: int, later: Time)
      requires -1 <= first < |changes|
      modifies this
      ensures PartlyMarked(old(cache), changes, 0, first + 1, later, cache)
    {
      var idx := first;
      while idx >= 0
        invariant -1 <= idx <= first
        invariant PartlyMarked(old(cache), changes, idx + 1, first + 1, later, cache)
      {
        var ch := changes[idx];
        MarkOne(old(cache), changes, idx, first + 1, later, cache);
        cache := cache[ObjectRelationInvalid(ch.obj, ch.relation) := later][UserObjectTypeInvalid(ch.user,
          ch.obj.typ) := later];
        idx := idx - 1;
      }
    }
  }

  /** The index of the oldest young change, searched from the oldest change on; -1 if there is none. */
  method OldestYoung(changes: seq<Change>, cutoff: Time) returns (idx: int)
    ensures -1 <= idx < |changes| && (forall i :: idx < i < |changes| ==> !Young(changes[i], cutoff))
    ensures idx >= 0 ==> Young(changes[idx], cutoff)
  {
    idx := |changes| - 1;
    while idx >= 0 && !Young(changes[idx], cutoff)
      invariant -1 <= idx < |changes|
      invariant forall i :: idx < i < |changes| ==> !Young(changes[i], cutoff)
    {
      idx := idx - 1;
    }
  }

  /** The newest change is newer than the newest one known. */
  predicate NewChange(cache: Cache, page: seq<Change>)
    requires page != []
  {
    Changelog !in cache || page[0].at > cache[Changelog]
  }

  /**
   * The markers after a run that saw a new change: if even the oldest change of the page is young, the
   * marker of the store; otherwise exactly the markers of the young changes.
   */
  ghost predicate Marked(before: Cache, page: seq<Change>, cutoff: Time, later: Time, after: Cache)
    requires page != []
  {
    if Young(page[|page| - 1], cutoff) then after == before[StoreInvalid := later][Changelog := page[0].at]
    else
      && (forall key :: key != Changelog && Concerned(page, cutoff, key) ==> key in after && after[key] == later)
      && (forall key :: key != Changelog && !Concerned(page, cutoff, key) ==>
           (key in after <==> key in before) && (key in before ==> after[key] == before[key]))
  }

  /** The markers of the changes from `lo` to before `hi` are set, and no others changed. */
  ghost predicate PartlyMarked(before: Cache, page: seq<Change>, lo: nat, hi: nat, later: Time, after: Cache)
    requires lo <= hi <= |page|
  {
    && (forall key, i :: lo <= i < hi && MarkerOf(page[i], key) ==> key in after && after[key] == later)
    && (forall key :: (forall i :: lo <= i < hi ==> !MarkerOf(page[i], key)) ==>
         (key in after <==> key in before) && (key in before ==> after[key] == before[key]))
  }

  lemma MarkOne(before: Cache, page: seq<Change>, idx: nat, hi: nat, later: Time, cache: Cache)
    requires idx < hi <= |page| && PartlyMarked(before, page, idx + 1, hi, later, cache)
    ensures var ch := page[idx];
      PartlyMarked(before, page, idx, hi, later,
        cache[ObjectRelationInvalid(ch.obj, ch.relation) := later][UserObjectTypeInvalid(ch.user, ch.obj.typ) := later])
  {
    var ch := page[idx];
    var after :=
      cache[ObjectRelationInvalid(ch.obj, ch.relation) := later][UserObjectTypeInvalid(ch.user, ch.obj.typ) := later];
    forall key, i | idx <= i < hi && MarkerOf(page[i], key) ensures key in after && after[key] == later {
      if i > idx { assert key in cache && cache[key] == later; }
    }
    forall key | (forall i :: idx <= i < hi ==> !MarkerOf(page[i], key))
      ensures (key in after <==> key in before) && (key in before ==> after[key] == before[key])
    {
      assert !MarkerOf(page[idx], key);
      assert forall i :: idx + 1 <= i < hi ==> !MarkerOf(page[i], key);
    }
  }

  lemma AllMarked(before: Cache, page: seq<Change>, cutoff: Time, first: int, later: Time, cache: Cache)
    requires page != [] && -1 <= first < |page| - 1 && PartlyMarked(before, page, 0, first + 1, later, cache)
    requires Descending(page)
    requires forall i :: first < i < |page| ==> !Young(page[i], cutoff)
    requires first >= 0 ==> Young(page[first], cutoff)
    ensures forall key :: Concerned(page, cutoff, key) ==> key in cache && cache[key] == later
    ensures forall key :: !Concerned(page, cutoff, key) ==>
      (key in cache <==> key in before) && (key in before ==> cache[key] == before[key])
  {
    forall key | Concerned(page, cutoff, key) ensures key in cache && cache[key] == later {
      var i :| 0 <= i < |page| && Young(page[i], cutoff) && MarkerOf(page[i], key);
      assert i <= first;
    }
    forall key | !Concerned(page, cutoff, key)
      ensures (key in cache <==> key in before) && (key in before ==> cache[key] == before[key])
    {
      forall i | 0 <= i < first + 1 ensures !MarkerOf(page[i], key) {
        assert page[i].at >= page[first].at;
      }
    }
  }

  // ------------------------------------------------------------ what a run guarantees

  /**
   * After a run that saw a new change, every young change of the whole changelog is covered, also those
   * beyond the page that was read: `page` is the first part of the changelog, most recent changes first.
   */
  lemma EveryYoungChangeCovered(before: Cache, log: seq<Change>, n: nat, cutoff: Time, now: Time, later: Time,
                                after: Cache, ch: Change)
    requires 0 < n <= |log| && Descending(log) && now <= later && Marked(before, log[..n], cutoff, later, after)
    requires ch in log && Young(ch, cutoff)
    ensures Covered(after, ch, now)
  {
    var page := log[..n];
    var k :| 0 <= k < |log| && log[k] == ch;
    if !Young(page[n - 1], cutoff) {
      assert k < n;
      assert page[k] == ch;
      forall key | MarkerOf(ch, key) ensures SetAt(after, key, now) { assert Concerned(page, cutoff, key); }
      assert MarkerOf(ch, ObjectRelationInvalid(ch.obj, ch.relation));
      assert MarkerOf(ch, UserObjectTypeInvalid(ch.user, ch.obj.typ));
    }
  }

  lemma YoungCovered(before: Cache, page: seq<Change>, log: seq<Change>, cutoff: Time, later: Time, after: Cache)
    requires page != [] && page <= log && Descending(log) && Marked(before, page, cutoff, later, after)
    ensures forall ch :: ch in log && ch.at > cutoff ==> Covered(after, ch, later)
  {
    assert page == log[..|page|];
    forall ch | ch in log && ch.at > cutoff ensures Covered(after, ch, later) {
      EveryYoungChangeCovered(before, log, |page|, cutoff, later, later, after, ch);
    }
  }

  /** Nothing but the markers of young changes is set, except the marker of the store if all of the page is young. */
  lemma OnlyConcerned(before: Cache, page: seq<Change>, cutoff: Time, later: Time, after: Cache)
    requires page != [] && Marked(before, page, cutoff, later, after) && Changelog in after
    ensures forall key :: key in before ==> key in after
    ensures forall key :: key in after && (key !in before || after[key] != before[key]) ==>
      || key == Changelog
      || (key == StoreInvalid && page[|page| - 1].at > cutoff)
      || Concerned(page, cutoff, key)
  {
  }

  /** isInvalidAt: a cached iterator is not used if it is older than the marker of the store or one of its own. */
  predicate IsInvalidAt(cache: Cache, ts: Time, keys: set<CacheKey>) {
    || (StoreInvalid in cache && ts < cache[StoreInvalid])
    || exists key :: key in keys && key in cache && ts < cache[key]
  }

  /**
   * No cached iterator that a change made stale outlives a run: if it was cached before the change, has
   * not expired, and depends on a marker of the change, it is not used any more.
   */
  lemma NoStaleIteratorSurvives(before: Cache, log: seq<Change>, n: nat, ttl: nat, now: Time, later: Time,
                                after: Cache, ch: Change, ts: Time, keys: set<CacheKey>)
    requires 0 < n <= |log| && Descending(log) && now <= later && Marked(before, log[..n], now - ttl, later, after)
    requires ch in log && ch.at < now && ts <= ch.at && ts + ttl > now && exists key :: key in keys && MarkerOf(ch, key)
    ensures IsInvalidAt(after, ts, keys)
  {
    EveryYoungChangeCovered(before, log, n, now - ttl, now, later, after, ch);
    var key :| key in keys && MarkerOf(ch, key);
    assert SetAt(after, StoreInvalid, now) || SetAt(after, key, now);
  }

  /**
   * A page that ends in a young change may miss young changes: marking only its own changes would leave
   * them uncovered.
   */
  lemma PageAloneInsufficient(log: seq<Change>, n: nat, cutoff: Time, now: Time, later: Time, before: Cache,
                              after: Cache)
    requires 0 < n < |log| && Descending(log) && Young(log[n], cutoff)
    requires (forall i :: 0 <= i < n ==> !MarkerOf(log[i], ObjectRelationInvalid(log[n].obj, log[n].relation)))
    requires before == map[]
    requires PartlyMarked(before, log[..n], 0, n, later, after)
    ensures !Covered(after, log[n], now)
  {
    var key := ObjectRelationInvalid(log[n].obj, log[n].relation);
    assert MarkerOf(log[n], key);
    var page := log[..n];
    assert forall i :: 0 <= i < n ==> !MarkerOf(page[i], key);
    assert forall i :: 0 <= i < n ==> !MarkerOf(page[i], StoreInvalid);
  }

  // ------------------------------------------------------------ over a whole run

  /** The cache, the changelog, most recent change first, and the time of the last invalidation. */
  datatype State = State(cache: Cache, log: seq<Change>, clock: Time)

  /**
   * What happens over time: a change is written, a run of the controller reads the first `n` changes, a run
   * fails to read, or the entry that remembers the newest change expires.
   */
  datatype Event =
    | Written(ch: Change)
    | Ran(n: nat, now: Time, later: Time)
    | Failed(now: Time)
    | Forgotten

  /** A change is written after the last run that read one, and a run comes after the changes it reads. */
  ghost predicate Step(s: State, e: Event, s': State, ttl: nat) {
    match e
    case Written(ch) =>
      s' == s.(log := [ch] + s.log) && (s.log != [] ==> ch.at > s.log[0].at)
    case Ran(n, now, later) =>
      && 0 < n <= |s.log| && s.clock <= now <= later && s.log[0].at < now
      && s'.log == s.log && s'.clock == later && Updated(s.cache, s.log[..n], ttl, now, later, s'.cache)
    case Failed(now) => s.clock <= now && (s.log != [] ==> s.log[0].at < now) &&
      s' == s.(cache := s.cache[StoreInvalid := now], clock := now)
    case Forgotten => s' == s.(cache := s.cache - {Changelog})
  }

  /** What a run makes of the cache. */
  ghost predicate Updated(before: Cache, page: seq<Change>, ttl: nat, now: Time, later: Time, after: Cache)
    requires page != []
  {
    && Changelog in after && after[Changelog] == page[0].at
    && if NewChange(before, page) then Marked(before, page, now - ttl, later, after)
       else after == before[Changelog := page[0].at]
  }

  /** The change is covered since it was written, or everything cached before it has expired. */
  ghost predicate Handled(cache: Cache, ch: Change, ttl: nat, clock: Time) {
    ch.at + ttl <= clock || Covered(cache, ch, ch.at + 1)
  }

  ghost predicate AllHandled(s: State, ttl: nat) {
    forall ch :: ch in s.log ==> Handled(s.cache, ch, ttl, s.clock)
  }

  /** Every change up to the one remembered is handled, and no marker is ahead of time. */
  ghost predicate Tracked(s: State, ttl: nat) {
    && Descending(s.log)
    && (forall key :: key in s.cache && key != Changelog ==> s.cache[key] <= s.clock)
    && (Changelog in s.cache ==>
         forall ch :: ch in s.log && ch.at <= s.cache[Changelog] ==> Handled(s.cache, ch, ttl, s.clock))
    && (Changelog in s.cache ==> s.log != [] && s.cache[Changelog] <= s.log[0].at)
  }

  lemma NewestFirst(log: seq<Change>, ch: Change)
    requires Descending(log) && ch in log
    ensures ch.at <= log[0].at
  {
    var k :| 0 <= k < |log| && log[k] == ch;
    if k > 0 { assert log[0].at >= log[k].at; }
  }

  lemma WrittenTracked(s: State, ch: Change, s': State, ttl: nat)
    requires Tracked(s, ttl) && Step(s, Written(ch), s', ttl)
    ensures Tracked(s', ttl)
  {
    forall c | c in s'.log && Changelog in s'.cache && c.at <= s'.cache[Changelog]
      ensures Handled(s'.cache, c, ttl, s'.clock)
    {
      assert c == ch || c in s.log;
    }
  }

  lemma RanHandled(s: State, n: nat, now: Time, later: Time, s': State, ttl: nat)
    requires Tracked(s, ttl) && Step(s, Ran(n, now, later), s', ttl)
    ensures AllHandled(s', ttl)
  {
    var page := s.log[..n];
    forall ch | ch in s'.log ensures Handled(s'.cache, ch, ttl, s'.clock) {
      NewestFirst(s.log, ch);
      if !NewChange(s.cache, page) {
        assert Handled(s.cache, ch, ttl, s.clock);
      } else if ch.at > now - ttl {
        EveryYoungChangeCovered(s.cache, s.log, n, now - ttl, now, later, s'.cache, ch);
      }
    }
  }

  lemma RanTracked(s: State, n: nat, now: Time, later: Time, s': State, ttl: nat)
    requires Tracked(s, ttl) && Step(s, Ran(n, now, later), s', ttl)
    ensures Tracked(s', ttl) && AllHandled(s', ttl)
  {
    RanHandled(s, n, now, later, s', ttl);
  }

  lemma FailedTracked(s: State, now: Time, s': State, ttl: nat)
    requires Tracked(s, ttl) && Step(s, Failed(now), s', ttl)
    ensures Tracked(s', ttl) && AllHandled(s', ttl)
  {
    forall ch | ch in s'.log ensures Handled(s'.cache, ch, ttl, s'.clock) {
      NewestFirst(s.log, ch);
      assert SetAt(s'.cache, StoreInvalid, ch.at + 1);
    }
  }

  /** The states of a run, one more than there are events. */
  ghost predicate IsRun(states: seq<State>, events: seq<Event>, ttl: nat) {
    && |states| == |events| + 1 && states[0] == State(map[], [], states[0].clock)
    && forall i :: 0 <= i < |events| ==> Step(states[i], events[i], states[i + 1], ttl)
  }

  lemma {:induction false} RunTracked(states: seq<State>, events: seq<Event>, ttl: nat, i: nat)
    requires IsRun(states, events, ttl) && i < |states|
    ensures Tracked(states[i], ttl)
    ensures i > 0 && (events[i - 1].Ran? || events[i - 1].Failed?) ==> AllHandled(states[i], ttl)
    decreases i
  {
    if i > 0 {
      RunTracked(states, events, ttl, i - 1);
      var s, s' := states[i - 1], states[i];
      assert Step(s, events[i - 1], s', ttl);
      match events[i - 1]
      case Written(ch) => WrittenTracked(s, ch, s', ttl);
      case Ran(n, now, later) => RanTracked(s, n, now, later, s', ttl);
      case Failed(now) => FailedTracked(s, now, s', ttl);
      case Forgotten =>
    }
  }

  /**
   * In every run, after the controller has run, no cached iterator older than a change it depends on is used:
   * it has expired or is invalid, however many changes were read and whether or not the newest was known.
   */
  lemma NoStaleIteratorEver(states: seq<State>, events: seq<Event>, ttl: nat, i: nat, ch: Change, ts: Time,
                            keys: set<CacheKey>, key: CacheKey)
    requires IsRun(states, events, ttl) && 0 < i < |states| && (events[i - 1].Ran? || events[i - 1].Failed?)
    requires ch in states[i].log && ts <= ch.at && key in keys && MarkerOf(ch, key)
    ensures ts + ttl <= states[i].clock || IsInvalidAt(states[i].cache, ts, keys)
  {
    RunTracked(states, events, ttl, i);
    assert Handled(states[i].cache, ch, ttl, states[i].clock);
    if Covered(states[i].cache, ch, ch.at + 1) {
      assert SetAt(states[i].cache, StoreInvalid, ch.at + 1) || SetAt(states[i].cache, key, ch.at + 1);
    }
  }

  /** An iterator cached since the last run is used: none of its markers is later. */
  lemma FreshIteratorSurvives(states: seq<State>, events: seq<Event>, ttl: nat, i: nat, ts: Time, keys: set<CacheKey>)
    requires IsRun(states, events, ttl) && i < |states| && states[i].clock <= ts && Changelog !in keys
    ensures !IsInvalidAt(states[i].cache, ts, keys)
  {
    RunTracked(states, events, ttl, i);
  }

  /**
   * Changes must differ in time: one written at the time of the newest change remembered is not seen, so a run
   * that finds it uncovered leaves it uncovered.
   */
  lemma SameTimeMissed(before: Cache, log: seq<Change>, n: nat, ttl: nat, now: Time, later: Time, after: Cache)
    requires 0 < n <= |log| && Changelog in before && before[Changelog] == log[0].at
    requires Updated(before, log[..n], ttl, now, later, after)
    ensures Covered(after, log[0], now) <==> Covered(before, log[0], now)
  {
  }
}
