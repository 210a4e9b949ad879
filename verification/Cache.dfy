/** The caching resolver is transparent: over any run on fixed tuples and model it only ever stores truth values. */
module Cache {
  import opened Options
  import opened Model
  import opened Reducers
  import opened Check
  import opened Soundness
  import opened Fixpoint

  /** A cached response and the time it was stored. */
  datatype Entry = Entry(lastModified: int, response: Outcome)

  class CachedCheckResolver {
    ghost const w: World
    ghost const maxDepth: nat
    var cache: map<Goal, Entry>
    /** Every answer ever stored, still present or not: what a sub-check in flight may have read. */
    ghost var stored: set<(Goal, bool)>

    constructor (ghost w: World, ghost maxDepth: nat)
      ensures Valid() && this.w == w && this.maxDepth == maxDepth && stored == {} && cache == map[]
    {
      this.w := w;
      this.maxDepth := maxDepth;
      cache := map[];
      stored := {};
    }

    ghost function Available(): Env
      reads this
    {
      Env(w, maxDepth, stored)
    }

    /** Cached responses are unflagged and among the stored answers, which are all truth values. */
    ghost predicate Valid()
      reads this
    {
      && (forall g :: g in cache ==> Plain(cache[g].response) && (g, cache[g].response.allowed) in stored)
      && CacheSound(Available())
    }

    /** The lookup before delegating: a hit counts only if it is newer than the last invalidation. */
    method TryCache(g: Goal, higherConsistency: bool, lastInvalidation: int) returns (hit: Option<Outcome>)
      requires Valid()
      ensures hit.Some? <==> !higherConsistency && g in cache && cache[g].lastModified > lastInvalidation
      ensures hit.Some? ==> hit.value == cache[g].response
      ensures hit.Some? ==> Plain(hit.value) && Settles(w, g, hit.value.allowed)
    {
      hit := None;
      if !higherConsistency && g in cache {
        var res := cache[g];
        if res.lastModified > lastInvalidation { hit := Some(res.response); }
      }
    }

    /**
     * After the delegate answered: errors and flagged responses are passed on, anything else is stored.
     * The delegate may have used any answer stored by the time it finished.
     */
    method Complete(g: Goal, ghost visited: set<Goal>, ghost depth: nat, resp: Outcome, now: int) returns (o: Outcome)
      requires Valid()
      requires depth <= maxDepth && Resolves(Available(), g, visited, depth, resp)
      modifies this
      ensures Valid() && o == resp
      ensures Plain(resp) ==> cache == old(cache)[g := Entry(now, resp)] && stored == old(stored) + {(g, resp.allowed)}
      ensures !Plain(resp) ==> cache == old(cache) && stored == old(stored)
      ensures Plain(o) ==> Settles(w, g, o.allowed)
    {
      o := resp;
      if resp.Err? || resp.cycle { return; }
      ResolvesSound(Available(), g, visited, depth, resp);
      StoreSound(Available(), g, resp.allowed);
      cache := cache[g := Entry(now, resp)];
      stored := stored + {(g, resp.allowed)};
    }

    /**
     * ResolveCheck: a hit is returned, anything else is delegated and completed. `resp` is what the
     * delegate answers if it is asked. An unflagged answer, hit or not, is the one of every unflagged
     * check without a cache.
     */
    method ResolveCheck(g: Goal, higherConsistency: bool, lastInvalidation: int, ghost visited: set<Goal>,
                        ghost depth: nat, resp: Outcome, now: int)
      returns (o: Outcome, hit: bool)
      requires Valid() && depth <= maxDepth && Resolves(Available(), g, visited, depth, resp)
      modifies this
      ensures Valid()
      ensures hit <==> !higherConsistency && g in old(cache) && old(cache)[g].lastModified > lastInvalidation
      ensures hit ==> o == old(cache)[g].response
      ensures hit ==> Plain(o) && cache == old(cache) && stored == old(stored)
      ensures !hit ==> o == resp && cache == if Plain(resp) then old(cache)[g := Entry(now, resp)] else old(cache)
      ensures !hit ==> stored == if Plain(resp) then old(stored) + {(g, resp.allowed)} else old(stored)
      ensures Plain(o) ==> UncachedAgree(w, g, o)
    {
      var cached := TryCache(g, higherConsistency, lastInvalidation);
      if cached.Some? {
        o, hit := cached.value, true;
      } else {
        o := Complete(g, visited, depth, resp, now);
        hit := false;
      }
      if Plain(o) { TruthAgrees(w, g, o); }
    }

    /** Entries may expire or be evicted at any time. */
    method Evict(g: Goal)
      requires Valid()
      modifies this
      ensures Valid() && cache == old(cache) - {g} && stored == old(stored)
    {
      cache := cache - {g};
    }
  }

  /** Every unflagged check of the goal without a cache answers `o`. */
  ghost predicate UncachedAgree(w: World, g: Goal, o: Outcome) {
    forall maxDepth: nat, visited, depth: nat, p ::
      depth <= maxDepth && Resolves(Env(w, maxDepth, {}), g, visited, depth, p) && Plain(p) ==> p == o
  }

  lemma TruthAgrees(w: World, g: Goal, o: Outcome)
    requires Plain(o) && Settles(w, g, o.allowed)
    ensures UncachedAgree(w, g, o)
  {
    forall maxDepth: nat, visited, depth: nat, p | depth <= maxDepth &&
      Resolves(Env(w, maxDepth, {}), g, visited, depth, p) && Plain(p)
      ensures p == o
    {
      ResolvesSound(Env(w, maxDepth, {}), g, visited, depth, p);
      SettlesUnique(w, g, p.allowed, o.allowed);
    }
  }

  lemma StoreSound(env: Env, g: Goal, b: bool)
    requires CacheSound(env) && Settles(env.w, g, b)
    ensures CacheSound(env.(cached := env.cached + {(g, b)}))
  {
  }

  // ------------------------------------------------------------ runs

  /** A finished request, in order of completion. */
  datatype Resolution = Resolution(goal: Goal, visited: set<Goal>, depth: nat, outcome: Outcome)

  /** What a run has stored. */
  ghost function Stored(run: seq<Resolution>): set<(Goal, bool)> {
    if run == [] then {}
    else
      var r := run[|run| - 1];
      Stored(run[..|run| - 1]) + (if Plain(r.outcome) then {(r.goal, r.outcome.allowed)} else {})
  }

  /** The request was answered by a hit: an answer stored before. */
  ghost predicate IsHit(stored: set<(Goal, bool)>, r: Resolution) {
    Plain(r.outcome) && (r.goal, r.outcome.allowed) in stored
  }

  /** Requests run concurrently; each is a hit or may use whatever was stored before it completed. */
  ghost predicate IsRun(w: World, maxDepth: nat, run: seq<Resolution>) {
    run == [] ||
    var r := run[|run| - 1];
    && IsRun(w, maxDepth, run[..|run| - 1])
    && (IsHit(Stored(run[..|run| - 1]), r) ||
        (r.depth <= maxDepth &&
          Resolves(Env(w, maxDepth, Stored(run[..|run| - 1])), r.goal, r.visited, r.depth, r.outcome)))
  }

  /** In every run, everything stored is a truth value. */
  lemma {:induction false} RunStoresTruth(w: World, maxDepth: nat, run: seq<Resolution>)
    requires IsRun(w, maxDepth, run)
    ensures CacheSound(Env(w, maxDepth, Stored(run)))
  {
    if run != [] {
      var front, r := run[..|run| - 1], run[|run| - 1];
      RunStoresTruth(w, maxDepth, front);
      if Plain(r.outcome) && !IsHit(Stored(front), r) {
        ResolvesSound(Env(w, maxDepth, Stored(front)), r.goal, r.visited, r.depth, r.outcome);
      }
    }
  }

  /** Every unflagged answer of a run, hit or not, is the answer of any unflagged uncached check of the same goal. */
  lemma CachedAgreesWithUncached(w: World, maxDepth: nat, run: seq<Resolution>)
    requires IsRun(w, maxDepth, run) && run != [] && Plain(run[|run| - 1].outcome)
    ensures UncachedAgree(w, run[|run| - 1].goal, run[|run| - 1].outcome)
  {
    var r := run[|run| - 1];
    RunStoresTruth(w, maxDepth, run);
    assert (r.goal, r.outcome.allowed) in Stored(run);
    TruthAgrees(w, r.goal, r.outcome);
  }

  /**
   * In a model without exclusion whose fast paths answer truthfully, everything a run stores is what
   * the least fixpoint of the rewrite rules says.
   */
  lemma RunStoresLfp(w: World, maxDepth: nat, run: seq<Resolution>, g: Goal, b: bool)
    requires ExclusionFree(w) && FastTruth(w) && IsRun(w, maxDepth, run) && (g, b) in Stored(run)
    ensures b <==> g in Lfp(w)
  {
    RunStoresTruth(w, maxDepth, run);
    DerivedIsTruth(w, g, b);
  }

  /**
   * Flagged denials must not be stored: below a goal that is on the path, a goal computed from it is
   * denied with the cycle flag, although both are true.
   */
  lemma FlaggedDenialIsNotTruth(env: Env, g: Goal, relation: string, visited: set<Goal>, depth: nat)
    requires depth < env.maxDepth && g !in visited && !SelfDefining(g) && g.relation != relation
    requires (g.obj.typ, g.relation) in env.w.relations
    requires env.w.relations[(g.obj.typ, g.relation)].rewrite == Computed(relation)
    requires PathOf(g) in env.w.paths && env.w.paths[PathOf(g)]
    requires g.(relation := relation) in visited && Settles(env.w, g.(relation := relation), true)
    ensures Resolves(env, g, visited, depth, CYCLE) && Settles(env.w, g, true)
  {
    UnvisitedShrinks(env.w, g, visited);
    assert Rewrites(env, g, visited + {g}, depth, Computed(relation), CYCLE);
    var n: nat :| Derives(env.w, n, g.(relation := relation), true);
    assert Derives(env.w, n + 1, g, true);
  }
}
