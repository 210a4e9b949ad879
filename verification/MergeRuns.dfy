/** Reading the ordered merge to the end: what a whole run delivers and how it ends. */
module MergeRuns {
  import opened Options
  import opened Order
  import opened OrderedMerge
  import opened Blocks
  import opened SharedKeys

  // ------------------------------------------------------------ a single input

  /** What a single input delivers, read to the end. */
  function SoleRun(items: seq<Entry>, last: Option<string>): seq<Entry>
    decreases |items|
  {
    var rest := Reread(items, last);
    if rest == [] || |rest| > |items| then [] else [rest[0]] + SoleRun(rest[1..], Some(rest[0].key))
  }

  /** A preview does not change what a single input delivers. */
  lemma RereadTwice(items: seq<Entry>, last: Option<string>)
    requires Sorted(items) && (items != [] && last.Some? ==> !Less(items[0].key, last.value))
    ensures SoleRun(Reread(items, last), last) == SoleRun(items, last)
  {
    var rest := Reread(items, last);
    RereadAhead(items, last);
    BehindSuffix(items, last);
    if rest != [] && last.Some? { BeyondLast(last.value, rest[0].key); }
    assert Reread(rest, last) == rest;
  }

  lemma SnocStrict(out: seq<Entry>, x: Entry)
    requires StrictlySorted(out) && (out != [] ==> Less(out[|out| - 1].key, x.key))
    ensures StrictlySorted(out + [x])
  {
    var s := out + [x];
    forall i, j | 0 <= i < j < |s| ensures Less(s[i].key, s[j].key) {
      if j == |out| && i < |out| - 1 { LessTransitive(out[i].key, out[|out| - 1].key, x.key); }
    }
  }

  /** `out` is a first part of what the inputs hold: all of it if the end was reached. */
  ghost predicate FirstPart(out: seq<Entry>, last: Pull, all: multiset<Entry>, beyond: multiset<Entry>) {
    && multiset(out) <= all
    && (forall x :: x in out ==> AllAbove(x, all - multiset(out)) && AllAbove(x, beyond))
    && (last.Done? ==> multiset(out) == all && beyond == multiset{})
  }

  /** What was read so far: ascending, ending in the key yielded last, from the inputs. */
  ghost predicate Drained(out: seq<Entry>, last: Option<string>, source: set<Entry>) {
    && StrictlySorted(out) && (forall x :: x in out ==> x in source)
    && last == if out == [] then None else Some(out[|out| - 1].key)
  }

  /** What was read and what is left, without repeated keys. */
  ghost predicate Parted(out: seq<Entry>, left: multiset<Entry>, all: multiset<Entry>, beyond: multiset<Entry>) {
    multiset(out) + left == all && forall x :: x in out ==> AllAbove(x, left) && AllAbove(x, beyond)
  }

  lemma PartedSnoc(out: seq<Entry>, x: Entry, was: seq<Option<Input>>, pending: seq<Option<Input>>,
                   all: multiset<Entry>)
    requires Parted(out, ItemsIn(was), all, BeyondIn(was)) && TidyRead(was, Got(x), pending)
    ensures Parted(out + [x], ItemsIn(pending), all, BeyondIn(pending))
  {
    PartedMore(out, x, ItemsIn(was), ItemsIn(pending), all, BeyondIn(was));
  }

  lemma PartedMore(out: seq<Entry>, x: Entry, was: multiset<Entry>, left: multiset<Entry>, all: multiset<Entry>,
                   beyond: multiset<Entry>)
    requires Parted(out, was, all, beyond) && IsLeast(x, was) && AllAbove(x, beyond) && left == was - multiset{x}
    ensures Parted(out + [x], left, all, beyond)
  {
    assert was == left + multiset{x};
    assert multiset(out + [x]) == multiset(out) + multiset{x};
    forall y | y in out + [x] ensures AllAbove(y, left) && AllAbove(y, beyond) {
      assert y in out || y == x;
      assert AllAbove(y, was);
    }
  }

  ghost predicate InputsOk(its: seq<Input>) {
    forall i :: 0 <= i < |its| ==> InputOk(its[i])
  }

  /** What a whole run delivers and how it ends. */
  ghost predicate Drains(its: seq<Input>, out: seq<Entry>, last: Pull) {
    var all := Wrap(its);
    && StrictlySorted(out) && !last.Got? && (forall x :: x in out ==> x in ItemsIn(all))
    && (OneEach(ItemsIn(all)) ==> FirstPart(out, last, ItemsIn(all), BeyondIn(all)) && (NoFaults(all) ==> last.Done?))
    && (Sole(all, None) ==> last.Done? && out == SoleRun(Joined(all), None))
    && (Twin(all) ==> TwinEnded(ItemsAt(all[0]), ItemsAt(all[1]), out, last))
  }

  /**
   * Reading the merge to the end, with any previews in between: the keys are strictly ascending and come
   * from the inputs. If no key is repeated within or across the inputs, they are the sorted merge, or a
   * first part of it before the failure of an input. If only one input has tuples, the run is `SoleRun`.
   * Of two inputs, neither of which repeats a key or fails, all keys are delivered if and only if every
   * maximal block of keys of the second that the first has as well and that is not at the end of the
   * second has even length; then the tuples of the first are preferred.
   */
  method Drain(its: seq<Input>, peek: nat -> bool) returns (out: seq<Entry>, last: Pull)
    requires InputsOk(its)
    ensures Drains(its, out, last)
  {
    var c := new OrderedCombinedIterator(its);
    ghost var first := c.pending;
    out, last := [], Done;
    StartRunning(first);
    var more, k := true, 0;
    while more
      invariant fresh(c) && c.Valid() && Drained(out, c.lastYielded, c.source)
      invariant more ==> Running(first, out, c.pending, c.lastYielded, c.lastHead)
      invariant !more ==> Ended(first, out, last)
      decreases if more then |ItemsIn(c.pending)| + 1 else 0
    {
      if peek(k) { Peek(c, out, first); }
      k := k + 1;
      more, out, last := DrainStep(c, out, first);
    }
    EndDrains(its, out, last, c.lastYielded, c.source);
  }

  lemma StartRunning(first: seq<Option<Input>>)
    ensures Running(first, [], first, None, None)
  {
    if Twin(first) { TwinStart(first); }
    if OneEach(ItemsIn(first)) { assert multiset([]) + ItemsIn(first) == ItemsIn(first); }
    if Sole(first, None) { assert [] + SoleRun(Joined(first), None) == SoleRun(Joined(first), None); }
  }

  lemma EndDrains(its: seq<Input>, out: seq<Entry>, last: Pull, lastYielded: Option<string>, source: set<Entry>)
    requires Drained(out, lastYielded, source) && Ended(Wrap(its), out, last) && forall x :: x in source ==>
      x in ItemsIn(Wrap(its))
    ensures Drains(its, out, last)
  {
  }

  ghost predicate TidySoFar(first: seq<Option<Input>>, out: seq<Entry>, pending: seq<Option<Input>>) {
    && Parted(out, ItemsIn(pending), ItemsIn(first), BeyondIn(first)) && BeyondIn(pending) == BeyondIn(first)
    && (NoFaults(first) ==> NoFaults(pending))
  }

  /** Two inputs that neither fail nor repeat a key. */
  ghost predicate Twin(first: seq<Option<Input>>) {
    |first| == 2 && first[0].Some? && first[1].Some? && NoFaults(first) && StrictlySorted(ItemsAt(first[0])) &&
      StrictlySorted(ItemsAt(first[1]))
  }

  ghost predicate AllKeys(a: seq<Entry>, b: seq<Entry>, out: seq<Entry>) {
    forall k :: HasKey(a, k) || HasKey(b, k) ==> HasKey(out, k)
  }

  /** How the run over two inputs ends. */
  ghost predicate TwinEnded(a: seq<Entry>, b: seq<Entry>, out: seq<Entry>, last: Pull) {
    && (AllKeys(a, b, out) <==> EvenBlocks(Shared(a, b, None)))
    && (AllKeys(a, b, out) ==> last.Done? && forall x :: x in out ==> x in a || (x in b && !HasKey(a, x.key)))
  }

  /** The state between two reads: nothing is lost so far, or some key is, which the flags foretold. */
  ghost predicate TwinRunning(a: seq<Entry>, b: seq<Entry>, out: seq<Entry>, pending: seq<Option<Input>>,
                              last: Option<string>) {
    || TwinOnTrack(a, b, out, pending, last)
    || (!Paired(Shared(a, b, None)) && exists z :: Misses(a, b, out, ItemsIn(pending), z))
  }

  ghost predicate TwinOnTrack(a: seq<Entry>, b: seq<Entry>, out: seq<Entry>, pending: seq<Option<Input>>,
                              last: Option<string>) {
    exists x, y :: Holds(pending, x, y) && OnTrack(a, b, out, last, x, y)
  }

  /**
   * The state between two reads, as far as no key is repeated, only one input has tuples, or two inputs
   * repeat none.
   */
  ghost predicate Running(first: seq<Option<Input>>, out: seq<Entry>, pending: seq<Option<Input>>,
                          last: Option<string>, head: Option<Entry>) {
    && (OneEach(ItemsIn(first)) ==> TidyState(pending, last, head) && TidySoFar(first, out, pending))
    && (Sole(first, None) ==>
         Sole(pending, last) && out + SoleRun(Joined(pending), last) == SoleRun(Joined(first), None))
    && (Twin(first) ==> TwinRunning(ItemsAt(first[0]), ItemsAt(first[1]), out, pending, last))
  }

  ghost predicate Ended(first: seq<Option<Input>>, out: seq<Entry>, last: Pull) {
    && !last.Got?
    && (OneEach(ItemsIn(first)) ==>
         FirstPart(out, last, ItemsIn(first), BeyondIn(first)) && (NoFaults(first) ==> last.Done?))
    && (Sole(first, None) ==> last.Done? && out == SoleRun(Joined(first), None))
    && (Twin(first) ==> TwinEnded(ItemsAt(first[0]), ItemsAt(first[1]), out, last))
  }

  method Peek(c: OrderedCombinedIterator, ghost out: seq<Entry>, ghost first: seq<Option<Input>>)
    requires c.Valid() && Running(first, out, c.pending, c.lastYielded, c.lastHead)
    modifies c`pending, c`lastHead
    ensures c.Valid() && |ItemsIn(c.pending)| <= old(|ItemsIn(c.pending)|)
    ensures Running(first, out, c.pending, c.lastYielded, c.lastHead)
  {
    ghost var was, head := c.pending, c.lastHead;
    var r := c.Head();
    PeekLaw(first, out, was, head, c.lastYielded, r, c.pending, c.lastHead);
  }

  lemma PeekLaw(first: seq<Option<Input>>, out: seq<Entry>, was: seq<Option<Input>>, head: Option<Entry>,
                last: Option<string>, r: Pull, pending: seq<Option<Input>>, head': Option<Entry>)
    requires Running(first, out, was, last, head) && HeadLaw(was, head, last, r, pending, head')
    ensures Running(first, out, pending, last, head')
  {
    if Sole(first, None) { RereadTwice(Joined(was), last); }
    if Twin(first) && pending != was { TwinPeek(ItemsAt(first[0]), ItemsAt(first[1]), out, was, last, pending); }
  }

  method DrainStep(c: OrderedCombinedIterator, out: seq<Entry>, ghost first: seq<Option<Input>>)
    returns (more: bool, out': seq<Entry>, r: Pull)
    requires c.Valid() && Drained(out, c.lastYielded, c.source)
    requires Running(first, out, c.pending, c.lastYielded, c.lastHead)
    modifies c
    ensures c.Valid() && Drained(out', c.lastYielded, c.source) && more == r.Got?
    ensures (more ==> |ItemsIn(c.pending)| < old(|ItemsIn(c.pending)|))
    ensures more ==> Running(first, out', c.pending, c.lastYielded, c.lastHead)
    ensures !more ==> Ended(first, out', r)
  {
    ghost var was, last, head := c.pending, c.lastYielded, c.lastHead;
    r := c.Next();
    more, out' := r.Got?, Grown(out, r);
    DrainedLaw(out, was, c.source, last, r, c.pending);
    StepLaw(first, out, was, c.source, last, head, r, c.pending);
  }

  function Grown(out: seq<Entry>, r: Pull): seq<Entry> {
    if r.Got? then out + [r.entry] else out
  }

  lemma DrainedLaw(out: seq<Entry>, was: seq<Option<Input>>, source: set<Entry>, last: Option<string>, r: Pull,
                   pending: seq<Option<Input>>)
    requires Drained(out, last, source) && ReadLaw(was, source, last, r, pending)
    ensures Drained(Grown(out, r), if r.Got? then Some(r.entry.key) else last, source)
  {
    if r.Got? { DrainedSnoc(out, last, source, r.entry); }
  }

  lemma DrainedSnoc(out: seq<Entry>, last: Option<string>, source: set<Entry>, x: Entry)
    requires Drained(out, last, source) && x in source && (last.Some? ==> Less(last.value, x.key))
    ensures Drained(out + [x], Some(x.key), source)
  {
    SnocStrict(out, x);
    forall y | y in out + [x] ensures y in source { assert y in out || y == x; }
  }

  lemma StepLaw(first: seq<Option<Input>>, out: seq<Entry>, was: seq<Option<Input>>, source: set<Entry>,
                last: Option<string>, head: Option<Entry>, r: Pull, pending: seq<Option<Input>>)
    requires Running(first, out, was, last, head) && ReadLaw(was, source, last, r, pending)
    ensures if r.Got? then Running(first, Grown(out, r), pending, Some(r.entry.key), None)
      else Ended(first, Grown(out, r), r)
  {
    if OneEach(ItemsIn(first)) {
      if r.Got? {
        PartedSnoc(out, r.entry, was, pending, ItemsIn(first));
      } else {
        LastRead(first, out, was, r, pending);
      }
    }
    if Sole(first, None) {
      if r.Got? { SoleSnoc(out, was, last, r, pending); } else { SoleLast(out, was, last, r, pending); }
    }
    if Twin(first) { TwinStep(ItemsAt(first[0]), ItemsAt(first[1]), out, was, last, r, pending); }
  }

  lemma SoleSnoc(out: seq<Entry>, was: seq<Option<Input>>, last: Option<string>, r: Pull, pending: seq<Option<Input>>)
    requires r.Got? && SoleRead(was, last, r, pending)
    ensures Sole(pending, Some(r.entry.key))
    ensures out + [r.entry] + SoleRun(Joined(pending), Some(r.entry.key)) == out + SoleRun(Joined(was), last)
  {
    var items, rest := Joined(was), Reread(Joined(was), last);
    BehindSuffix(items, last);
    var tail := SoleRun(rest[1..], Some(rest[0].key));
    assert SoleRun(items, last) == [rest[0]] + tail;
    assert out + [rest[0]] + tail == out + ([rest[0]] + tail);
  }

  lemma SoleLast(out: seq<Entry>, was: seq<Option<Input>>, last: Option<string>, r: Pull, pending: seq<Option<Input>>)
    requires !r.Got? && SoleRead(was, last, r, pending)
    ensures r.Done? && out + SoleRun(Joined(was), last) == out
  {
  }

  lemma LastRead(first: seq<Option<Input>>, out: seq<Entry>, was: seq<Option<Input>>, r: Pull,
                 pending: seq<Option<Input>>)
    requires TidySoFar(first, out, was) && !r.Got? && TidyRead(was, r, pending)
    ensures FirstPart(out, r, ItemsIn(first), BeyondIn(first)) && (NoFaults(first) ==> r.Done?)
  {
    assert ItemsIn(first) - multiset(out) == ItemsIn(was);
  }

  // ------------------------------------------------------------ two inputs

  /** The run starts on track. */
  lemma TwinStart(first: seq<Option<Input>>)
    requires Twin(first)
    ensures TwinRunning(ItemsAt(first[0]), ItemsAt(first[1]), [], first, None)
  {
    var a, b := ItemsAt(first[0]), ItemsAt(first[1]);
    LiveTwo(first);
    assert Holds(first, a, b) && OnTrack(a, b, [], None, a, b);
  }

  /** What is missed stays missed, as no item is added. */
  lemma TwinMissed(a: seq<Entry>, b: seq<Entry>, out: seq<Entry>, was: seq<Option<Input>>, z: string, s: Search,
                   mid: seq<Option<Input>>)
    requires Misses(a, b, out, ItemsIn(was), z) && ItemsIn(mid) <= ItemsIn(was)
    requires (s.At? ==> s.idx < |mid| && mid[s.idx].Some?)
    ensures Misses(a, b, Grown(out, PullAt(s, mid)), ItemsIn(Moved(s, mid)), z)
  {
    var r := PullAt(s, mid);
    if r.Got? {
      AdvanceItems(mid, s.idx, mid[s.idx].value);
      ItemsInAt(mid, s.idx);
      assert r.entry in mid[s.idx].value.items;
    }
    MissedStays(a, b, out, ItemsIn(was), z, r, ItemsIn(Moved(s, mid)));
  }

  lemma TwinPeek(a: seq<Entry>, b: seq<Entry>, out: seq<Entry>, was: seq<Option<Input>>, last: Option<string>,
                 pending: seq<Option<Input>>)
    requires TwinRunning(a, b, out, was, last)
    requires exists s :: Searched(Live(was), last, s, pending) && Kept(was, last, pending)
    ensures TwinRunning(a, b, out, pending, last)
  {
    var s :| Searched(Live(was), last, s, pending) && Kept(was, last, pending);
    if TwinOnTrack(a, b, out, was, last) {
      var x, y :| Holds(was, x, y) && OnTrack(a, b, out, last, x, y);
      SearchFinds(was, last, s, pending, x, y);
      if Loses(x, y, last) {
        HoldsItems(pending, x, Dropped(y, last));
        KeyLost(a, b, out, last, x, y, ItemsIn(pending));
      } else {
        Previewed(a, b, out, last, x, y);
      }
    } else {
      var z :| Misses(a, b, out, ItemsIn(was), z);
      MissedStays(a, b, out, ItemsIn(was), z, Done, ItemsIn(pending));
    }
  }

  lemma TwinStep(a: seq<Entry>, b: seq<Entry>, out: seq<Entry>, was: seq<Option<Input>>, last: Option<string>, r: Pull,
                 pending: seq<Option<Input>>)
    requires TwinRunning(a, b, out, was, last) && ReadFrom(was, last, r, pending)
    ensures if r.Got? then TwinRunning(a, b, Grown(out, r), pending, Some(r.entry.key)) else TwinEnded(a, b, out, r)
  {
    var s, mid :| ReadVia(was, last, s, mid, r, pending);
    PairedIffEven(Shared(a, b, None));
    if TwinOnTrack(a, b, out, was, last) {
      var x, y :| Holds(was, x, y) && OnTrack(a, b, out, last, x, y);
      SearchFinds(was, last, s, mid, x, y);
      if Loses(x, y, last) {
        TwinLoses(a, b, out, last, x, y, s, mid);
      } else {
        TwinReads(a, b, out, last, x, y, s, mid);
      }
    } else {
      var z :| Misses(a, b, out, ItemsIn(was), z);
      TwinMissed(a, b, out, was, z, s, mid);
    }
  }

  lemma TwinLoses(a: seq<Entry>, b: seq<Entry>, out: seq<Entry>, last: Option<string>, x: seq<Entry>, y: seq<Entry>,
                  s: Search, mid: seq<Option<Input>>)
    requires OnTrack(a, b, out, last, x, y) && Found(s, mid, x, y, last) && Loses(x, y, last)
    ensures s.At? ==> s.idx < |mid| && mid[s.idx].Some?
    ensures !Paired(Shared(a, b, None)) && Misses(a, b, Grown(out, PullAt(s, mid)), ItemsIn(Moved(s, mid)), y[1].key)
  {
    HoldsItems(mid, x, Dropped(y, last));
    KeyLost(a, b, out, last, x, y, ItemsIn(mid));
    TwinMissed(a, b, out, mid, y[1].key, s, mid);
  }

  lemma TwinReads(a: seq<Entry>, b: seq<Entry>, out: seq<Entry>, last: Option<string>, x: seq<Entry>, y: seq<Entry>,
                  s: Search, mid: seq<Option<Input>>)
    requires OnTrack(a, b, out, last, x, y) && Found(s, mid, x, y, last) && !Loses(x, y, last)
    ensures s.At? ==> s.idx < |mid| && mid[s.idx].Some?
    ensures var r := PullAt(s, mid);
      if r.Got? then TwinOnTrack(a, b, Grown(out, r), Moved(s, mid), Some(r.entry.key))
      else r.Done? && Paired(Shared(a, b, None)) && AllKeys(a, b, out) && forall e :: e in out ==>
        e in a || (e in b && !HasKey(a, e.key))
  {
    if s.Nowhere? {
      NothingLeft(a, b, out, last, x, y);
    } else if PointsFirst(s, mid, x, y, last) {
      TakenFirst(a, b, out, last, x, y, s, mid);
    } else {
      TakenSecond(a, b, out, last, x, y, s, mid);
    }
  }
}
