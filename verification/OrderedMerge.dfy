/** The iterator that merges ordered iterators and drops repeated keys. */
module OrderedMerge {
  import opened Options
  import opened Order
  import opened Model

  /** A tuple, as far as the merge and the filter behind it look at it: its mapped key and its condition. */
  datatype Entry = Entry(key: string, cond: Condition)

  /**
   * What is left in an input: its tuples, then the end or a failure, and the tuples the failure keeps from
   * being read.
   */
  datatype Input = Input(items: seq<Entry>, fails: bool, beyond: seq<Entry>)

  /** A read: a tuple, ErrIteratorDone, or some other error. */
  datatype Pull = Got(entry: Entry) | Done | Fail

  ghost predicate Sorted(s: seq<Entry>) {
    forall i, j :: 0 <= i < j < |s| ==> Leq(s[i].key, s[j].key)
  }

  ghost predicate StrictlySorted(s: seq<Entry>) {
    forall i, j :: 0 <= i < j < |s| ==> Less(s[i].key, s[j].key)
  }

  /** An input is sorted, also past a failure, and one that does not fail keeps nothing back. */
  ghost predicate InputOk(it: Input) {
    && Sorted(it.items) && (forall x, y :: x in it.items && y in it.beyond ==> Leq(x.key, y.key))
    && (!it.fails ==> it.beyond == [])
  }

  // ------------------------------------------------------------ one input

  /** The items after the leading copies of the key yielded last. */
  function Behind(items: seq<Entry>, last: Option<string>): seq<Entry> {
    if last.Some? && items != [] && items[0].key == last.value then Behind(items[1..], last) else items
  }

  /** What looking at one input gives: it is exhausted, it is at fault, or it has a head to compare. */
  datatype Settled = Gone | AtFault | Ready(it: Input, head: Entry)

  /** The discard loop takes the head from Next, so the item it stops at is consumed. */
  function Settle(it: Input, last: Option<string>): Settled {
    var rest := Behind(it.items, last);
    if rest == [] then (if it.fails then AtFault else Gone)
    else if rest == it.items then (if last.Some? && Less(rest[0].key, last.value) then AtFault else Ready(it, rest[0]))
    else Ready(it.(items := rest[1..]), rest[0])
  }

  /** The item that looking at the input loses: one behind copies of the key yielded last. */
  function Lost(it: Input, last: Option<string>): multiset<Entry> {
    var rest := Behind(it.items, last);
    if rest != [] && rest != it.items then multiset{rest[0]} else multiset{}
  }

  lemma {:induction false} BehindSuffix(items: seq<Entry>, last: Option<string>)
    ensures |Behind(items, last)| <= |items| && Behind(items, last) == items[|items| - |Behind(items, last)|..]
    ensures last.Some? && Behind(items, last) != [] ==> Behind(items, last)[0].key != last.value
  {
    if last.Some? && items != [] && items[0].key == last.value { BehindSuffix(items[1..], last); }
  }

  lemma {:induction false} BehindBound(items: seq<Entry>, last: Option<string>)
    ensures multiset(Behind(items, last)) <= multiset(items)
  {
    if last.Some? && items != [] && items[0].key == last.value {
      TailMultiset(items);
      BehindBound(items[1..], last);
    }
  }

  lemma SuffixSorted(items: seq<Entry>, k: nat)
    requires Sorted(items) && k <= |items|
    ensures Sorted(items[k..]) && (forall x :: x in items[k..] ==> x in items)
    ensures (k < |items| ==> forall x :: x in items[k..] ==> Leq(items[k].key, x.key))
  {
  }

  /** The items behind copies of the last key, in an input that does not start before that key. */
  lemma BehindSorted(items: seq<Entry>, last: Option<string>)
    requires Sorted(items)
    ensures var rest := Behind(items, last);
      && Sorted(rest) && (forall x :: x in rest ==> x in items) &&
           (rest != [] ==> forall x :: x in rest ==> Leq(rest[0].key, x.key))
      && (rest != [] && last.Some? && !Less(items[0].key, last.value) ==> Less(last.value, rest[0].key))
  {
    var rest := Behind(items, last);
    BehindSuffix(items, last);
    SuffixSorted(items, |items| - |rest|);
    if rest != [] && last.Some? && !Less(items[0].key, last.value) {
      LessTotal(items[0].key, last.value);
      LessTotal(rest[0].key, last.value);
      assert rest[0] == items[|items| - |rest|];
      AheadLess(last.value, items[0].key, rest[0].key);
    }
  }

  /** What is not before `a` and not `a` is beyond it. */
  lemma AheadLess(a: string, b: string, c: string)
    requires Leq(a, b) && Leq(b, c)
    ensures c != a ==> Less(a, c)
  {
    if b != c && a != b { LessTransitive(a, b, c); }
  }

  /** A head is beyond the key yielded last, and below everything left in its input. */
  lemma ReadyHead(it: Input, last: Option<string>)
    requires Sorted(it.items) && Settle(it, last).Ready?
    ensures last.Some? ==> Less(last.value, Settle(it, last).head.key)
    ensures Sorted(Settle(it, last).it.items) && forall x :: x in Settle(it, last).it.items ==>
      x in it.items && Leq(Settle(it, last).head.key, x.key)
    ensures (forall x :: x in Behind(it.items, last) ==> Leq(Settle(it, last).head.key, x.key))
    ensures Settle(it, last).head in it.items
  {
    var rest := Behind(it.items, last);
    BehindSorted(it.items, last);
    SuffixSorted(rest, 1);
    if last.Some? && it.items[0].key == last.value { LessIrreflexive(last.value); }
  }

  // ------------------------------------------------------------ all inputs

  /** The inputs that are still pending. */
  function Live(pending: seq<Option<Input>>): seq<Input> {
    if pending == [] then [] else (if pending[0].Some? then [pending[0].value] else []) + Live(pending[1..])
  }

  function ItemsAt(p: Option<Input>): seq<Entry> {
    if p.Some? then p.value.items else []
  }

  function BeyondAt(p: Option<Input>): seq<Entry> {
    if p.Some? then p.value.beyond else []
  }

  /** All items left. */
  function ItemsIn(pending: seq<Option<Input>>): multiset<Entry> {
    if pending == [] then multiset{} else multiset(ItemsAt(pending[0])) + ItemsIn(pending[1..])
  }

  /** All items that failures keep from being read. */
  function BeyondIn(pending: seq<Option<Input>>): multiset<Entry> {
    if pending == [] then multiset{} else multiset(BeyondAt(pending[0])) + BeyondIn(pending[1..])
  }

  /** All items left except copies of the key yielded last. */
  function BagOf(its: seq<Input>, last: Option<string>): multiset<Entry> {
    if its == [] then multiset{} else multiset(Behind(its[0].items, last)) + BagOf(its[1..], last)
  }

  function LostIn(its: seq<Input>, last: Option<string>): multiset<Entry> {
    if its == [] then multiset{} else Lost(its[0], last) + LostIn(its[1..], last)
  }

  /** No input starts with the key yielded last and continues with another one. */
  predicate NothingBehind(its: seq<Input>, last: Option<string>) {
    forall j :: 0 <= j < |its| ==> Behind(its[j].items, last) == [] || Behind(its[j].items, last) == its[j].items
  }

  lemma {:induction false} NothingLost(its: seq<Input>, last: Option<string>)
    ensures LostIn(its, last) == multiset{} <==> NothingBehind(its, last)
  {
    if its != [] {
      NothingLost(its[1..], last);
      assert NothingBehind(its, last) <==> Lost(its[0], last) == multiset{} && NothingBehind(its[1..], last) by {
        assert forall j :: 0 <= j < |its[1..]| ==> its[1..][j] == its[j + 1];
        if Lost(its[0], last) == multiset{} && NothingBehind(its[1..], last) {
          forall j | 0 <= j < |its|
            ensures Behind(its[j].items, last) == [] || Behind(its[j].items, last) == its[j].items
          {
            if j > 0 { assert its[1..][j - 1] == its[j]; }
          }
        }
        if NothingBehind(its, last) {
          assert Behind(its[0].items, last) == [] || Behind(its[0].items, last) == its[0].items;
        }
      }
    }
  }

  predicate SomeFault(its: seq<Input>, last: Option<string>) {
    exists it :: it in its && Settle(it, last).AtFault?
  }

  /** What Next reads: a fault, the end, or what follows in the first input with the least head. */
  ghost predicate MergeRead(its: seq<Input>, last: Option<string>, r: Pull) {
    if SomeFault(its, last) then r == Fail
    else
      || (NoneReady(its, last, |its|) && r == Done)
      || exists idx: nat :: Chosen(its, last, idx, |its|) && r == FirstOf(Settle(its[idx], last).it)
  }

  function FirstOf(it: Input): Pull {
    if it.items != [] then Got(it.items[0]) else if it.fails then Fail else Done
  }

  lemma SweptFaultless(its: seq<Input>, last: Option<string>, pending: seq<Option<Input>>)
    requires Swept(its, last, pending)
    ensures !SomeFault(its, last)
  {
    forall it | it in its ensures !Settle(it, last).AtFault? {
      var j :| 0 <= j < |its| && its[j] == it;
      assert SweptOne(its[j], last, pending[j]);
    }
  }

  /** Every input was looked at without a fault. */
  ghost predicate Swept(its: seq<Input>, last: Option<string>, pending: seq<Option<Input>>) {
    && |pending| == |its|
    && forall j :: 0 <= j < |its| ==> SweptOne(its[j], last, pending[j])
  }

  predicate SweptOne(it: Input, last: Option<string>, p: Option<Input>) {
    match Settle(it, last)
    case Gone => p == None
    case AtFault => false
    case Ready(it', _) => p == Some(it')
  }

  lemma SweptOneConserves(it: Input, last: Option<string>, p: Option<Input>)
    requires SweptOne(it, last, p)
    ensures multiset(ItemsAt(p)) + Lost(it, last) == multiset(Behind(it.items, last))
  {
    var rest := Behind(it.items, last);
    if rest != [] { TailMultiset(rest); }
  }

  /** Looking at the inputs keeps all items except copies of the last key and what is lost. */
  lemma {:induction false} SweptConserves(its: seq<Input>, last: Option<string>, pending: seq<Option<Input>>)
    requires Swept(its, last, pending)
    ensures ItemsIn(pending) + LostIn(its, last) == BagOf(its, last)
  {
    if its != [] {
      assert Swept(its[1..], last, pending[1..]);
      SweptConserves(its[1..], last, pending[1..]);
      SweptOneConserves(its[0], last, pending[0]);
    }
  }

  /** `idx` is the first input whose head is least. */
  ghost predicate Chosen(its: seq<Input>, last: Option<string>, idx: nat, k: nat) {
    idx < k <= |its| && Settle(its[idx], last).Ready? &&
    forall j :: 0 <= j < k && Settle(its[j], last).Ready? ==>
      Leq(Settle(its[idx], last).head.key, Settle(its[j], last).head.key) &&
        (j < idx ==> Less(Settle(its[idx], last).head.key, Settle(its[j], last).head.key))
  }

  ghost predicate NoneReady(its: seq<Input>, last: Option<string>, k: nat) {
    k <= |its| && forall j :: 0 <= j < k ==> !Settle(its[j], last).Ready?
  }

  lemma {:induction false} BagWitness(its: seq<Input>, last: Option<string>, x: Entry) returns (j: nat)
    requires x in BagOf(its, last)
    ensures j < |its| && x in Behind(its[j].items, last)
  {
    if x in multiset(Behind(its[0].items, last)) {
      j := 0;
    } else {
      j := BagWitness(its[1..], last, x);
      j := j + 1;
    }
  }

  /** The chosen head is at most any item left. */
  lemma ChosenLeast(its: seq<Input>, last: Option<string>, idx: nat, pending: seq<Option<Input>>, x: Entry)
    requires Swept(its, last, pending) && Chosen(its, last, idx, |its|)
    requires (forall j :: 0 <= j < |its| ==> InputOk(its[j])) && x in BagOf(its, last)
    ensures Leq(Settle(its[idx], last).head.key, x.key)
  {
    var j := BagWitness(its, last, x);
    assert SweptOne(its[j], last, pending[j]);
    ReadyHead(its[j], last);
    LeqTransitive(Settle(its[idx], last).head.key, Settle(its[j], last).head.key, x.key);
  }

  lemma {:induction false} BeyondWitness(its: seq<Input>, x: Entry) returns (j: nat)
    requires x in BeyondIn(Wrap(its))
    ensures j < |its| && x in its[j].beyond
  {
    assert Wrap(its)[1..] == Wrap(its[1..]) && Wrap(its)[0] == Some(its[0]);
    if x in its[0].beyond {
      j := 0;
    } else {
      j := BeyondWitness(its[1..], x);
      j := j + 1;
    }
  }

  /** The chosen head is at most any item a failure keeps back, since the failing input still has items. */
  lemma {:induction false} ChosenBelowBeyond(its: seq<Input>, last: Option<string>, idx: nat,
                                             pending: seq<Option<Input>>, x: Entry)
    requires Swept(its, last, pending) && Chosen(its, last, idx, |its|)
    requires (forall j :: 0 <= j < |its| ==> InputOk(its[j])) && x in BeyondIn(Wrap(its))
    ensures Leq(Settle(its[idx], last).head.key, x.key)
  {
    var j := BeyondWitness(its, x);
    assert SweptOne(its[j], last, pending[j]);
    ReadyHead(its[j], last);
    assert Leq(Settle(its[j], last).head.key, x.key);
    LeqTransitive(Settle(its[idx], last).head.key, Settle(its[j], last).head.key, x.key);
  }

  lemma NoneReadyEmpty(its: seq<Input>, last: Option<string>, pending: seq<Option<Input>>)
    requires Swept(its, last, pending) && NoneReady(its, last, |its|)
    ensures BagOf(its, last) == multiset{}
  {
    forall j | 0 <= j < |its| ensures Behind(its[j].items, last) == [] { assert SweptOne(its[j], last, pending[j]); }
    if BagOf(its, last) != multiset{} {
      var x :| x in BagOf(its, last);
      var j := BagWitness(its, last, x);
    }
  }

  /** Then no input fails either. */
  lemma NoneReadyNoBeyond(its: seq<Input>, last: Option<string>, pending: seq<Option<Input>>)
    requires Swept(its, last, pending) && NoneReady(its, last, |its|)
    requires (forall j :: 0 <= j < |its| ==> InputOk(its[j]))
    ensures BeyondIn(Wrap(its)) == multiset{}
  {
    forall j | 0 <= j < |its| ensures its[j].beyond == [] { GoneNoBeyond(its[j], last, pending[j]); }
    NoBeyond(its);
  }

  lemma GoneNoBeyond(it: Input, last: Option<string>, p: Option<Input>)
    requires SweptOne(it, last, p) && !Settle(it, last).Ready? && InputOk(it)
    ensures it.beyond == []
  {
  }

  lemma {:induction false} NoBeyond(its: seq<Input>)
    requires forall j :: 0 <= j < |its| ==> its[j].beyond == []
    ensures BeyondIn(Wrap(its)) == multiset{}
  {
    if its != [] {
      assert Wrap(its)[1..] == Wrap(its[1..]) && Wrap(its)[0] == Some(its[0]);
      NoBeyond(its[1..]);
    }
  }

  /** Replacing one input, counted for one item. */
  lemma {:induction false} ReplaceItems(pending: seq<Option<Input>>, i: nat, p: Option<Input>, x: Entry)
    requires i < |pending|
    ensures ItemsIn(pending[i := p])[x] + multiset(ItemsAt(pending[i]))[x] ==
      ItemsIn(pending)[x] + multiset(ItemsAt(p))[x]
  {
    var after := pending[i := p];
    if i == 0 {
      assert after[0] == p && after[1..] == pending[1..];
    } else {
      assert after[0] == pending[0] && after[1..] == pending[1..][i - 1 := p];
      ReplaceItems(pending[1..], i - 1, p, x);
    }
  }

  lemma {:induction false} ReplaceBeyond(pending: seq<Option<Input>>, i: nat, p: Option<Input>)
    requires i < |pending| && BeyondAt(p) == BeyondAt(pending[i])
    ensures BeyondIn(pending[i := p]) == BeyondIn(pending)
  {
    var after := pending[i := p];
    if i == 0 {
      assert after[0] == p && after[1..] == pending[1..];
    } else {
      assert after[0] == pending[0] && after[1..] == pending[1..][i - 1 := p];
      ReplaceBeyond(pending[1..], i - 1, p);
    }
  }

  /** Advancing one input takes its first item. */
  lemma AdvanceItems(pending: seq<Option<Input>>, idx: nat, it: Input)
    requires idx < |pending| && pending[idx] == Some(it) && it.items != []
    ensures ItemsIn(pending) == ItemsIn(Advanced(pending, idx)) + multiset{it.items[0]}
    ensures BeyondIn(Advanced(pending, idx)) == BeyondIn(pending)
  {
    var all, left := ItemsIn(pending), ItemsIn(Advanced(pending, idx));
    ReplaceBeyond(pending, idx, Some(it.(items := it.items[1..])));
    forall x ensures all[x] == left[x] + multiset{it.items[0]}[x] { AdvanceCount(pending, idx, it, x); }
    SameCounts(all, left, it.items[0]);
  }

  lemma SameCounts(all: multiset<Entry>, left: multiset<Entry>, e: Entry)
    requires forall x :: all[x] == left[x] + multiset{e}[x]
    ensures all == left + multiset{e}
  {
  }

  lemma AdvanceCount(pending: seq<Option<Input>>, idx: nat, it: Input, x: Entry)
    requires idx < |pending| && pending[idx] == Some(it) && it.items != []
    ensures ItemsIn(pending)[x] == ItemsIn(Advanced(pending, idx))[x] + multiset{it.items[0]}[x]
  {
    assert it.items == [it.items[0]] + it.items[1..];
    assert multiset(it.items) == multiset{it.items[0]} + multiset(it.items[1..]);
    ReplaceItems(pending, idx, Some(it.(items := it.items[1..])), x);
  }

  /** The inputs after one of them was read. */
  function Advanced(pending: seq<Option<Input>>, idx: nat): seq<Option<Input>>
    requires idx < |pending| && pending[idx].Some? && pending[idx].value.items != []
  {
    pending[idx := Some(pending[idx].value.(items := pending[idx].value.items[1..]))]
  }

  // ------------------------------------------------------------ the iterator

  function Wrap(its: seq<Input>): (r: seq<Option<Input>>)
    ensures |r| == |its| && forall i :: 0 <= i < |its| ==> r[i] == Some(its[i])
  {
    if its == [] then [] else [Some(its[0])] + Wrap(its[1..])
  }

  /** What the search for the least head returns. */
  datatype Search = At(idx: nat) | Nowhere | Stuck

  /** What a search found, given the inputs before and after it. */
  ghost predicate Searched(its: seq<Input>, last: Option<string>, s: Search, pending: seq<Option<Input>>) {
    && (!s.Stuck? ==> Swept(its, last, pending))
    && (s.At? ==> Chosen(its, last, s.idx, |its|))
    && (s.Nowhere? ==> NoneReady(its, last, |its|))
    && (s.Stuck? ==> SomeFault(its, last))
  }

  /** What is read where the search points to. */
  function PullAt(s: Search, pending: seq<Option<Input>>): Pull
    requires s.At? ==> s.idx < |pending| && pending[s.idx].Some?
  {
    match s
    case Stuck => Fail
    case Nowhere => Done
    case At(idx) => FirstOf(pending[idx].value)
  }

  /** The inputs after that read. */
  function Moved(s: Search, pending: seq<Option<Input>>): seq<Option<Input>>
    requires s.At? ==> s.idx < |pending| && pending[s.idx].Some?
  {
    if PullAt(s, pending).Got? then Advanced(pending, s.idx) else pending
  }

  class OrderedCombinedIterator {
    var pending: seq<Option<Input>>
    var lastHead: Option<Entry>
    var lastYielded: Option<string>
    ghost const source: set<Entry>

    /** Inputs are sorted, and hold nothing but items of the original inputs. */
    ghost predicate Valid()
      reads this
    {
      Sound(pending, source)
    }

    constructor (its: seq<Input>)
      requires forall i :: 0 <= i < |its| ==> InputOk(its[i])
      ensures Valid() && pending == Wrap(its) && lastHead == None && lastYielded == None
      ensures forall x :: x in source <==> x in ItemsIn(pending)
    {
      pending, lastHead, lastYielded := Wrap(its), None, None;
      source := set x | x in ItemsIn(Wrap(its));
      OwnItems(Wrap(its));
    }

    /** One input: drops an exhausted one, and discards leading copies of the key yielded last. */
    method LookAt(idx: nat, ghost its: seq<Input>) returns (s: Settled)
      requires idx < |pending| && |its| == |pending| && pending[idx] == Some(its[idx])
      modifies this`pending
      ensures s == Settle(its[idx], lastYielded)
      ensures idx < |pending| && pending == old(pending)[idx := pending[idx]]
      ensures Looked(its[idx], lastYielded, s, pending[idx])
    {
      var it := pending[idx].value;
      assert pending == pending[idx := pending[idx]];
      assert it.items[0..] == it.items;
      if it.items == [] {
        if it.fails { return AtFault; }
        pending := pending[idx := None];
        return Gone;
      }
      var head := it.items[0];
      if lastYielded.Some? && Less(head.key, lastYielded.value) {
        LessIrreflexive(head.key);
        return AtFault;
      }
      if lastYielded == Some(head.key) {
        // the first Next returns the head itself; the loop ends at the first different key
        var k := 1;
        while k < |it.items| && it.items[k].key == lastYielded.value
          invariant 1 <= k <= |it.items| && Behind(it.items[k..], lastYielded) == Behind(it.items, lastYielded)
          invariant it.items[0].key == lastYielded.value
        {
          assert it.items[k..][1..] == it.items[k + 1..];
          k := k + 1;
        }
        if k == |it.items| {
          if it.fails {
            pending := pending[idx := Some(it.(items := it.items[k..]))];
            return AtFault;
          }
          pending := pending[idx := None];
          return Gone;
        }
        head := it.items[k];
        it := it.(items := it.items[k + 1..]);
        pending := pending[idx := Some(it)];
        assert its[idx].items[k..][1..] == its[idx].items[k + 1..];
        BehindSuffix(its[idx].items, lastYielded);
      }
      return Ready(it, head);
    }

    /** head: looks at every input and returns the first with the least head. */
    method FindHead() returns (s: Search)
      requires Valid()
      modifies this`pending
      ensures Valid() && Searched(old(Live(pending)), lastYielded, s, pending)
      ensures Kept(old(pending), lastYielded, pending)
    {
      ghost var was, its := pending, Live(pending);
      LiveSound(pending, source);
      LiveKept(pending, lastYielded);
      pending := Wrap(Live(pending));
      var headMin: Option<string> := None;
      s := Nowhere;
      for i := 0 to |pending|
        invariant Valid() && Halfway(its, lastYielded, pending, i)
        invariant Best(its, lastYielded, i, s, headMin)
        invariant Kept(was, lastYielded, pending)
      {
        s, headMin := Consider(i, its, s, headMin, was);
        if s.Stuck? { return; }
      }
    }

    /** Looks at one more input and compares its head. */
    method Consider(i: nat, ghost its: seq<Input>, s: Search, headMin: Option<string>, ghost was: seq<Option<Input>>)
      returns (s': Search, headMin': Option<string>)
      requires Valid() && i < |its| && Halfway(its, lastYielded, pending, i) && Best(its, lastYielded, i, s, headMin)
      requires Kept(was, lastYielded, pending)
      modifies this`pending
      ensures Valid() && Kept(was, lastYielded, pending)
      ensures s'.Stuck? ==> SomeFault(its, lastYielded)
      ensures !s'.Stuck? ==> Halfway(its, lastYielded, pending, i + 1) && Best(its, lastYielded, i + 1, s', headMin')
    {
      ghost var before := pending;
      var r := LookAt(i, its);
      LookedKept(was, before, source, i, its[i], lastYielded, r, pending[i]);
      s', headMin' := s, headMin;
      match r {
        case AtFault =>
          assert its[i] in its;
          return Stuck, headMin;
        case Gone =>
        case Ready(_, head) =>
          if headMin.None? || Less(head.key, headMin.value) {
            BetterHead(its, lastYielded, i, s, headMin);
            headMin', s' := Some(head.key), At(i);
          } else {
            LessTotal(headMin.value, head.key);
          }
      }
      HalfwayStep(its, lastYielded, before, i, pending[i]);
    }

    /**
     * Next yields keys in strictly ascending order. It takes exactly the yielded item, apart from copies
     * of the key before it, if and only if no input continues behind such a copy; then the yield is the
     * least item left, and the end is reached only when nothing is left. Without repeated keys all this
     * goes on: Next removes the least item until none is left or an input fails. From a single input
     * Next reads as `SoleRead` says.
     */
    method Next() returns (r: Pull)
      requires Valid()
      modifies this
      ensures Valid() && lastYielded == (if r.Got? then Some(r.entry.key) else old(lastYielded))
      ensures (r.Got? ==> lastHead == None)
      ensures ReadLaw(old(pending), source, old(lastYielded), r, pending)
    {
      ghost var was, last := pending, lastYielded;
      var s := FindHead();
      NextLaw(was, source, last, s, pending);
      r := Take(s);
    }

    /** Reads where the search points to. */
    method Take(s: Search) returns (r: Pull)
      requires s.At? ==> s.idx < |pending| && pending[s.idx].Some?
      modifies this
      ensures r == PullAt(s, old(pending)) && pending == Moved(s, old(pending))
      ensures lastYielded == (if r.Got? then Some(r.entry.key) else old(lastYielded)) && (r.Got? ==> lastHead == None)
    {
      r, pending := PullAt(s, pending), Moved(s, pending);
      if s.At? { lastHead := None; }
      if r.Got? { lastYielded := Some(r.entry.key); }
    }

    /** Head: without repeated keys it previews the following Next. */
    method Head() returns (r: Pull)
      requires Valid()
      modifies this`pending, this`lastHead
      ensures Valid() && HeadLaw(old(pending), old(lastHead), lastYielded, r, pending, lastHead)
    {
      HeadCached(pending, lastHead, lastYielded);
      if lastHead.Some? { return Got(lastHead.value); }
      ghost var was, head := pending, lastHead;
      var s := FindHead();
      PreviewLaw(was, source, head, lastYielded, s, pending);
      r := PullAt(s, pending);
      lastHead := Remembered(r);
    }
  }

  function Remembered(r: Pull): Option<Entry> {
    if r.Got? then Some(r.entry) else None
  }

  // ------------------------------------------------------------ looking at the inputs

  /** The state of an input after it was looked at. */
  ghost predicate Looked(it: Input, last: Option<string>, s: Settled, p: Option<Input>) {
    && (!s.AtFault? ==> SweptOne(it, last, p))
    && (p.Some? ==> p.value.fails == it.fails && p.value.beyond == it.beyond)
    && (s.AtFault? ==> p.Some? && exists k :: 0 <= k <= |it.items| && p.value.items == it.items[k..])
    && (s.AtFault? && (last.None? || it.items == [] || it.items[0].key != last.value) ==> p == Some(it))
  }

  ghost predicate Sound(pending: seq<Option<Input>>, source: set<Entry>) {
    forall i :: 0 <= i < |pending| && pending[i].Some? ==>
      InputOk(pending[i].value) && forall x :: x in pending[i].value.items ==> x in source
  }

  predicate NoFaults(pending: seq<Option<Input>>) {
    forall i :: 0 <= i < |pending| && pending[i].Some? ==> !pending[i].value.fails
  }

  /** No input starts with the key yielded last. */
  predicate NoCopies(pending: seq<Option<Input>>, last: Option<string>) {
    forall i :: 0 <= i < |pending| ==>
      ItemsAt(pending[i]) == [] || last.None? || ItemsAt(pending[i])[0].key != last.value
  }

  /** What looking at the inputs keeps: no item is added, and without copies of the last key none is taken. */
  ghost predicate Kept(was: seq<Option<Input>>, last: Option<string>, pending: seq<Option<Input>>) {
    && ItemsIn(pending) <= ItemsIn(was) && BeyondIn(pending) == BeyondIn(was)
    && (NoFaults(was) ==> NoFaults(pending))
    && (NoCopies(was, last) ==> NoCopies(pending, last) && ItemsIn(pending) == ItemsIn(was))
  }

  lemma {:induction false} LiveSound(pending: seq<Option<Input>>, source: set<Entry>)
    requires Sound(pending, source)
    ensures Sound(Wrap(Live(pending)), source)
    ensures forall j :: 0 <= j < |Live(pending)| ==>
      InputOk(Live(pending)[j]) && forall x :: x in Live(pending)[j].items ==> x in source
  {
    if pending != [] {
      assert forall j :: 0 <= j < |pending[1..]| ==> pending[1..][j] == pending[j + 1];
      LiveSound(pending[1..], source);
    }
  }

  /** Dropping the exhausted inputs from the first on. */
  lemma LiveSplit(pending: seq<Option<Input>>)
    requires pending != []
    ensures pending[0].Some? ==> Wrap(Live(pending)) == [pending[0]] + Wrap(Live(pending[1..]))
    ensures pending[0].None? ==> Live(pending) == Live(pending[1..])
  {
    if pending[0].Some? { assert Live(pending)[0] == pending[0].value && Live(pending)[1..] == Live(pending[1..]); }
  }

  lemma {:induction false} LiveMembers(pending: seq<Option<Input>>)
    ensures forall i :: 0 <= i < |Live(pending)| ==> Some(Live(pending)[i]) in pending
  {
    if pending != [] { LiveMembers(pending[1..]); }
  }

  lemma {:induction false} LiveItems(pending: seq<Option<Input>>)
    ensures ItemsIn(Wrap(Live(pending))) == ItemsIn(pending) && BeyondIn(Wrap(Live(pending))) == BeyondIn(pending)
  {
    if pending != [] {
      LiveItems(pending[1..]);
      LiveSplit(pending);
      if pending[0].Some? { HeadItems(pending[0], Wrap(Live(pending[1..]))); }
    }
  }

  lemma HeadItems(p: Option<Input>, rest: seq<Option<Input>>)
    ensures ItemsIn([p] + rest) == multiset(ItemsAt(p)) + ItemsIn(rest)
    ensures BeyondIn([p] + rest) == multiset(BeyondAt(p)) + BeyondIn(rest)
  {
    assert ([p] + rest)[1..] == rest;
  }

  lemma LiveKept(pending: seq<Option<Input>>, last: Option<string>)
    ensures Kept(pending, last, Wrap(Live(pending)))
  {
    LiveItems(pending);
    LiveMembers(pending);
    var w := Wrap(Live(pending));
    forall i | 0 <= i < |w|
      ensures exists j :: 0 <= j < |pending| && pending[j] == w[i]
    {
      assert Some(Live(pending)[i]) in pending;
    }
  }

  /** The first `i` inputs have been looked at. */
  ghost predicate Halfway(its: seq<Input>, last: Option<string>, pending: seq<Option<Input>>, i: nat) {
    && |pending| == |its|
    && (forall j :: 0 <= j < i <= |its| ==> SweptOne(its[j], last, pending[j]))
    && (forall j :: i <= j < |its| ==> pending[j] == Some(its[j]))
  }

  lemma HalfwayStep(its: seq<Input>, last: Option<string>, before: seq<Option<Input>>, i: nat, p: Option<Input>)
    requires i < |its| && Halfway(its, last, before, i) && SweptOne(its[i], last, p)
    ensures Halfway(its, last, before[i := p], i + 1)
  {
  }

  lemma SuffixFewer(items: seq<Entry>, k: nat)
    requires k <= |items|
    ensures multiset(items[k..]) <= multiset(items)
  {
    assert items == items[..k] + items[k..];
  }

  /** Looking at an input does not add items, and takes none if it does not start with the last key. */
  lemma LookedFewer(it: Input, last: Option<string>, r: Settled, p: Option<Input>)
    requires r == Settle(it, last) && Looked(it, last, r, p)
    ensures multiset(ItemsAt(p)) <= multiset(it.items)
    ensures it.items == [] || last.None? || it.items[0].key != last.value ==> ItemsAt(p) == it.items
  {
    if r.AtFault? {
      var k :| 0 <= k <= |it.items| && p.value.items == it.items[k..];
      SuffixFewer(it.items, k);
    } else {
      SweptOneConserves(it, last, p);
      BehindBound(it.items, last);
    }
  }

  lemma LookedOk(it: Input, last: Option<string>, r: Settled, p: Option<Input>)
    requires InputOk(it) && r == Settle(it, last) && Looked(it, last, r, p)
    ensures p.Some? ==> InputOk(p.value) && forall x :: x in p.value.items ==> x in it.items
    ensures p.None? ==> it.beyond == []
  {
    if r.Ready? { ReadyHead(it, last); }
    if r.AtFault? {
      var k :| 0 <= k <= |it.items| && p.value.items == it.items[k..];
      SuffixSorted(it.items, k);
    }
  }

  lemma Replaced(before: seq<Option<Input>>, i: nat, p: Option<Input>)
    requires i < |before| && multiset(ItemsAt(p)) <= multiset(ItemsAt(before[i])) && BeyondAt(p) == BeyondAt(before[i])
    ensures ItemsIn(before[i := p]) <= ItemsIn(before) && BeyondIn(before[i := p]) == BeyondIn(before)
    ensures ItemsAt(p) == ItemsAt(before[i]) ==> ItemsIn(before[i := p]) == ItemsIn(before)
  {
    ReplaceBeyond(before, i, p);
    forall x
      ensures ItemsIn(before[i := p])[x] <= ItemsIn(before)[x]
      ensures (ItemsAt(p) == ItemsAt(before[i]) ==> ItemsIn(before[i := p])[x] == ItemsIn(before)[x])
    {
      ReplaceItems(before, i, p, x);
    }
  }

  lemma LookedSound(before: seq<Option<Input>>, source: set<Entry>, i: nat, p: Option<Input>)
    requires Sound(before, source) && i < |before| && before[i].Some?
    requires p.Some? ==> InputOk(p.value) && forall x :: x in p.value.items ==> x in before[i].value.items
    ensures Sound(before[i := p], source)
  {
  }

  lemma LookedCopies(before: seq<Option<Input>>, last: Option<string>, i: nat, p: Option<Input>)
    requires i < |before| && before[i].Some?
    requires before[i].value.items == [] || last.None? || before[i].value.items[0].key != last.value ==>
      ItemsAt(p) == before[i].value.items
    ensures NoCopies(before, last) ==> NoCopies(before[i := p], last) && ItemsAt(p) == before[i].value.items
  {
    assert ItemsAt(before[i]) == before[i].value.items;
  }

  lemma LookedKept(was: seq<Option<Input>>, before: seq<Option<Input>>, source: set<Entry>, i: nat, it: Input,
                   last: Option<string>, r: Settled, p: Option<Input>)
    requires Sound(before, source) && i < |before| && before[i] == Some(it) && r == Settle(it, last)
    requires Kept(was, last, before) && Looked(it, last, r, p)
    ensures Sound(before[i := p], source) && Kept(was, last, before[i := p])
  {
    LookedOk(it, last, r, p);
    LookedSound(before, source, i, p);
    LookedFewer(it, last, r, p);
    LookedFaults(before, i, p);
    ReplacedKept(was, before, last, i, p);
  }

  lemma LookedFaults(before: seq<Option<Input>>, i: nat, p: Option<Input>)
    requires i < |before| && before[i].Some? && (p.Some? ==> p.value.fails == before[i].value.fails)
    ensures NoFaults(before) ==> NoFaults(before[i := p])
  {
  }

  lemma ReplacedKept(was: seq<Option<Input>>, before: seq<Option<Input>>, last: Option<string>, i: nat,
                     p: Option<Input>)
    requires i < |before| && before[i].Some? && Kept(was, last, before)
    requires (NoFaults(before) ==> NoFaults(before[i := p]))
    requires multiset(ItemsAt(p)) <= multiset(before[i].value.items)
    requires before[i].value.items == [] || last.None? || before[i].value.items[0].key != last.value ==>
      ItemsAt(p) == before[i].value.items
    requires BeyondAt(p) == before[i].value.beyond
    ensures Kept(was, last, before[i := p])
  {
    LookedCopies(before, last, i, p);
    Replaced(before, i, p);
    KeptOn(was, before, before[i := p], last);
  }

  lemma KeptOn(was: seq<Option<Input>>, before: seq<Option<Input>>, after: seq<Option<Input>>, last: Option<string>)
    requires Kept(was, last, before) && ItemsIn(after) <= ItemsIn(before) && BeyondIn(after) == BeyondIn(before)
    requires (NoFaults(before) ==> NoFaults(after))
    requires NoCopies(before, last) ==> NoCopies(after, last) && ItemsIn(after) == ItemsIn(before)
    ensures Kept(was, last, after)
  {
  }

  /** Among the first `i` inputs, `s` has the least head. */
  ghost predicate Best(its: seq<Input>, last: Option<string>, i: nat, s: Search, headMin: Option<string>) {
    match s
    case Stuck => false
    case Nowhere => headMin == None && NoneReady(its, last, i)
    case At(idx) => Chosen(its, last, idx, i) && headMin == Some(Settle(its[idx], last).head.key)
  }

  lemma BetterHead(its: seq<Input>, last: Option<string>, i: nat, s: Search, headMin: Option<string>)
    requires i < |its| && Best(its, last, i, s, headMin) && Settle(its[i], last).Ready?
    requires headMin.None? || Less(Settle(its[i], last).head.key, headMin.value)
    ensures Best(its, last, i + 1, At(i), Some(Settle(its[i], last).head.key))
  {
    if s.At? {
      var x := Settle(its[i], last).head.key;
      forall j | 0 <= j < i && Settle(its[j], last).Ready? ensures Less(x, Settle(its[j], last).head.key) {
        if headMin.value != Settle(its[j], last).head.key {
          LessTransitive(x, headMin.value, Settle(its[j], last).head.key);
        }
      }
    }
  }

  // ------------------------------------------------------------ one read

  /** What a yield means: `its` and `last` describe the inputs before, `pending` after. */
  ghost predicate Yields(its: seq<Input>, last: Option<string>, x: Entry, pending: seq<Option<Input>>) {
    && (last.Some? ==> Less(last.value, x.key))
    && ItemsIn(pending) + multiset{x} <= BagOf(its, last)
    && (NothingBehind(its, last) <==> ItemsIn(pending) + multiset{x} == BagOf(its, last))
    && (NothingBehind(its, last) ==> x in BagOf(its, last) && forall y :: y in BagOf(its, last) ==> Leq(x.key, y.key))
  }

  /** If the chosen input has nothing left, its head was lost. */
  lemma CutShort(its: seq<Input>, last: Option<string>, idx: nat)
    requires idx < |its| && Settle(its[idx], last).Ready? && Settle(its[idx], last).it.items == []
    ensures !NothingBehind(its, last)
  {
  }

  lemma AdvanceSound(pending: seq<Option<Input>>, source: set<Entry>, idx: nat)
    requires Sound(pending, source) && idx < |pending| && pending[idx].Some? && pending[idx].value.items != []
    ensures pending[idx].value.items[0] in source && Sound(Advanced(pending, idx), source)
  {
    SuffixSorted(pending[idx].value.items, 1);
  }

  lemma YieldLaw(its: seq<Input>, last: Option<string>, pending: seq<Option<Input>>, idx: nat)
    requires Swept(its, last, pending) && Chosen(its, last, idx, |its|)
    requires (forall j :: 0 <= j < |its| ==> InputOk(its[j]))
    requires pending[idx].Some? && pending[idx].value.items != []
    ensures Yields(its, last, pending[idx].value.items[0], Advanced(pending, idx))
  {
    var it := pending[idx].value;
    ReadyHead(its[idx], last);
    var head := Settle(its[idx], last).head;
    SweptConserves(its, last, pending);
    NothingLost(its, last);
    AdvanceItems(pending, idx, it);
    assert SweptOne(its[idx], last, pending[idx]);
    assert it.items[0] in it.items && Leq(head.key, it.items[0].key);
    if last.Some? && head.key != it.items[0].key { LessTransitive(last.value, head.key, it.items[0].key); }
    if NothingBehind(its, last) {
      assert it.items[0] == Settle(its[idx], last).head;
      forall y | y in BagOf(its, last) ensures Leq(it.items[0].key, y.key) { ChosenLeast(its, last, idx, pending, y); }
    }
  }

  // ------------------------------------------------------------ no repeated keys

  ghost predicate IsLeast(x: Entry, m: multiset<Entry>) {
    x in m && AllAbove(x, m)
  }

  ghost predicate AllAbove(x: Entry, m: multiset<Entry>) {
    forall y :: y in m ==> Leq(x.key, y.key)
  }

  /** Without repeated keys a read takes the least item, or there is none, or an input failed. */
  ghost predicate TidyRead(was: seq<Option<Input>>, r: Pull, pending: seq<Option<Input>>) {
    match r
    case Got(x) =>
      IsLeast(x, ItemsIn(was)) && AllAbove(x, BeyondIn(was)) && ItemsIn(pending) == ItemsIn(was) - multiset{x} &&
        BeyondIn(pending) == BeyondIn(was) && (NoFaults(was) ==> NoFaults(pending))
    case Done => ItemsIn(was) == multiset{} && BeyondIn(was) == multiset{}
    case Fail => !NoFaults(was)
  }

  /** No two items share a key, and all are beyond the one yielded last. */
  ghost predicate Clean(pending: seq<Option<Input>>, last: Option<string>) {
    OneEach(ItemsIn(pending)) && (last.Some? ==> forall x :: x in ItemsIn(pending) ==> Less(last.value, x.key))
  }

  ghost predicate OneEach(m: multiset<Entry>) {
    (forall x :: m[x] <= 1) && forall x, y :: x in m && y in m && x.key == y.key ==> x == y
  }

  lemma {:induction false} ItemsInAt(pending: seq<Option<Input>>, i: nat)
    requires i < |pending|
    ensures multiset(ItemsAt(pending[i])) <= ItemsIn(pending)
  {
    if i > 0 { ItemsInAt(pending[1..], i - 1); }
  }

  /** All inputs hold nothing but their items. */
  lemma {:induction false} OwnItems(pending: seq<Option<Input>>)
    requires forall i :: 0 <= i < |pending| && pending[i].Some? ==> InputOk(pending[i].value)
    ensures Sound(pending, set x | x in ItemsIn(pending))
  {
    var all := ItemsIn(pending);
    forall i | 0 <= i < |pending| && pending[i].Some? ensures forall x :: x in pending[i].value.items ==> x in all {
      ItemsInAt(pending, i);
      assert forall x :: x in pending[i].value.items ==> x in multiset(ItemsAt(pending[i]));
    }
  }

  lemma {:induction false} LiveAt(pending: seq<Option<Input>>, it: Input) returns (i: nat)
    requires it in Live(pending)
    ensures i < |pending| && pending[i] == Some(it)
  {
    if pending[0].Some? && pending[0].value == it {
      i := 0;
    } else {
      i := LiveAt(pending[1..], it);
      i := i + 1;
    }
  }

  lemma {:induction false} BagBound(pending: seq<Option<Input>>, last: Option<string>)
    ensures BagOf(Live(pending), last) <= ItemsIn(pending)
    ensures (forall it :: it in Live(pending) ==> Behind(it.items, last) == it.items) ==>
      BagOf(Live(pending), last) == ItemsIn(pending)
  {
    if pending != [] {
      BagBound(pending[1..], last);
      if pending[0].Some? {
        var it := pending[0].value;
        assert Live(pending)[0] == it && Live(pending)[1..] == Live(pending[1..]);
        BehindBound(it.items, last);
      } else {
        assert Live(pending) == Live(pending[1..]);
      }
    }
  }

  lemma BeyondLast(last: string, x: string)
    requires Less(last, x)
    ensures x != last && !Less(x, last)
  {
    LessIrreflexive(x);
    if Less(x, last) { LessTransitive(x, last, x); }
  }

  lemma CleanAhead(pending: seq<Option<Input>>, last: Option<string>, i: nat)
    requires Clean(pending, last) && i < |pending| && ItemsAt(pending[i]) != [] && last.Some?
    ensures ItemsAt(pending[i])[0].key != last.value && !Less(ItemsAt(pending[i])[0].key, last.value)
  {
    ItemsInAt(pending, i);
    assert ItemsAt(pending[i])[0] in multiset(ItemsAt(pending[i]));
    BeyondLast(last.value, ItemsAt(pending[i])[0].key);
  }

  lemma CleanNothing(pending: seq<Option<Input>>, last: Option<string>)
    requires Clean(pending, last)
    ensures NoCopies(pending, last) && NothingBehind(Live(pending), last)
    ensures BagOf(Live(pending), last) == ItemsIn(pending)
    ensures NoFaults(pending) ==> !SomeFault(Live(pending), last)
  {
    forall i | 0 <= i < |pending|
      ensures ItemsAt(pending[i]) == [] || last.None? || ItemsAt(pending[i])[0].key != last.value
    {
      if ItemsAt(pending[i]) != [] && last.Some? { CleanAhead(pending, last, i); }
    }
    forall it | it in Live(pending)
      ensures Behind(it.items, last) == it.items && (NoFaults(pending) ==> !Settle(it, last).AtFault?)
    {
      var i := LiveAt(pending, it);
      if it.items != [] && last.Some? { CleanAhead(pending, last, i); }
    }
    BagBound(pending, last);
  }

  lemma Smaller(a: multiset<Entry>, b: multiset<Entry>)
    requires a <= b
    ensures |a| <= |b|
  {
    assert b == a + (b - a) && |b| == |a| + |b - a|;
  }

  lemma FewerItems(was: seq<Option<Input>>, last: Option<string>, x: Entry, pending: seq<Option<Input>>)
    requires Yields(Live(was), last, x, pending)
    ensures |ItemsIn(pending)| < |ItemsIn(was)|
  {
    BagBound(was, last);
    Smaller(ItemsIn(pending) + multiset{x}, ItemsIn(was));
  }

  lemma OneEachMinus(m: multiset<Entry>, rest: multiset<Entry>, x: Entry)
    requires OneEach(m) && m == rest + multiset{x}
    ensures OneEach(rest) && forall y :: y in rest ==> y.key != x.key
  {
    assert m[x] <= 1;
    assert x !in rest && x in m;
    forall y ensures rest[y] <= m[y] <= 1 {}
    forall y | y in rest ensures y in m && y.key != x.key {}
  }

  lemma CleanNext(was: seq<Option<Input>>, last: Option<string>, x: Entry, pending: seq<Option<Input>>)
    requires Clean(was, last) && Yields(Live(was), last, x, pending)
    ensures ItemsIn(pending) == ItemsIn(was) - multiset{x} && Clean(pending, Some(x.key))
  {
    CleanNothing(was, last);
    assert ItemsIn(was) == ItemsIn(pending) + multiset{x};
    OneEachMinus(ItemsIn(was), ItemsIn(pending), x);
    forall y | y in ItemsIn(pending) ensures Less(x.key, y.key) { assert y in ItemsIn(was); }
  }

  /** What a read means, given the inputs before and after it. */
  ghost predicate ReadLaw(was: seq<Option<Input>>, source: set<Entry>, last: Option<string>, r: Pull,
                          pending: seq<Option<Input>>) {
    && MergeRead(Live(was), last, r)
    && (NothingBehind(Live(was), last) ==> EndsRightly(Live(was), last, r))
    && (r.Got? ==>
         Yields(Live(was), last, r.entry, pending) && r.entry in source && |ItemsIn(pending)| < |ItemsIn(was)|)
    && (Clean(was, last) ==> TidyRead(was, r, pending) && (r.Got? ==> Clean(pending, Some(r.entry.key))))
    && (Sole(was, last) ==> SoleRead(was, last, r, pending))
    && ReadFrom(was, last, r, pending)
  }

  /** Where the read comes from: all inputs are looked at, then the chosen one is read. */
  ghost predicate ReadFrom(was: seq<Option<Input>>, last: Option<string>, r: Pull, pending: seq<Option<Input>>) {
    exists s, mid :: ReadVia(was, last, s, mid, r, pending)
  }

  ghost predicate ReadVia(was: seq<Option<Input>>, last: Option<string>, s: Search, mid: seq<Option<Input>>, r: Pull,
                          pending: seq<Option<Input>>) {
    && Searched(Live(was), last, s, mid) && Kept(was, last, mid) && (s.At? ==> s.idx < |mid| && mid[s.idx].Some?)
    && r == PullAt(s, mid) && pending == Moved(s, mid)
  }

  lemma NextLaw(was: seq<Option<Input>>, source: set<Entry>, last: Option<string>, s: Search,
                pending: seq<Option<Input>>)
    requires Sound(was, source) && Sound(pending, source) && Searched(Live(was), last, s, pending)
    requires Kept(was, last, pending)
    ensures s.At? ==> s.idx < |pending| && pending[s.idx].Some?
    ensures Sound(Moved(s, pending), source) && ReadLaw(was, source, last, PullAt(s, pending), Moved(s, pending))
  {
    PointsAt(Live(was), last, s, pending);
    assert ReadVia(was, last, s, pending, PullAt(s, pending), Moved(s, pending));
    if PullAt(s, pending).Got? { TakeLaw(was, source, last, pending, s.idx); }
    if Clean(was, last) { TidyNext(was, source, last, s, pending); }
    if Sole(was, last) { SoleSwept(was, last, s, pending); }
  }

  lemma TidyNext(was: seq<Option<Input>>, source: set<Entry>, last: Option<string>, s: Search,
                 pending: seq<Option<Input>>)
    requires Clean(was, last) && Sound(was, source) && Searched(Live(was), last, s, pending)
    requires (s.At? ==> s.idx < |pending| && pending[s.idx].Some?)
    requires var r := PullAt(s, pending); r.Got? ==> Taken(was, source, last, r.entry, Advanced(pending, s.idx))
    ensures var r := PullAt(s, pending);
      TidyRead(was, r, Moved(s, pending)) && (r.Got? ==> Clean(Moved(s, pending), Some(r.entry.key)))
  {
    CleanSearch(was, source, last, s, pending);
    var r := PullAt(s, pending);
    if r.Got? { CleanNext(was, last, r.entry, Advanced(pending, s.idx)); }
  }

  /** The end is reached only when nothing is left, and a failure only reported if an input is at fault. */
  ghost predicate EndsRightly(its: seq<Input>, last: Option<string>, r: Pull) {
    (r.Done? ==> BagOf(its, last) == multiset{}) && (r.Fail? ==> SomeFault(its, last))
  }

  lemma PointsAt(its: seq<Input>, last: Option<string>, s: Search, pending: seq<Option<Input>>)
    requires Searched(its, last, s, pending)
    ensures s.At? ==> s.idx < |pending| && pending[s.idx].Some?
    ensures MergeRead(its, last, PullAt(s, pending))
    ensures (NothingBehind(its, last) ==> EndsRightly(its, last, PullAt(s, pending)))
  {
    if !s.Stuck? { SweptFaultless(its, last, pending); }
    if s.Nowhere? { NoneReadyEmpty(its, last, pending); }
    if s.At? {
      assert SweptOne(its[s.idx], last, pending[s.idx]);
      if pending[s.idx].value.items == [] { CutShort(its, last, s.idx); }
    }
  }

  /** Without repeated keys a search fails only at a failing input, and an input with the least head has it still. */
  ghost predicate TidySearch(was: seq<Option<Input>>, s: Search, pending: seq<Option<Input>>) {
    && (s.Stuck? ==> !NoFaults(was))
    && (s.Nowhere? ==> ItemsIn(was) == multiset{} && BeyondIn(was) == multiset{})
    && (s.At? ==>
         s.idx < |pending| && ItemsAt(pending[s.idx]) != [] && IsLeast(ItemsAt(pending[s.idx])[0], ItemsIn(was)) &&
           AllAbove(ItemsAt(pending[s.idx])[0], BeyondIn(was)))
  }

  lemma CleanSearch(was: seq<Option<Input>>, source: set<Entry>, last: Option<string>, s: Search,
                    pending: seq<Option<Input>>)
    requires Clean(was, last) && Sound(was, source) && Searched(Live(was), last, s, pending)
    ensures TidySearch(was, s, pending)
  {
    CleanNothing(was, last);
    LiveSound(was, source);
    LiveItems(was);
    if s.Nowhere? {
      NoneReadyEmpty(Live(was), last, pending);
      NoneReadyNoBeyond(Live(was), last, pending);
    }
    if s.At? { CleanHead(was, source, last, pending, s.idx); }
  }

  lemma CleanHead(was: seq<Option<Input>>, source: set<Entry>, last: Option<string>, pending: seq<Option<Input>>,
                  idx: nat)
    requires Clean(was, last) && Sound(was, source) && Swept(Live(was), last, pending)
    requires Chosen(Live(was), last, idx, |Live(was)|)
    ensures ItemsAt(pending[idx]) != [] && IsLeast(ItemsAt(pending[idx])[0], ItemsIn(was))
    ensures AllAbove(ItemsAt(pending[idx])[0], BeyondIn(was))
  {
    CleanNothing(was, last);
    var its := Live(was);
    LiveSound(was, source);
    LiveItems(was);
    assert SweptOne(its[idx], last, pending[idx]);
    assert Behind(its[idx].items, last) == its[idx].items;
    var x := its[idx].items[0];
    var i := LiveAt(was, its[idx]);
    ItemsInAt(was, i);
    assert x in multiset(its[idx].items);
    forall y | y in ItemsIn(was) ensures Leq(x.key, y.key) { ChosenLeast(its, last, idx, pending, y); }
    forall y | y in BeyondIn(was) ensures Leq(x.key, y.key) { ChosenBelowBeyond(its, last, idx, pending, y); }
  }

  /** Everything a yield keeps. */
  ghost predicate Taken(was: seq<Option<Input>>, source: set<Entry>, last: Option<string>, x: Entry,
                        pending: seq<Option<Input>>) {
    && Yields(Live(was), last, x, pending) && |ItemsIn(pending)| < |ItemsIn(was)| && Sound(pending, source) &&
         x in source
    && BeyondIn(pending) == BeyondIn(was) && (NoFaults(was) ==> NoFaults(pending))
  }

  lemma TakeLaw(was: seq<Option<Input>>, source: set<Entry>, last: Option<string>, pending: seq<Option<Input>>,
                idx: nat)
    requires Sound(pending, source) && Sound(was, source) && Swept(Live(was), last, pending)
    requires Chosen(Live(was), last, idx, |Live(was)|)
    requires pending[idx].Some? && pending[idx].value.items != [] && Kept(was, last, pending)
    ensures Taken(was, source, last, pending[idx].value.items[0], Advanced(pending, idx))
  {
    var x, p' := pending[idx].value.items[0], Advanced(pending, idx);
    assert Yields(Live(was), last, x, p') by {
      LiveSound(was, source);
      YieldLaw(Live(was), last, pending, idx);
    }
    AdvanceSound(pending, source, idx);
    AdvanceItems(pending, idx, pending[idx].value);
    FewerItems(was, last, x, p');
  }

  /** No key is repeated, and a remembered head is the least item. */
  ghost predicate TidyState(pending: seq<Option<Input>>, last: Option<string>, head: Option<Entry>) {
    Clean(pending, last) && (head.Some? ==> IsLeast(head.value, ItemsIn(pending)))
  }

  /** What a preview means, given the inputs and the remembered head before and after it. */
  ghost predicate HeadLaw(was: seq<Option<Input>>, head: Option<Entry>, last: Option<string>, r: Pull,
                          pending: seq<Option<Input>>, head': Option<Entry>) {
    && |ItemsIn(pending)| <= |ItemsIn(was)|
    && (TidyState(was, last, head) ==> TidyState(pending, last, head') && SameItems(was, pending) && Previews(was, r))
    && (pending == was || (Sole(was, last) ==> Sole(pending, last) && Joined(pending) == Reread(Joined(was), last)))
    && (pending == was || exists s :: Searched(Live(was), last, s, pending) && Kept(was, last, pending))
  }

  lemma HeadCached(was: seq<Option<Input>>, head: Option<Entry>, last: Option<string>)
    ensures head.Some? ==> HeadLaw(was, head, last, Got(head.value), was, head)
  {
  }

  ghost predicate SameItems(was: seq<Option<Input>>, pending: seq<Option<Input>>) {
    ItemsIn(pending) == ItemsIn(was) && BeyondIn(pending) == BeyondIn(was) && (NoFaults(was) ==> NoFaults(pending))
  }

  /** A preview shows the least item, or there is none, or an input failed. */
  ghost predicate Previews(was: seq<Option<Input>>, r: Pull) {
    match r
    case Got(x) => IsLeast(x, ItemsIn(was))
    case Done => ItemsIn(was) == multiset{}
    case Fail => !NoFaults(was)
  }

  lemma PreviewLaw(was: seq<Option<Input>>, source: set<Entry>, head: Option<Entry>, last: Option<string>, s: Search,
                   pending: seq<Option<Input>>)
    requires head.None? && Sound(was, source) && Searched(Live(was), last, s, pending) && Kept(was, last, pending)
    ensures s.At? ==> s.idx < |pending| && pending[s.idx].Some?
    ensures HeadLaw(was, head, last, PullAt(s, pending), pending, Remembered(PullAt(s, pending)))
  {
    PointsAt(Live(was), last, s, pending);
    Smaller(ItemsIn(pending), ItemsIn(was));
    if Clean(was, last) {
      CleanNothing(was, last);
      CleanSearch(was, source, last, s, pending);
    }
    if Sole(was, last) { SoleSwept(was, last, s, pending); }
  }

  // ------------------------------------------------------------ a single input

  /** The items of the first input that has any. */
  function Joined(pending: seq<Option<Input>>): seq<Entry> {
    if pending == [] then [] else if ItemsAt(pending[0]) != [] then ItemsAt(pending[0]) else Joined(pending[1..])
  }

  predicate NoItems(pending: seq<Option<Input>>) {
    forall i :: 0 <= i < |pending| ==> ItemsAt(pending[i]) == []
  }

  /** No other input has items. */
  predicate Alone(pending: seq<Option<Input>>) {
    pending != [] ==> if ItemsAt(pending[0]) != [] then NoItems(pending[1..]) else Alone(pending[1..])
  }

  /** At most one input has items, none fails, and no item is before the key yielded last. */
  ghost predicate Sole(pending: seq<Option<Input>>, last: Option<string>) {
    && NoFaults(pending) && Alone(pending) && Sorted(Joined(pending))
    && (Joined(pending) != [] && last.Some? ==> !Less(Joined(pending)[0].key, last.value))
  }

  /** What looking at a single input leaves of it. */
  function Reread(items: seq<Entry>, last: Option<string>): seq<Entry> {
    var rest := Behind(items, last);
    if rest == [] || rest == items then rest else rest[1..]
  }

  /** A read from a single input: what looking at it leaves decides. */
  ghost predicate SoleRead(was: seq<Option<Input>>, last: Option<string>, r: Pull, pending: seq<Option<Input>>) {
    var rest := Reread(Joined(was), last);
    if rest == [] then r == Done
    else r == Got(rest[0]) && Joined(pending) == rest[1..] && Sole(pending, Some(rest[0].key))
  }

  ghost predicate SoleSearch(was: seq<Option<Input>>, last: Option<string>, s: Search, pending: seq<Option<Input>>) {
    var rest := Reread(Joined(was), last);
    && !s.Stuck? && Sole(pending, last) && Joined(pending) == rest
    && (s.Nowhere? ==> rest == [])
    && (s.At? ==>
         s.idx < |pending| && pending[s.idx].Some? && !pending[s.idx].value.fails && ItemsAt(pending[s.idx]) == rest)
    && (rest != [] && s.At? ==>
         Joined(Advanced(pending, s.idx)) == rest[1..] && Sole(Advanced(pending, s.idx), Some(rest[0].key)))
  }

  lemma {:induction false} LiveAlone(pending: seq<Option<Input>>)
    ensures Joined(Wrap(Live(pending))) == Joined(pending) && (Alone(pending) ==> Alone(Wrap(Live(pending))))
    ensures (NoItems(pending) ==> NoItems(Wrap(Live(pending))))
  {
    if pending != [] {
      LiveAlone(pending[1..]);
      LiveSplit(pending);
      var rest := Wrap(Live(pending[1..]));
      if pending[0].Some? { assert ([pending[0]] + rest)[1..] == rest && ([pending[0]] + rest)[0] == pending[0]; }
      if NoItems(pending) { assert NoItems(pending[1..]); }
    }
  }

  lemma SweptEmpty(its: seq<Input>, last: Option<string>, pending: seq<Option<Input>>)
    requires Swept(its, last, pending) && NoItems(Wrap(its))
    ensures NoItems(pending)
  {
    forall j | 0 <= j < |pending| ensures ItemsAt(pending[j]) == [] {
      assert SweptOne(its[j], last, pending[j]);
      assert ItemsAt(Wrap(its)[j]) == [];
    }
  }

  lemma {:induction false} NothingJoined(pending: seq<Option<Input>>)
    requires NoItems(pending)
    ensures Joined(pending) == [] && Alone(pending)
  {
    if pending != [] {
      assert ItemsAt(pending[0]) == [];
      NothingJoined(pending[1..]);
    }
  }

  /** Looking at inputs of which at most one has items. */
  lemma {:induction false} SweptAlone(its: seq<Input>, last: Option<string>, pending: seq<Option<Input>>)
    requires Swept(its, last, pending) && Alone(Wrap(its))
    ensures Alone(pending) && Joined(pending) == Reread(Joined(Wrap(its)), last)
  {
    if its != [] {
      assert Wrap(its)[1..] == Wrap(its[1..]) && SweptOne(its[0], last, pending[0]) &&
        Swept(its[1..], last, pending[1..]);
      if its[0].items == [] {
        SweptAlone(its[1..], last, pending[1..]);
      } else {
        SweptEmpty(its[1..], last, pending[1..]);
        NothingJoined(pending[1..]);
      }
    }
  }

  /** Where there are items, they are those of the one input. */
  lemma {:induction false} AloneAt(pending: seq<Option<Input>>, i: nat)
    requires Alone(pending) && i < |pending|
    ensures ItemsAt(pending[i]) == [] || ItemsAt(pending[i]) == Joined(pending)
    ensures i > 0 && ItemsAt(pending[0]) != [] ==> ItemsAt(pending[i]) == []
  {
    if i > 0 {
      if ItemsAt(pending[0]) == [] {
        AloneAt(pending[1..], i - 1);
      } else {
        assert ItemsAt(pending[1..][i - 1]) == [];
      }
    }
  }

  lemma {:induction false} AdvancedAlone(pending: seq<Option<Input>>, idx: nat)
    requires Alone(pending) && idx < |pending| && pending[idx].Some? && pending[idx].value.items != []
    ensures Joined(pending) != [] && Alone(Advanced(pending, idx))
    ensures Joined(Advanced(pending, idx)) == Joined(pending)[1..]
  {
    AloneAt(pending, idx);
    if idx == 0 {
      assert Advanced(pending, 0)[1..] == pending[1..];
      NothingJoined(pending[1..]);
    } else {
      AdvancedAlone(pending[1..], idx - 1);
      assert Advanced(pending, idx)[1..] == Advanced(pending[1..], idx - 1);
    }
  }

  /** The items left of a single input are beyond the key yielded last. */
  lemma RereadAhead(items: seq<Entry>, last: Option<string>)
    requires Sorted(items) && (items != [] && last.Some? ==> !Less(items[0].key, last.value))
    ensures Sorted(Reread(items, last))
    ensures (Reread(items, last) != [] && last.Some? ==> Less(last.value, Reread(items, last)[0].key))
  {
    var rest := Behind(items, last);
    BehindSorted(items, last);
    if rest != [] {
      SuffixSorted(rest, 1);
      if last.Some? && |rest| > 1 { LessLeq(last.value, rest[0].key, rest[1].key); }
    }
  }

  lemma LessLeq(a: string, b: string, c: string)
    requires Less(a, b) && Leq(b, c)
    ensures Less(a, c)
  {
    if b != c { LessTransitive(a, b, c); }
  }

  lemma SoleSwept(was: seq<Option<Input>>, last: Option<string>, s: Search, pending: seq<Option<Input>>)
    requires Sole(was, last) && Searched(Live(was), last, s, pending)
    ensures SoleSearch(was, last, s, pending)
  {
    SoleFaultless(was, last);
    LiveAlone(was);
    SweptAlone(Live(was), last, pending);
    PointsToSole(Live(was), last, s, pending);
    SoleKept(was, last, pending);
    if s.At? && Joined(pending) != [] { SoleAdvanced(pending, last, s.idx); }
  }

  lemma SoleKept(was: seq<Option<Input>>, last: Option<string>, pending: seq<Option<Input>>)
    requires Sole(was, last) && Swept(Live(was), last, pending) && Alone(pending)
    requires Joined(pending) == Reread(Joined(was), last)
    ensures Sole(pending, last)
  {
    RereadAhead(Joined(was), last);
    if Joined(pending) != [] && last.Some? { BeyondLast(last.value, Joined(pending)[0].key); }
    SweptNoFaults(was, last, pending);
  }

  lemma SweptNoFaults(was: seq<Option<Input>>, last: Option<string>, pending: seq<Option<Input>>)
    requires NoFaults(was) && Swept(Live(was), last, pending)
    ensures NoFaults(pending)
  {
    var its := Live(was);
    forall j | 0 <= j < |pending| ensures pending[j].Some? ==> !pending[j].value.fails {
      assert SweptOne(its[j], last, pending[j]) && its[j] in its;
      var i := LiveAt(was, its[j]);
    }
  }

  lemma SoleFaultless(was: seq<Option<Input>>, last: Option<string>)
    requires Sole(was, last)
    ensures !SomeFault(Live(was), last)
  {
    forall it | it in Live(was) ensures !Settle(it, last).AtFault? {
      var i := LiveAt(was, it);
      AloneAt(was, i);
    }
  }

  /** The search points to the one input, if anything is left of it. */
  lemma PointsToSole(its: seq<Input>, last: Option<string>, s: Search, pending: seq<Option<Input>>)
    requires Searched(its, last, s, pending) && !s.Stuck? && Alone(Wrap(its)) && Alone(pending)
    requires Joined(pending) == Reread(Joined(Wrap(its)), last)
    ensures s.Nowhere? ==> Joined(pending) == []
    ensures s.At? ==> s.idx < |pending| && pending[s.idx].Some? && ItemsAt(pending[s.idx]) == Joined(pending)
  {
    if s.Nowhere? {
      forall i | 0 <= i < |pending| ensures ItemsAt(pending[i]) == [] { assert SweptOne(its[i], last, pending[i]); }
      NothingJoined(pending);
    }
    if s.At? {
      assert SweptOne(its[s.idx], last, pending[s.idx]);
      assert ItemsAt(Wrap(its)[s.idx]) != [];
      AloneAt(Wrap(its), s.idx);
    }
  }

  lemma SoleAdvanced(pending: seq<Option<Input>>, last: Option<string>, idx: nat)
    requires Sole(pending, last) && idx < |pending| && pending[idx].Some?
    requires pending[idx].value.items == Joined(pending) != []
    ensures Joined(Advanced(pending, idx)) == Joined(pending)[1..]
    ensures Sole(Advanced(pending, idx), Some(Joined(pending)[0].key))
  {
    var items := Joined(pending);
    AdvancedAlone(pending, idx);
    SuffixSorted(items, 1);
    if |items| > 1 { NotBefore(items[0].key, items[1].key); }
  }

  lemma NotBefore(a: string, b: string)
    requires Leq(a, b)
    ensures !Less(b, a)
  {
    LessIrreflexive(a);
    if Less(b, a) && a != b { LessTransitive(a, b, a); }
  }

  /**
   * Repeated keys break completeness: after `a`, the second input discards its `a`, consumes `b` as its
   * head, is chosen for it, and has nothing left to yield, so the run ends with `b` and `c` unread.
   */
  lemma EndsEarly()
    ensures var a, b, c := Entry("a", Met), Entry("b", Met), Entry("c", Met);
      var its, last := [Input([c], false, []), Input([a, b], false, [])], Some("a");
      && !NothingBehind(its, last) && Chosen(its, last, 1, 2) && Settle(its[1], last).it.items == []
      && BagOf(its, last) == multiset{b, c}
  {
    var a, b, c := Entry("a", Met), Entry("b", Met), Entry("c", Met);
    var its, last := [Input([c], false, []), Input([a, b], false, [])], Some("a");
    assert its[1].items[1..] == [b] && [b][1..] == [];
    assert Behind([b], last) == [b] && Behind(its[1].items, last) == [b] && Behind(its[0].items, last) == [c];
    assert Settle(its[0], last).head == c && Settle(its[1], last).head == b;
    assert Less("b", "c") && !Less("c", "a");
    assert its[1..] == [its[1]] && its[1..][1..] == [];
    assert BagOf(its[1..], last) == multiset([b]) + BagOf([], last);
  }
}
