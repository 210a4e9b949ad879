/** The set-at-a-time merges: union, intersection and difference of batched ascending streams. */
module Merges {
  import opened Options
  import opened Order
  import opened TupleText
  import opened Multisets
  import opened IteratorStreams
  import opened StreamLemmas

  const ITERATOR_MIN_BATCH_THRESHOLD := 100

  /** `emitted` is a first part of the ascending enumeration of `target`, with `rest` still to come. */
  ghost predicate Progress(emitted: seq<string>, target: multiset<string>, rest: multiset<string>) {
    && Ascending(emitted)
    && multiset(emitted) + rest == target
    && forall x, y :: x in emitted && y in rest ==> Leq(x, y)
  }

  ghost predicate ValidObjects(m: multiset<string>) {
    forall x :: x in m ==> ValidObject(x)
  }

  lemma ProgressStep(emitted: seq<string>, target: multiset<string>, rest: multiset<string>, m: string,
                     rest': multiset<string>)
    requires Progress(emitted, target, rest)
    requires rest == multiset{m} + rest'
    requires forall y :: y in rest' ==> Leq(m, y)
    ensures Progress(emitted + [m], target, rest')
  {
  }

  lemma ProgressEnumerates(emitted: seq<string>, target: multiset<string>, rest: multiset<string>, faulty: bool)
    requires Progress(emitted, target, rest) && ValidObjects(target)
    requires !faulty ==> rest == multiset{}
    ensures Enumerates(emitted, faulty, target)
  {
  }

  lemma JoinValid(vs: seq<View>, us: seq<multiset<string>>)
    requires Tracks(vs, us)
    ensures ValidObjects(JoinAll(us))
  {
    forall x | x in JoinAll(us) ensures ValidObject(x) {
      var i := JoinWitness(us, x);
      assert x in us[i];
    }
  }

  /** What a merge has sent so far, and the batch it is filling. */
  datatype Outbox = Outbox(sent: seq<Msg>, batch: seq<string>) {

    function Emitted(): seq<string> {
      Items(sent) + batch
    }

    /** Sends the batch once it exceeds the threshold. */
    function SendIfFull(): (r: Outbox)
      ensures r.Emitted() == Emitted()
      ensures Faulty(r.sent) <==> Faulty(sent)
    {
      if |batch| > ITERATOR_MIN_BATCH_THRESHOLD then
        ItemsAppend(sent, Batch(Iter(batch, false)));
        Outbox(sent + [Batch(Iter(batch, false))], [])
      else this
    }

    function Add(item: string): (r: Outbox)
      ensures r.Emitted() == Emitted() + (if item != "" then [item] else [])
      ensures Faulty(r.sent) <==> Faulty(sent)
    {
      if item != "" then
        assert Items(sent) + (batch + [item]) == Emitted() + [item];
        Outbox(sent, batch + [item]).SendIfFull()
      else SendIfFull()
    }

    function AddAll(items: seq<string>): (r: Outbox)
      ensures r.Emitted() == Emitted() + items
      ensures Faulty(r.sent) <==> Faulty(sent)
    {
      assert Items(sent) + (batch + items) == Emitted() + items;
      Outbox(sent, batch + items).SendIfFull()
    }

    /** The deferred flush: an error message first if the merge failed, then what is left of the batch. */
    function Close(failed: bool): (out: seq<Msg>)
      ensures Items(out) == Emitted()
      ensures Faulty(out) <==> Faulty(sent) || failed
    {
      ItemsAppend(sent, Failed);
      var s := if failed then sent + [Failed] else sent;
      ItemsAppend(s, Batch(Iter(batch, false)));
      if |batch| > 0 then s + [Batch(Iter(batch, false))] else s
    }
  }

  /** Outcome of looking at every head: all present, one buffer at its end, or one failing. */
  datatype Scan = AllHeads | Missing(at: nat) | Broken(at: nat)

  ghost function HeadOf(v: View): string
    requires v.HasHead()
  {
    v.buffer.value.items[0]
  }

  /** A scan that found stream `k` at the end of its buffer. */
  lemma LostHead(vs: seq<View>, us: seq<multiset<string>>, k: nat)
    requires Tracks(vs, us) && k < |vs| && vs[k].buffer.Some? && vs[k].Peek().Done?
    ensures Tracks(vs[k := vs[k].DropEmpty()], us)
  {
  }

  lemma LostHeadSizes(vs: seq<View>, k: nat)
    requires k < |vs| && vs[k].buffer.Some? && vs[k].Peek().Done?
    ensures SumSize(vs[k := vs[k].DropEmpty()]) < SumSize(vs)
    ensures SomeCracked(vs[k := vs[k].DropEmpty()]) ==> SomeCracked(vs)
  {
    var v, w := vs[k], vs[k].DropEmpty();
    assert v.buffer.value == Iter([], false);
    assert w.Remaining() == v.Remaining();
    SumSizeUpdate(vs, k, w);
    CrackedUpdate(vs, k, w);
  }

  lemma CrackedUpdate(vs: seq<View>, k: nat, w: View)
    requires k < |vs| && (w.Cracked() ==> vs[k].Cracked())
    ensures SomeCracked(vs[k := w]) ==> SomeCracked(vs)
  {
  }

  /** The heads of all streams. */
  ghost predicate Heads(vs: seq<View>, heads: seq<string>) {
    && |heads| == |vs|
    && forall i :: 0 <= i < |vs| ==> vs[i].HasHead() && HeadOf(vs[i]) == heads[i]
  }

  /** Looks at one head. */
  method HeadAt(ss: Streams, k: nat) returns (r: Read)
    requires ss.Valid() && k < |ss.streams|
    modifies ss.all
    ensures ss.Valid() && ss.streams == old(ss.streams)
    ensures r == old(ss.Views())[k].Peek()
    ensures ss.Views() == old(ss.Views())[k := old(ss.Views())[k].DropEmpty()]
  {
    ghost var vs := ss.Views();
    var streams := ss.streams;
    r := streams[k].Head();
    assert forall i :: 0 <= i < |streams| && i != k ==> streams[i].State() == vs[i];
  }

  /** `heads` are the heads of the first views. */
  ghost predicate HeadsSoFar(vs: seq<View>, heads: seq<string>) {
    |heads| <= |vs| && forall i :: 0 <= i < |heads| ==> vs[i].HasHead() && HeadOf(vs[i]) == heads[i]
  }

  lemma HeadsSnoc(vs: seq<View>, heads: seq<string>, x: string)
    requires HeadsSoFar(vs, heads) && |heads| < |vs| && vs[|heads|].HasHead() && HeadOf(vs[|heads|]) == x
    ensures HeadsSoFar(vs, heads + [x])
  {
  }

  /** Reads the head of every stream, stopping at the first stream that has none. */
  method ReadHeads(ss: Streams) returns (r: Scan, heads: seq<string>)
    requires ss.Valid()
    modifies ss.all
    ensures ss.Valid() && ss.streams == old(ss.streams)
    ensures r.Broken? ==> r.at < |ss.streams| && old(ss.Views())[r.at].Peek().Fail?
    ensures r.Missing? ==> r.at < |ss.streams| && old(ss.Views())[r.at].Peek().Done?
    ensures r.Missing? ==> ss.Views() == old(ss.Views())[r.at := old(ss.Views())[r.at].DropEmpty()]
    ensures r.AllHeads? ==> ss.Views() == old(ss.Views()) && Heads(ss.Views(), heads)
  {
    heads := [];
    ghost var vs := ss.Views();
    for idx := 0 to |ss.streams|
      invariant ss.Valid() && ss.streams == old(ss.streams) && ss.Views() == vs
      invariant |heads| == idx && HeadsSoFar(vs, heads)
    {
      var v := HeadAt(ss, idx);
      if v.Done? { return Missing(idx), heads; }
      if v.Fail? { return Broken(idx), heads; }
      assert vs[idx := vs[idx]] == vs;
      HeadsSnoc(vs, heads, v.obj);
      heads := heads + [v.obj];
    }
    r := AllHeads;
  }

  /** `equal` lists, in order, the positions below `n` at which `heads` has the value `best`. */
  ghost predicate Positions(heads: seq<string>, n: nat, best: string, equal: seq<nat>)
    requires n <= |heads|
  {
    && (forall k :: 0 <= k < |equal| ==> equal[k] < n && heads[equal[k]] == best)
    && (forall k, l :: 0 <= k < l < |equal| ==> equal[k] < equal[l])
    && (forall i :: 0 <= i < n && heads[i] == best ==> i in equal)
  }

  lemma {:induction false} PositionsGrow(heads: seq<string>, best: string, equal: seq<nat>, j: nat)
    requires Positions(heads, |heads|, best, equal) && j < |equal|
    ensures j <= equal[j]
  {
    if j > 0 { PositionsGrow(heads, best, equal, j - 1); }
  }

  /** If there are as many positions as heads, every head is `best`. */
  lemma {:induction false} AllPositions(heads: seq<string>, best: string, equal: seq<nat>, j: nat)
    requires Positions(heads, |heads|, best, equal) && |equal| == |heads| && j < |heads|
    ensures equal[j] == j && heads[j] == best
    decreases |heads| - j
  {
    PositionsGrow(heads, best, equal, j);
    if j + 1 < |heads| {
      AllPositions(heads, best, equal, j + 1);
      assert equal[j] < equal[j + 1];
    }
  }

  /** If every head is `best`, there are as many positions as heads. */
  lemma {:induction false} FullPositions(heads: seq<string>, best: string, equal: seq<nat>, j: nat)
    requires Positions(heads, |heads|, best, equal) && j < |heads|
    requires forall i :: 0 <= i < |heads| ==> heads[i] == best
    ensures j < |equal| && equal[j] == j
  {
    if j > 0 { FullPositions(heads, best, equal, j - 1); }
    assert heads[j] == best;
    var k :| 0 <= k < |equal| && equal[k] == j;
    PositionsGrow(heads, best, equal, k);
  }

  lemma PositionsCount(heads: seq<string>, best: string, equal: seq<nat>)
    requires Positions(heads, |heads|, best, equal) && heads != []
    ensures |equal| == |heads| <==> forall i :: 0 <= i < |heads| ==> heads[i] == best
  {
    if |equal| == |heads| {
      forall j | 0 <= j < |heads| ensures heads[j] == best { AllPositions(heads, best, equal, j); }
    } else if forall i :: 0 <= i < |heads| ==> heads[i] == best {
      FullPositions(heads, best, equal, |heads| - 1);
      PositionsGrow(heads, best, equal, |equal| - 1);
    }
  }

  /** The smallest head and the streams that hold it. */
  method LeastHead(heads: seq<string>) returns (min: string, equal: seq<nat>)
    requires heads != []
    ensures forall i :: 0 <= i < |heads| ==> Leq(min, heads[i])
    ensures Positions(heads, |heads|, min, equal) && equal != []
  {
    min, equal := "", [];
    for idx := 0 to |heads|
      invariant idx > 0 ==> equal != []
      invariant forall i :: 0 <= i < idx ==> Leq(min, heads[i])
      invariant Positions(heads, idx, min, equal)
    {
      var v := heads[idx];
      if idx == 0 { min := v; }
      LessTotal(min, v);
      if min == v {
        equal := equal + [idx];
      } else if Less(v, min) {
        forall i | 0 <= i < idx ensures Leq(v, heads[i]) && v != heads[i] {
          LeqTransitive(v, min, heads[i]);
          if v == heads[i] { LeqAntisymmetric(v, min); }
        }
        min, equal := v, [idx];
      }
    }
  }

  /** The largest head and the streams that hold it. */
  method GreatestHead(heads: seq<string>) returns (max: string, equal: seq<nat>)
    requires heads != []
    ensures forall i :: 0 <= i < |heads| ==> Leq(heads[i], max)
    ensures Positions(heads, |heads|, max, equal) && equal != []
  {
    max, equal := "", [];
    for idx := 0 to |heads|
      invariant idx > 0 ==> equal != []
      invariant forall i :: 0 <= i < idx ==> Leq(heads[i], max)
      invariant Positions(heads, idx, max, equal)
    {
      var v := heads[idx];
      if idx == 0 { max := v; }
      LessTotal(max, v);
      if max == v {
        equal := equal + [idx];
      } else if Less(max, v) {
        forall i | 0 <= i < idx ensures Leq(heads[i], v) && v != heads[i] {
          LeqTransitive(heads[i], max, v);
          if v == heads[i] { LeqAntisymmetric(v, max); }
        }
        max, equal := v, [idx];
      }
    }
  }

  /** Advances the listed streams, which all have the same head, and returns that head. */
  method NextItemInSliceStreams(ss: Streams, toProcess: seq<nat>, ghost heads: seq<string>, ghost best: string)
    returns (item: string)
    requires ss.Valid() && Heads(ss.Views(), heads)
    requires toProcess != [] && Positions(heads, |heads|, best, toProcess)
    modifies ss.all
    ensures ss.Valid() && ss.streams == old(ss.streams)
    ensures item == best
    ensures AdvancedAll(old(ss.Views()), ss.Views(), heads, best)
  {
    item := "";
    var streams := ss.streams;
    ghost var vs := ss.Views();
    ghost var done: set<nat> := {};
    var k := 0;
    while k < |toProcess|
      invariant 0 <= k <= |toProcess| && ss.streams == streams
      invariant k > 0 ==> item == best
      invariant forall j :: 0 <= j < |toProcess| ==> (toProcess[j] in done <==> j < k)
      invariant forall i :: i in done ==> i < |heads| && heads[i] == best
      invariant forall i :: 0 <= i < |streams| ==>
        streams[i].State() == if i in done then vs[i].Advance() else vs[i]
    {
      var i := toProcess[k];
      var r := streams[i].Next();
      item := r.obj;
      done := done + {i};
      k := k + 1;
    }
  }

  /** Every stream with head `best` has moved on by one; the others are as they were. */
  ghost predicate AdvancedAll(vs: seq<View>, ws: seq<View>, heads: seq<string>, best: string) {
    && |heads| == |vs| == |ws|
    && forall i :: 0 <= i < |vs| ==> ws[i] == if heads[i] == best then vs[i].Advance() else vs[i]
  }

  // ---------------------------------------------------------------- union

  /** One `m` taken from each part. */
  ghost function Taken(us: seq<multiset<string>>, m: string): (r: seq<multiset<string>>)
    ensures |r| == |us|
    ensures forall i :: 0 <= i < |us| ==> r[i] == us[i] - multiset{m}
  {
    seq(|us|, i requires 0 <= i < |us| => us[i] - multiset{m})
  }

  /** The least head is only in the streams that show it. */
  lemma HeadAbsent(v: View, u: multiset<string>, min: string)
    requires TracksOne(v, u) && v.HasHead() && Leq(min, HeadOf(v)) && HeadOf(v) != min
    ensures min !in u
  {
    if min in u {
      HeadLeast(v, u, min);
      LeqAntisymmetric(min, HeadOf(v));
    }
  }

  /** A stream moves on if its head is `b`, and otherwise has no `b`: either way one `b` fewer, if any. */
  ghost function TakeView(v: View, b: string): View
    requires v.HasHead()
  {
    if HeadOf(v) == b then v.Advance() else v
  }

  lemma TakeTracks(v: View, u: multiset<string>, b: string)
    requires TracksOne(v, u) && v.HasHead() && (HeadOf(v) != b ==> b !in u)
    ensures TracksOne(TakeView(v, b), u - multiset{b})
    ensures TakeView(v, b).Cracked() <==> v.Cracked()
    ensures TakeView(v, b).Size() <= v.Size()
    ensures HeadOf(v) == b ==> TakeView(v, b).Size() < v.Size()
  {
    if b == HeadOf(v) { AdvanceTracks(v, u); } else { assert u - multiset{b} == u; }
  }

  lemma AdvancedTracks(vs: seq<View>, ws: seq<View>, us: seq<multiset<string>>, heads: seq<string>, best: string)
    requires Tracks(vs, us) && Heads(vs, heads) && AdvancedAll(vs, ws, heads, best)
    requires forall i :: 0 <= i < |us| && heads[i] != best ==> best !in us[i]
    requires best in heads
    ensures Tracks(ws, Taken(us, best))
    ensures SumSize(ws) < SumSize(vs)
    ensures SomeCracked(ws) ==> SomeCracked(vs)
  {
    var ts := Taken(us, best);
    forall i | 0 <= i < |vs|
      ensures TracksOne(ws[i], ts[i])
      ensures ws[i].Size() <= vs[i].Size() && (heads[i] == best ==> ws[i].Size() < vs[i].Size())
      ensures ws[i].Cracked() ==> vs[i].Cracked()
    {
      TakeTracks(vs[i], us[i], best);
      assert ws[i] == TakeView(vs[i], best) && ts[i] == us[i] - multiset{best};
    }
    SumSizeMonotone(vs, ws);
    CrackedMonotone(vs, ws);
  }

  lemma CrackedMonotone(vs: seq<View>, ws: seq<View>)
    requires |vs| == |ws| && forall i :: 0 <= i < |vs| ==> ws[i].Cracked() ==> vs[i].Cracked()
    ensures SomeCracked(ws) ==> SomeCracked(vs)
  {
  }

  /** Taking the least head from every stream that shows it takes it once from the union. */
  lemma UnionStep(vs: seq<View>, ws: seq<View>, us: seq<multiset<string>>, heads: seq<string>, min: string)
    requires Tracks(vs, us) && Heads(vs, heads) && AdvancedAll(vs, ws, heads, min)
    requires forall i :: 0 <= i < |heads| ==> Leq(min, heads[i])
    requires min in heads
    ensures Tracks(ws, Taken(us, min))
    ensures SumSize(ws) < SumSize(vs)
    ensures SomeCracked(ws) ==> SomeCracked(vs)
    ensures JoinAll(us) == multiset{min} + JoinAll(Taken(us, min))
    ensures forall y :: y in JoinAll(Taken(us, min)) ==> Leq(min, y)
  {
    forall i | 0 <= i < |us| && heads[i] != min ensures min !in us[i] { HeadAbsent(vs[i], us[i], min); }
    AdvancedTracks(vs, ws, us, heads, min);
    var k :| 0 <= k < |heads| && heads[k] == min;
    HeadInTarget(vs[k], us[k]);
    JoinStep(us, Taken(us, min), min);
    forall y | y in JoinAll(Taken(us, min)) ensures Leq(min, y) {
      assert y in JoinAll(us);
      var j := JoinWitness(us, y);
      HeadLeast(vs[j], us[j], y);
      LeqTransitive(min, heads[j], y);
    }
  }

  lemma HeadInTarget(v: View, u: multiset<string>)
    requires TracksOne(v, u) && v.HasHead()
    ensures HeadOf(v) in u && ValidObject(HeadOf(v)) && HeadOf(v) != ""
  {
  }

  lemma PeekFailCracked(v: View)
    requires v.Peek().Fail?
    ensures v.Cracked()
  {
  }

  lemma SkipFailCracked(v: View, target: string)
    requires v.Skip(target).Peek().Fail?
    ensures v.Cracked()
  {
  }

  ghost function Work(vs: seq<View>): nat {
    SumSize(vs) + |vs|
  }

  /** Polls and prunes; what the surviving streams stand for together is what all stood for. */
  method CleanUp(ss: Streams, ghost us: seq<multiset<string>>) returns (ok: bool, ghost us': seq<multiset<string>>)
    requires ss.Valid() && Tracks(ss.Views(), us)
    modifies ss, ss.all
    ensures ss.Valid()
    ensures !ok ==> SomeCracked(old(ss.Views()))
    ensures ok ==> Tracks(ss.Views(), us') && AllBuffered(ss.Views()) && JoinAll(us') == JoinAll(us)
    ensures ok ==> SumSize(ss.Views()) <= SumSize(old(ss.Views())) && |ss.streams| <= |old(ss.streams)|
    ensures ok ==> SomeCracked(ss.Views()) ==> SomeCracked(old(ss.Views()))
  {
    us' := us;
    ghost var vs := ss.Views();
    ok := ss.CleanDone();
    if ok {
      CleanTracks(vs, us);
      us' := CleanedTargets(vs, us);
    } else {
      ghost var i :| 0 <= i < |vs| && vs[i].FetchFails();
      FetchFailsCracked(vs[i]);
    }
  }

  /** Reads all heads; a buffer found at its end is dropped, which is progress. */
  method ScanHeads(ss: Streams, ghost us: seq<multiset<string>>) returns (r: Scan, heads: seq<string>)
    requires ss.Valid() && Tracks(ss.Views(), us) && AllBuffered(ss.Views())
    modifies ss.all
    ensures ss.Valid() && ss.streams == old(ss.streams)
    ensures r.Broken? ==> SomeCracked(old(ss.Views()))
    ensures !r.Broken? ==> Tracks(ss.Views(), us) && (SomeCracked(ss.Views()) ==> SomeCracked(old(ss.Views())))
    ensures r.Missing? ==> SumSize(ss.Views()) < SumSize(old(ss.Views()))
    ensures r.AllHeads? ==> ss.Views() == old(ss.Views()) && Heads(ss.Views(), heads)
  {
    ghost var vs := ss.Views();
    r, heads := ReadHeads(ss);
    if r.Broken? {
      PeekFailCracked(vs[r.at]);
    } else if r.Missing? {
      LostHead(vs, us, r.at);
      LostHeadSizes(vs, r.at);
    }
  }

  /** Clean-up followed by a scan. */
  method NextHeads(ss: Streams, ghost us: seq<multiset<string>>)
    returns (r: Scan, heads: seq<string>, ghost us': seq<multiset<string>>)
    requires ss.Valid() && Tracks(ss.Views(), us)
    modifies ss, ss.all
    ensures ss.Valid()
    ensures r.Broken? ==> SomeCracked(old(ss.Views()))
    ensures !r.Broken? ==> Tracks(ss.Views(), us') && (SomeCracked(ss.Views()) ==> SomeCracked(old(ss.Views())))
    ensures !r.Broken? ==> JoinAll(us') == JoinAll(us) && Work(ss.Views()) <= Work(old(ss.Views()))
    ensures r.Missing? || (heads == [] && |old(ss.streams)| > 0 && r.AllHeads?) ==>
      Work(ss.Views()) < Work(old(ss.Views()))
    ensures r.AllHeads? ==> Heads(ss.Views(), heads)
  {
    var ok;
    heads := [];
    ok, us' := CleanUp(ss, us);
    if !ok { return Broken(0), heads, us; }
    r, heads := ScanHeads(ss, us');
  }

  /** Takes the least head from every stream that shows it. */
  method TakeLeast(ss: Streams, heads: seq<string>, ghost us: seq<multiset<string>>) returns (min: string)
    requires ss.Valid() && Tracks(ss.Views(), us) && Heads(ss.Views(), heads) && heads != []
    modifies ss.all
    ensures ss.Valid() && ss.streams == old(ss.streams)
    ensures min != "" && Tracks(ss.Views(), Taken(us, min))
    ensures Work(ss.Views()) < Work(old(ss.Views()))
    ensures SomeCracked(ss.Views()) ==> SomeCracked(old(ss.Views()))
    ensures JoinAll(us) == multiset{min} + JoinAll(Taken(us, min))
    ensures forall y :: y in JoinAll(Taken(us, min)) ==> Leq(min, y)
  {
    ghost var vs := ss.Views();
    var best, equal := LeastHead(heads);
    ghost var k := equal[0];
    HeadInTarget(vs[k], us[k]);
    min := NextItemInSliceStreams(ss, equal, heads, best);
    UnionStep(vs, ss.Views(), us, heads, best);
  }

  /** One pass of the union loop. */
  method UnionRound(ss: Streams, box: Outbox, ghost us: seq<multiset<string>>, ghost target: multiset<string>)
    returns (ok: bool, box': Outbox, ghost us': seq<multiset<string>>)
    requires ss.Valid() && ss.streams != [] && Tracks(ss.Views(), us)
    requires !Faulty(box.sent) && Progress(box.Emitted(), target, JoinAll(us))
    modifies ss, ss.all
    ensures ss.Valid()
    ensures !ok ==> SomeCracked(old(ss.Views())) && box' == box && us' == us
    ensures ok ==> Tracks(ss.Views(), us') && Work(ss.Views()) < Work(old(ss.Views()))
    ensures ok ==> SomeCracked(ss.Views()) ==> SomeCracked(old(ss.Views()))
    ensures !Faulty(box'.sent) && (ok ==> Progress(box'.Emitted(), target, JoinAll(us')))
  {
    box', ok := box, true;
    var scan, heads;
    scan, heads, us' := NextHeads(ss, us);
    if scan.Broken? { return false, box, us; }
    if scan.Missing? || heads == [] { return; }
    var min := TakeLeast(ss, heads, us');
    ProgressStep(box.Emitted(), target, JoinAll(us'), min, JoinAll(Taken(us', min)));
    us' := Taken(us', min);
    box' := box.Add(min);
  }

  /**
   * The union of ascending streams: the ascending enumeration of their join, in which an object
   * occurs as often as in the stream that has it most often.
   */
  method FastPathUnion(ss: Streams, ghost ms: seq<multiset<string>>) returns (out: seq<Msg>)
    requires ss.Valid() && Tracks(ss.Views(), ms)
    modifies ss, ss.all
    ensures Enumerates(Items(out), Faulty(out), JoinAll(ms))
    ensures Faulty(out) ==> SomeCracked(old(ss.Views()))
  {
    var box, failed := Outbox([], []), false;
    ghost var us := ms;
    JoinValid(ss.Views(), ms);
    while |ss.streams| > 0
      invariant ss.Valid()
      invariant Tracks(ss.Views(), us) && !Faulty(box.sent) && !failed
      invariant Progress(box.Emitted(), JoinAll(ms), JoinAll(us))
      invariant SomeCracked(ss.Views()) ==> SomeCracked(old(ss.Views()))
      decreases Work(ss.Views())
    {
      var ok;
      ok, box, us := UnionRound(ss, box, us, JoinAll(ms));
      if !ok {
        failed := true;
        break;
      }
    }
    assert !failed ==> us == [];
    ProgressEnumerates(box.Emitted(), JoinAll(ms), JoinAll(us), failed);
    out := box.Close(failed);
  }

  // ---------------------------------------------------------------- intersection

  /** Polls and prunes a fixed set of streams: either none was removed, or one of them stood for nothing. */
  method CleanUpFixed(ss: Streams, ghost us: seq<multiset<string>>) returns (ok: bool)
    requires ss.Valid() && Tracks(ss.Views(), us)
    modifies ss, ss.all
    ensures ss.Valid()
    ensures !ok ==> SomeCracked(old(ss.Views()))
    ensures ok && |ss.streams| == |us| ==> Tracks(ss.Views(), us) && AllBuffered(ss.Views())
    ensures ok && |ss.streams| == |us| ==> Work(ss.Views()) <= Work(old(ss.Views()))
    ensures ok && |ss.streams| == |us| ==> SomeCracked(ss.Views()) ==> SomeCracked(old(ss.Views()))
    ensures ok && |ss.streams| != |us| ==> exists i :: 0 <= i < |us| && us[i] == multiset{}
  {
    ghost var vs := ss.Views();
    ok := ss.CleanDone();
    if ok {
      CleanTracks(vs, us);
    } else {
      ghost var i :| 0 <= i < |vs| && vs[i].FetchFails();
      FetchFailsCracked(vs[i]);
    }
  }

  /** When all heads agree, taking them takes the common head once from the meet. */
  lemma IntersectionStep(vs: seq<View>, ws: seq<View>, us: seq<multiset<string>>, heads: seq<string>, m: string)
    requires Tracks(vs, us) && Heads(vs, heads) && AdvancedAll(vs, ws, heads, m) && heads != []
    requires forall i :: 0 <= i < |heads| ==> heads[i] == m
    ensures Tracks(ws, Taken(us, m))
    ensures SumSize(ws) < SumSize(vs)
    ensures SomeCracked(ws) ==> SomeCracked(vs)
    ensures MeetAll(us) == multiset{m} + MeetAll(Taken(us, m))
    ensures forall y :: y in MeetAll(Taken(us, m)) ==> Leq(m, y)
    ensures m != ""
  {
    assert heads[0] == m;
    AdvancedTracks(vs, ws, us, heads, m);
    CommonHead(vs, us, heads, m);
  }

  lemma CommonHead(vs: seq<View>, us: seq<multiset<string>>, heads: seq<string>, m: string)
    requires Tracks(vs, us) && Heads(vs, heads) && heads != []
    requires forall i :: 0 <= i < |heads| ==> heads[i] == m
    ensures MeetAll(us) == multiset{m} + MeetAll(Taken(us, m))
    ensures forall y :: y in MeetAll(Taken(us, m)) ==> Leq(m, y)
    ensures m != ""
  {
    forall i | 0 <= i < |us| ensures m in us[i] { HeadInTarget(vs[i], us[i]); }
    HeadInTarget(vs[0], us[0]);
    MeetStep(us, Taken(us, m), m);
    forall y | y in MeetAll(Taken(us, m)) ensures Leq(m, y) {
      MeetBound(us, 0, y);
      HeadLeast(vs[0], us[0], y);
    }
  }

  /** Every stream has skipped to `target`. */
  ghost predicate SkippedAll(vs: seq<View>, ws: seq<View>, target: string) {
    && |ws| == |vs|
    && forall i :: 0 <= i < |vs| ==> ws[i] == vs[i].Skip(target)
  }

  ghost function SkippedTargets(vs: seq<View>, us: seq<multiset<string>>, target: string): (r: seq<multiset<string>>)
    requires |vs| == |us| && AllBuffered(vs)
    ensures |r| == |us|
    ensures forall i :: 0 <= i < |us| ==> r[i] == Skipped(vs[i], us[i], target)
  {
    seq(|us|, i requires 0 <= i < |us| => Skipped(vs[i], us[i], target))
  }

  lemma SkippedTracks(vs: seq<View>, ws: seq<View>, us: seq<multiset<string>>, heads: seq<string>, target: string)
    requires Tracks(vs, us) && Heads(vs, heads) && AllBuffered(vs) && SkippedAll(vs, ws, target)
    requires exists i :: 0 <= i < |heads| && Less(heads[i], target)
    ensures Tracks(ws, SkippedTargets(vs, us, target))
    ensures SumSize(ws) < SumSize(vs)
    ensures SomeCracked(ws) ==> SomeCracked(vs)
  {
    var ts := SkippedTargets(vs, us, target);
    forall i | 0 <= i < |vs|
      ensures TracksOne(ws[i], ts[i]) && ws[i].Size() <= vs[i].Size()
      ensures Less(heads[i], target) ==> ws[i].Size() < vs[i].Size()
      ensures ws[i].Cracked() ==> vs[i].Cracked()
    {
      SkipTracks(vs[i], us[i], target);
    }
    SumSizeMonotone(vs, ws);
    CrackedMonotone(vs, ws);
  }

  /** Objects below the largest head are in no intersection, so skipping them changes nothing. */
  lemma SkipKeepsMeet(vs: seq<View>, us: seq<multiset<string>>, heads: seq<string>, max: string, k: nat)
    requires Tracks(vs, us) && Heads(vs, heads) && AllBuffered(vs)
    requires k < |heads| && heads[k] == max
    ensures MeetAll(us) == MeetAll(SkippedTargets(vs, us, max))
  {
    var ts := SkippedTargets(vs, us, max);
    forall i, x {:trigger ts[i][x]} | 0 <= i < |us|
      ensures ts[i][x] <= us[i][x]
      ensures ts[i][x] < us[i][x] ==> us[k][x] == 0
    {
      SkippedBelow(vs[i], us[i], max, x);
      if ts[i][x] < us[i][x] && x in us[k] {
        HeadLeast(vs[k], us[k], x);
        LeqAntisymmetric(x, max);
        LessIrreflexive(x);
      }
    }
    MeetEqual(us, ts);
  }

  /** Skips every stream to the target, stopping at the first error. */
  method SkipAll(ss: Streams, target: string) returns (ok: bool)
    requires ss.Valid() && ValidObject(target)
    modifies ss.all
    ensures ss.Valid() && ss.streams == old(ss.streams)
    ensures ok ==> SkippedAll(old(ss.Views()), ss.Views(), target)
    ensures !ok ==> SomeCracked(old(ss.Views()))
  {
    ghost var vs := ss.Views();
    var i := 0;
    while i < |ss.streams|
      invariant 0 <= i <= |ss.streams| && ss.Valid() && ss.streams == old(ss.streams)
      invariant HalfSkipped(vs, ss.Views(), target, i)
    {
      ok := SkipOne(ss, i, target);
      if !ok { return; }
      i := i + 1;
    }
    return true;
  }

  /** The first `i` views have been skipped to the target. */
  ghost predicate HalfSkipped(vs: seq<View>, ws: seq<View>, target: string, i: nat) {
    |ws| == |vs| && forall k :: 0 <= k < |vs| ==> ws[k] == if k < i then vs[k].Skip(target) else vs[k]
  }

  /** Skips one stream to the target. */
  method SkipOne(ss: Streams, k: nat, target: string) returns (ok: bool)
    requires ss.Valid() && k < |ss.streams| && ValidObject(target)
    modifies ss.all
    ensures ss.Valid() && ss.streams == old(ss.streams)
    ensures ss.Views() == old(ss.Views())[k := old(ss.Views())[k].Skip(target)]
    ensures !ok ==> old(ss.Views())[k].Cracked()
  {
    ghost var vs := ss.Views();
    var streams := ss.streams;
    ok := streams[k].SkipToTargetObject(target);
    assert forall i :: 0 <= i < |streams| && i != k ==> streams[i].State() == vs[i];
    if !ok { SkipFailCracked(vs[k], target); }
  }

  /** With all heads present: take the common head, or move everything up to the largest head. */
  method IntersectHeads(ss: Streams, heads: seq<string>, ghost us: seq<multiset<string>>)
    returns (ok: bool, item: string, ghost us': seq<multiset<string>>)
    requires ss.Valid() && Tracks(ss.Views(), us) && AllBuffered(ss.Views()) && Heads(ss.Views(), heads) && heads != []
    modifies ss.all
    ensures ss.Valid() && ss.streams == old(ss.streams)
    ensures !ok ==> SomeCracked(old(ss.Views()))
    ensures ok ==> Tracks(ss.Views(), us') && Work(ss.Views()) < Work(old(ss.Views()))
    ensures ok ==> SomeCracked(ss.Views()) ==> SomeCracked(old(ss.Views()))
    ensures ok && item == "" ==> MeetAll(us') == MeetAll(us)
    ensures ok && item != "" ==> MeetAll(us) == multiset{item} + MeetAll(us')
    ensures ok && item != "" ==> forall y :: y in MeetAll(us') ==> Leq(item, y)
  {
    ghost var vs := ss.Views();
    us', item := us, "";
    var max, equal := GreatestHead(heads);
    PositionsCount(heads, max, equal);
    assert heads[equal[0]] == max;
    if |equal| == |heads| {
      item := NextItemInSliceStreams(ss, equal, heads, max);
      IntersectionStep(vs, ss.Views(), us, heads, max);
      return true, item, Taken(us, max);
    }
    ok := SkipToMax(ss, heads, max, us);
    us' := SkippedTargets(vs, us, max);
  }

  /** Moves every stream up to the largest head. */
  method SkipToMax(ss: Streams, ghost heads: seq<string>, max: string, ghost us: seq<multiset<string>>)
    returns (ok: bool)
    requires ss.Valid() && Tracks(ss.Views(), us) && AllBuffered(ss.Views()) && Heads(ss.Views(), heads) && max in heads
    requires forall i :: 0 <= i < |heads| ==> Leq(heads[i], max)
    requires exists i :: 0 <= i < |heads| && heads[i] != max
    modifies ss.all
    ensures ss.Valid() && ss.streams == old(ss.streams)
    ensures !ok ==> SomeCracked(old(ss.Views()))
    ensures ok ==>
      Tracks(ss.Views(), SkippedTargets(old(ss.Views()), us, max)) && Work(ss.Views()) < Work(old(ss.Views()))
    ensures ok ==> SomeCracked(ss.Views()) ==> SomeCracked(old(ss.Views()))
    ensures us != [] && MeetAll(SkippedTargets(old(ss.Views()), us, max)) == MeetAll(us)
  {
    ghost var vs := ss.Views();
    ghost var k :| 0 <= k < |heads| && heads[k] == max;
    HeadInTarget(vs[k], us[k]);
    SkipKeepsMeet(vs, us, heads, max, k);
    ghost var j :| 0 <= j < |heads| && heads[j] != max;
    assert Less(heads[j], max);
    ok := SkipAll(ss, max);
    if ok { SkippedTracks(vs, ss.Views(), us, heads, max); }
  }

  /** One pass of the intersection loop. */
  method IntersectionRound(ss: Streams, childrenTotal: nat, box: Outbox, ghost us: seq<multiset<string>>,
                           ghost target: multiset<string>)
    returns (ok: bool, box': Outbox, ghost us': seq<multiset<string>>)
    requires ss.Valid() && Tracks(ss.Views(), us) && us != [] && childrenTotal == |us|
    requires !Faulty(box.sent) && Progress(box.Emitted(), target, MeetAll(us))
    modifies ss, ss.all
    ensures ss.Valid() && |us'| == |us|
    ensures !ok ==> SomeCracked(old(ss.Views())) && box' == box && us' == us
    ensures !Faulty(box'.sent) && Progress(box'.Emitted(), target, MeetAll(us'))
    ensures ok && |ss.streams| != |us| ==> MeetAll(us') == multiset{}
    ensures ok && |ss.streams| == |us| ==> Tracks(ss.Views(), us') && Work(ss.Views()) < Work(old(ss.Views()))
    ensures ok && |ss.streams| == |us| ==> SomeCracked(ss.Views()) ==> SomeCracked(old(ss.Views()))
  {
    box', us' := box, us;
    ok := CleanUpFixed(ss, us);
    if !ok { return; }
    if |ss.streams| != childrenTotal {
      MeetEmpty(us);
      return;
    }
    var scan, heads := ScanHeads(ss, us);
    if scan.Broken? { return false, box, us; }
    if scan.Missing? { return; }
    var item;
    ghost var next;
    ok, item, next := IntersectHeads(ss, heads, us);
    if !ok { return; }
    if item != "" { ProgressStep(box.Emitted(), target, MeetAll(us), item, MeetAll(next)); }
    us' := next;
    box' := if item != "" then box.Add(item) else box;
  }

  lemma MeetEmpty(us: seq<multiset<string>>)
    requires exists i :: 0 <= i < |us| && us[i] == multiset{}
    ensures us != [] && MeetAll(us) == multiset{}
  {
    var i :| 0 <= i < |us| && us[i] == multiset{};
    forall x ensures MeetAll(us)[x] == 0 { MeetBound(us, i, x); }
  }

  lemma MeetValid(vs: seq<View>, us: seq<multiset<string>>)
    requires Tracks(vs, us) && us != []
    ensures ValidObjects(MeetAll(us))
  {
  }

  /**
   * The intersection of one or more ascending streams: the ascending enumeration of their meet,
   * in which an object occurs as often as in the stream that has it least often.
   */
  method FastPathIntersection(ss: Streams, ghost ms: seq<multiset<string>>) returns (out: seq<Msg>)
    requires ss.Valid() && Tracks(ss.Views(), ms) && ms != []
    modifies ss, ss.all
    ensures Enumerates(Items(out), Faulty(out), MeetAll(ms))
    ensures Faulty(out) ==> SomeCracked(old(ss.Views()))
  {
    var box, failed := Outbox([], []), false;
    ghost var us := ms;
    MeetValid(ss.Views(), ms);
    var childrenTotal := |ss.streams|;
    while |ss.streams| == childrenTotal
      invariant ss.Valid() && childrenTotal == |us| && us != []
      invariant !Faulty(box.sent) && !failed
      invariant Progress(box.Emitted(), MeetAll(ms), MeetAll(us))
      invariant |ss.streams| == childrenTotal ==> Tracks(ss.Views(), us)
      invariant |ss.streams| != childrenTotal ==> MeetAll(us) == multiset{}
      invariant |ss.streams| == childrenTotal && SomeCracked(ss.Views()) ==> SomeCracked(old(ss.Views()))
      decreases |ss.streams| == childrenTotal, Work(ss.Views())
    {
      var ok;
      ok, box, us := IntersectionRound(ss, childrenTotal, box, us, MeetAll(ms));
      if !ok {
        failed := true;
        break;
      }
    }
    ProgressEnumerates(box.Emitted(), MeetAll(ms), MeetAll(us), failed);
    out := box.Close(failed);
  }

  // ---------------------------------------------------------------- difference

  /** Which of base (index 0) and subtract (index 1) are still active, and what they stand for. */
  ghost predicate DiffState(vs: seq<View>, ub: multiset<string>, ud: multiset<string>) {
    || BothActive(vs, ub, ud)
    || (|vs| == 1 && vs[0].idx == 0 && TracksOne(vs[0], ub) && ud == multiset{})
    || (|vs| == 1 && vs[0].idx == 1 && TracksOne(vs[0], ud) && ub == multiset{})
    || (|vs| == 0 && ub == multiset{})
  }

  ghost predicate BothActive(vs: seq<View>, ub: multiset<string>, ud: multiset<string>) {
    && |vs| == 2
    && vs[0].idx == 0 && TracksOne(vs[0], ub)
    && vs[1].idx == 1 && TracksOne(vs[1], ud)
  }

  lemma CleanedCons(vs: seq<View>)
    requires vs != []
    ensures Cleaned(vs) == (if vs[0].Fetch().IsDone() then [] else [vs[0].Fetch()]) + Cleaned(vs[1..])
  {
  }

  lemma CrackedCons(vs: seq<View>)
    requires vs != []
    ensures SomeCracked(vs) <==> vs[0].Cracked() || SomeCracked(vs[1..])
  {
  }

  lemma {:induction false} CleanedFacts(vs: seq<View>)
    requires NoFetchFails(vs) && forall i :: 0 <= i < |vs| ==> vs[i].closed ==> vs[i].source == []
    ensures SumSize(Cleaned(vs)) <= SumSize(vs) && |Cleaned(vs)| <= |vs|
    ensures SomeCracked(Cleaned(vs)) ==> SomeCracked(vs)
    ensures AllBuffered(Cleaned(vs))
  {
    if vs != [] {
      CleanedCons(vs);
      CleanedFacts(vs[1..]);
      FetchFacts(vs[0]);
      var rest, all := Cleaned(vs[1..]), Cleaned(vs);
      if vs[0].Fetch().IsDone() {
        assert all == rest;
      } else {
        assert all[0] == vs[0].Fetch() && all[1..] == rest;
      }
      CrackedCons(vs);
      if all != [] { CrackedCons(all); }
    }
  }

  lemma FetchFacts(v: View)
    requires !v.FetchFails() && (v.closed ==> v.source == [])
    ensures v.Fetch().Size() <= v.Size()
    ensures v.Fetch().Cracked() <==> v.Cracked()
    ensures !v.Fetch().IsDone() ==> v.Fetch().buffer.Some?
  {
  }

  lemma CleanDiff(vs: seq<View>, ub: multiset<string>, ud: multiset<string>)
    requires DiffState(vs, ub, ud) && NoFetchFails(vs)
    ensures DiffState(Cleaned(vs), ub, ud)
    ensures |vs| == 1 ==> |Cleaned(vs)| == 0 || Cleaned(vs)[0].idx == vs[0].idx
  {
    if vs != [] {
      CleanedCons(vs);
      if |vs| == 2 {
        CleanedCons(vs[1..]);
        FetchTracks(vs[0], ub);
        FetchTracks(vs[1], ud);
      } else {
        FetchTracks(vs[0], if vs[0].idx == 0 then ub else ud);
      }
    }
  }

  lemma DiffClosed(vs: seq<View>, ub: multiset<string>, ud: multiset<string>)
    requires DiffState(vs, ub, ud)
    ensures forall i :: 0 <= i < |vs| ==> vs[i].closed ==> vs[i].source == []
  {
    forall i | 0 <= i < |vs| ensures vs[i].closed ==> vs[i].source == [] {
      if i == 1 { assert |vs| == 2; }
    }
  }

  lemma CleanDiffFacts(vs: seq<View>, ub: multiset<string>, ud: multiset<string>)
    requires DiffState(vs, ub, ud) && NoFetchFails(vs)
    ensures AllBuffered(Cleaned(vs)) && |Cleaned(vs)| <= |vs|
    ensures Work(Cleaned(vs)) <= Work(vs)
    ensures SomeCracked(Cleaned(vs)) ==> SomeCracked(vs)
  {
    DiffClosed(vs, ub, ud);
    CleanedFacts(vs);
  }

  method CleanUpDiff(ss: Streams, ghost ub: multiset<string>, ghost ud: multiset<string>) returns (ok: bool)
    requires ss.Valid() && DiffState(ss.Views(), ub, ud)
    modifies ss, ss.all
    ensures ss.Valid()
    ensures !ok ==> SomeCracked(old(ss.Views()))
    ensures ok ==> DiffState(ss.Views(), ub, ud) && AllBuffered(ss.Views())
    ensures ok ==> Work(ss.Views()) <= Work(old(ss.Views()))
    ensures ok ==> SomeCracked(ss.Views()) ==> SomeCracked(old(ss.Views()))
    ensures ok ==> |ss.streams| <= |old(ss.streams)|
    ensures ok && |old(ss.streams)| == 1 ==> |ss.streams| == 0 || ss.Views()[0].idx == old(ss.Views())[0].idx
  {
    ghost var vs := ss.Views();
    ok := ss.CleanDone();
    if ok {
      CleanDiff(vs, ub, ud);
      CleanDiffFacts(vs, ub, ud);
    } else {
      ghost var i :| 0 <= i < |vs| && vs[i].FetchFails();
      FetchFailsCracked(vs[i]);
    }
  }

  /** Equal heads cancel; a smaller base head is emitted. */
  lemma DiffTake(ub: multiset<string>, ud: multiset<string>, base: string, diff: string)
    requires base in ub && (base == diff ==> base in ud) && (base != diff ==> base !in ud)
    ensures base == diff ==> ub - ud == (ub - multiset{base}) - (ud - multiset{base})
    ensures base != diff ==> ub - ud == multiset{base} + ((ub - multiset{base}) - (ud - multiset{base}))
  {
  }

  lemma SumSizePair(vs: seq<View>)
    requires |vs| == 2
    ensures SumSize(vs) == vs[0].Size() + vs[1].Size()
    ensures SomeCracked(vs) <==> vs[0].Cracked() || vs[1].Cracked()
  {
    assert vs[1..] == [vs[1]];
    assert SumSize(vs[1..]) == vs[1].Size() + SumSize(vs[1..][1..]);
  }

  ghost function PairAdvanced(vs: seq<View>, both: bool): seq<View>
    requires |vs| == 2
  {
    [vs[0].Advance(), if both then vs[1].Advance() else vs[1]]
  }

  lemma PairAdvancedAll(vs: seq<View>, ws: seq<View>, heads: seq<string>)
    requires |vs| == 2 == |heads| && AdvancedAll(vs, ws, heads, heads[0])
    ensures ws == PairAdvanced(vs, heads[0] == heads[1])
  {
  }

  lemma PairPositions(heads: seq<string>, equal: seq<nat>)
    requires |heads| == 2 && equal == if heads[1] == heads[0] then [0, 1] else [0]
    ensures Positions(heads, 2, heads[0], equal)
  {
  }

  lemma DiffAdvanced(vs: seq<View>, ub: multiset<string>, ud: multiset<string>, heads: seq<string>)
    requires BothActive(vs, ub, ud) && Heads(vs, heads) && Leq(heads[0], heads[1])
    ensures BothActive(PairAdvanced(vs, heads[0] == heads[1]), ub - multiset{heads[0]}, ud - multiset{heads[0]})
    ensures SumSize(PairAdvanced(vs, heads[0] == heads[1])) < SumSize(vs)
    ensures SomeCracked(PairAdvanced(vs, heads[0] == heads[1])) ==> SomeCracked(vs)
  {
    AdvanceTracks(vs[0], ub);
    if heads[0] != heads[1] { HeadAbsent(vs[1], ud, heads[0]); }
    TakeTracks(vs[1], ud, heads[0]);
    SumSizePair(vs);
    SumSizePair(PairAdvanced(vs, heads[0] == heads[1]));
  }

  lemma DiffHeadFacts(vs: seq<View>, ub: multiset<string>, ud: multiset<string>, heads: seq<string>)
    requires Heads(vs, heads) && BothActive(vs, ub, ud) && Leq(heads[0], heads[1])
    ensures heads[0] in ub && heads[0] != ""
    ensures heads[0] in ud <==> heads[0] == heads[1]
    ensures forall y :: y in ub ==> Leq(heads[0], y)
  {
    HeadInTarget(vs[0], ub);
    HeadInTarget(vs[1], ud);
    if heads[1] != heads[0] { HeadAbsent(vs[1], ud, heads[0]); }
    forall y | y in ub ensures Leq(heads[0], y) { HeadLeast(vs[0], ub, y); }
  }

  /** Takes the base head, and the equal subtract head if there is one. */
  method DiffAdvance(ss: Streams, heads: seq<string>, ghost ub: multiset<string>, ghost ud: multiset<string>)
    requires ss.Valid() && Heads(ss.Views(), heads) && BothActive(ss.Views(), ub, ud)
    requires Leq(heads[0], heads[1])
    modifies ss.all
    ensures ss.Valid() && ss.streams == old(ss.streams)
    ensures BothActive(ss.Views(), ub - multiset{heads[0]}, ud - multiset{heads[0]})
    ensures Work(ss.Views()) < Work(old(ss.Views()))
    ensures SomeCracked(ss.Views()) ==> SomeCracked(old(ss.Views()))
  {
    ghost var vs := ss.Views();
    var b := heads[0];
    var equal: seq<nat> := if heads[1] == b then [0, 1] else [0];
    DiffAdvanced(vs, ub, ud, heads);
    PairPositions(heads, equal);
    var _ := NextItemInSliceStreams(ss, equal, heads, b);
    PairAdvancedAll(vs, ss.Views(), heads);
  }

  lemma DiffSkipped(vs: seq<View>, ub: multiset<string>, ud: multiset<string>, heads: seq<string>)
    requires Heads(vs, heads) && BothActive(vs, ub, ud) && Less(heads[1], heads[0])
    ensures var w := vs[1].Skip(heads[0]); var ud' := Skipped(vs[1], ud, heads[0]);
      && BothActive(vs[1 := w], ub, ud') && ub - ud == ub - ud'
      && SumSize(vs[1 := w]) < SumSize(vs)
      && (SomeCracked(vs[1 := w]) ==> SomeCracked(vs))
  {
    var w := vs[1].Skip(heads[0]);
    SkipTracks(vs[1], ud, heads[0]);
    DiffSkipKeeps(vs, ub, ud, heads);
    SumSizeUpdate(vs, 1, w);
    CrackedUpdate(vs, 1, w);
  }

  /** Moves the subtract stream up to the base head; what it skips is not in the base. */
  method DiffSkip(ss: Streams, heads: seq<string>, ghost ub: multiset<string>, ghost ud: multiset<string>)
    returns (ok: bool, ghost ud': multiset<string>)
    requires ss.Valid() && Heads(ss.Views(), heads) && BothActive(ss.Views(), ub, ud)
    requires Less(heads[1], heads[0])
    modifies ss.all
    ensures ss.Valid() && ss.streams == old(ss.streams)
    ensures !ok ==> SomeCracked(old(ss.Views()))
    ensures ok ==> BothActive(ss.Views(), ub, ud') && ub - ud == ub - ud'
    ensures ok ==> Work(ss.Views()) < Work(old(ss.Views()))
    ensures ok ==> SomeCracked(ss.Views()) ==> SomeCracked(old(ss.Views()))
  {
    ghost var vs := ss.Views();
    DiffSkipped(vs, ub, ud, heads);
    HeadInTarget(vs[0], ub);
    ud' := Skipped(vs[1], ud, heads[0]);
    ok := SkipOne(ss, 1, heads[0]);
  }

  lemma DiffSkipKeeps(vs: seq<View>, ub: multiset<string>, ud: multiset<string>, heads: seq<string>)
    requires |vs| == 2 && Heads(vs, heads) && TracksOne(vs[0], ub)
    ensures ub - ud == ub - Skipped(vs[1], ud, heads[0])
  {
    var ud' := Skipped(vs[1], ud, heads[0]);
    forall x ensures (ub - ud)[x] == (ub - ud')[x] {
      SkippedBelow(vs[1], ud, heads[0], x);
      if ud'[x] < ud[x] && x in ub {
        HeadLeast(vs[0], ub, x);
        LeqAntisymmetric(x, heads[0]);
        LessIrreflexive(x);
      }
    }
  }

  ghost predicate DiffProgress(box: Outbox, target: multiset<string>, ub: multiset<string>, ud: multiset<string>) {
    !Faulty(box.sent) && Progress(box.Emitted(), target, ub - ud)
  }

  /** What the heads of both streams lead to: cancel, emit, or skip. */
  method DiffHeads(ss: Streams, heads: seq<string>, box: Outbox, ghost ub: multiset<string>,
                   ghost ud: multiset<string>, ghost target: multiset<string>)
    returns (ok: bool, box': Outbox, ghost ub': multiset<string>, ghost ud': multiset<string>)
    requires ss.Valid() && Heads(ss.Views(), heads) && BothActive(ss.Views(), ub, ud)
    requires DiffProgress(box, target, ub, ud)
    modifies ss.all
    ensures ss.Valid() && ss.streams == old(ss.streams)
    ensures !ok ==> SomeCracked(old(ss.Views())) && box' == box && ub' == ub && ud' == ud
    ensures DiffProgress(box', target, ub', ud')
    ensures ok ==> BothActive(ss.Views(), ub', ud') && Work(ss.Views()) < Work(old(ss.Views()))
    ensures ok ==> SomeCracked(ss.Views()) ==> SomeCracked(old(ss.Views()))
  {
    var base, diff := heads[0], heads[1];
    ok, box', ub', ud' := true, box, ub, ud;
    LessTotal(base, diff);
    if base == diff || Less(base, diff) {
      DiffHeadFacts(ss.Views(), ub, ud, heads);
      DiffAdvance(ss, heads, ub, ud);
      ub', ud' := ub - multiset{base}, ud - multiset{base};
      DiffTake(ub, ud, base, diff);
      if base != diff {
        ProgressStep(box.Emitted(), target, ub - ud, base, ub' - ud');
        box' := box.Add(base);
      }
    } else {
      ghost var skipped;
      ok, skipped := DiffSkip(ss, heads, ub, ud);
      if ok { ud' := skipped; }
    }
  }

  /** Reads both heads. */
  method ScanPair(ss: Streams, ghost ub: multiset<string>, ghost ud: multiset<string>)
    returns (r: Scan, heads: seq<string>)
    requires ss.Valid() && BothActive(ss.Views(), ub, ud) && AllBuffered(ss.Views())
    modifies ss.all
    ensures ss.Valid() && ss.streams == old(ss.streams)
    ensures r.Broken? ==> SomeCracked(old(ss.Views()))
    ensures !r.Broken? ==> BothActive(ss.Views(), ub, ud) && (SomeCracked(ss.Views()) ==> SomeCracked(old(ss.Views())))
    ensures r.Missing? ==> Work(ss.Views()) < Work(old(ss.Views()))
    ensures r.AllHeads? ==> ss.Views() == old(ss.Views()) && Heads(ss.Views(), heads)
  {
    ghost var vs := ss.Views();
    r, heads := ReadHeads(ss);
    if r.Broken? {
      PeekFailCracked(vs[r.at]);
    } else if r.Missing? {
      LostHeadPair(vs, ub, ud, r.at);
    }
  }

  lemma LostHeadPair(vs: seq<View>, ub: multiset<string>, ud: multiset<string>, k: nat)
    requires BothActive(vs, ub, ud) && k < 2 && vs[k].buffer.Some? && vs[k].Peek().Done?
    ensures BothActive(vs[k := vs[k].DropEmpty()], ub, ud)
    ensures SumSize(vs[k := vs[k].DropEmpty()]) < SumSize(vs)
    ensures SomeCracked(vs[k := vs[k].DropEmpty()]) ==> SomeCracked(vs)
  {
    LostHeadSizes(vs, k);
    if k == 0 {
      EndOfBuffer(vs[0], ub);
    } else {
      EndOfBuffer(vs[1], ud);
    }
  }

  /** One pass of the loop that runs while both streams are active. */
  method DifferenceRound(ss: Streams, box: Outbox, ghost ub: multiset<string>, ghost ud: multiset<string>,
                         ghost target: multiset<string>)
    returns (ok: bool, box': Outbox, ghost ub': multiset<string>, ghost ud': multiset<string>)
    requires ss.Valid() && |ss.streams| == 2 && DiffState(ss.Views(), ub, ud)
    requires DiffProgress(box, target, ub, ud)
    modifies ss, ss.all
    ensures ss.Valid()
    ensures !ok ==> SomeCracked(old(ss.Views()))
    ensures DiffProgress(box', target, ub', ud')
    ensures ok ==> DiffState(ss.Views(), ub', ud') && Work(ss.Views()) <= Work(old(ss.Views()))
    ensures ok && |ss.streams| == 2 ==> Work(ss.Views()) < Work(old(ss.Views()))
    ensures ok ==> SomeCracked(ss.Views()) ==> SomeCracked(old(ss.Views()))
  {
    box', ub', ud' := box, ub, ud;
    ok := CleanUpDiff(ss, ub, ud);
    if !ok || |ss.streams| != 2 { return; }
    var scan, heads := ScanPair(ss, ub, ud);
    if scan.Broken? { return false, box, ub, ud; }
    if scan.Missing? { return; }
    ok, box', ub', ud' := DiffHeads(ss, heads, box, ub, ud, target);
  }

  /** Cutting a first part off an enumeration leaves an enumeration of the rest, and nothing in it is smaller. */
  lemma EnumeratesCut(items: seq<string>, rest: seq<string>, faulty: bool, u: multiset<string>)
    requires Enumerates(items + rest, faulty, u)
    ensures Enumerates(rest, faulty, u - multiset(items))
    ensures Ascending(items) && multiset(items) <= u
    ensures forall x, y :: x in items && y in u - multiset(items) ==> Leq(x, y)
  {
    var s := items + rest;
    assert multiset(s) == multiset(items) + multiset(rest);
    assert (u - multiset(items)) - multiset(rest) == u - multiset(s);
    forall i, j | 0 <= i < j < |rest| ensures Leq(rest[i], rest[j]) {
      assert rest[i] == s[|items| + i] && rest[j] == s[|items| + j];
    }
    forall i, j | 0 <= i < j < |items| ensures Leq(items[i], items[j]) {
      assert items[i] == s[i] && items[j] == s[j];
    }
    forall x, y | x in items && y in u - multiset(items) ensures Leq(x, y) { CutOrder(items, rest, u, x, y); }
  }

  lemma CutOrder(items: seq<string>, rest: seq<string>, u: multiset<string>, x: string, y: string)
    requires Ascending(items + rest) && multiset(items + rest) <= u && x in items && y in u - multiset(items)
    requires forall a, b :: a in items + rest && b in u - multiset(items + rest) ==> Leq(a, b)
    ensures Leq(x, y)
  {
    var s := items + rest;
    assert multiset(s) == multiset(items) + multiset(rest);
    var i :| 0 <= i < |items| && items[i] == x;
    assert s[i] == x;
    if y in multiset(rest) {
      var j :| 0 <= j < |rest| && rest[j] == y;
      assert s[|items| + j] == y;
    } else {
      assert y in u - multiset(s);
    }
  }

  lemma ProgressCut(emitted: seq<string>, target: multiset<string>, u: multiset<string>, items: seq<string>)
    requires Progress(emitted, target, u) && Ascending(items) && multiset(items) <= u
    requires forall x, y :: x in items && y in u - multiset(items) ==> Leq(x, y)
    ensures Progress(emitted + items, target, u - multiset(items))
  {
  }

  lemma DrainTracks(v: View, u: multiset<string>)
    requires TracksOne(v, u) && v.buffer.Some? && !v.buffer.value.fails
    ensures TracksOne(v.(buffer := None), u - multiset(v.buffer.value.items))
    ensures v.(buffer := None).Cracked() <==> v.Cracked()
    ensures v.(buffer := None).Size() < v.Size()
  {
    EnumeratesCut(v.buffer.value.items, Items(v.source), v.Cracked(), u);
    assert v.(buffer := None).Remaining() == Items(v.source);
  }

  /** A drained buffer is the next part of what its stream stands for. */
  lemma DrainEmits(v: View, u: multiset<string>, emitted: seq<string>, target: multiset<string>)
    requires TracksOne(v, u) && v.buffer.Some? && Progress(emitted, target, u)
    ensures Progress(emitted + v.buffer.value.items, target, u - multiset(v.buffer.value.items))
  {
    EnumeratesCut(v.buffer.value.items, Items(v.source), v.Cracked(), u);
    ProgressCut(emitted, target, u, v.buffer.value.items);
  }

  /** Drains the buffer of the base. */
  method DrainBuffer(ss: Streams, box: Outbox, ghost ub: multiset<string>, ghost target: multiset<string>)
    returns (ok: bool, box': Outbox, ghost ub': multiset<string>)
    requires ss.Valid() && |ss.streams| == 1 && ss.Views()[0].buffer.Some? && TracksOne(ss.Views()[0], ub)
    requires !Faulty(box.sent) && Progress(box.Emitted(), target, ub)
    modifies ss.all
    ensures ss.Valid() && ss.streams == old(ss.streams)
    ensures !ok ==> SomeCracked(old(ss.Views())) && box' == box && ub' == ub
    ensures !Faulty(box'.sent) && Progress(box'.Emitted(), target, ub')
    ensures ok ==> TracksOne(ss.Views()[0], ub') && ss.Views()[0].idx == old(ss.Views())[0].idx
    ensures ok ==> ss.Views()[0].Size() < old(ss.Views())[0].Size()
    ensures ok ==> ss.Views()[0].Cracked() ==> old(ss.Views())[0].Cracked()
  {
    ghost var v := ss.Views()[0];
    box', ub' := box, ub;
    var items;
    items, ok := ss.streams[0].Drain();
    if ok {
      DrainTracks(v, ub);
      DrainEmits(v, ub, box.Emitted(), target);
      ub' := ub - multiset(items);
      box' := box.AddAll(items);
    }
  }

  /** One pass of the loop that drains the base once the subtract stream is done. */
  method DrainRound(ss: Streams, box: Outbox, ghost ub: multiset<string>, ghost target: multiset<string>)
    returns (ok: bool, box': Outbox, ghost ub': multiset<string>)
    requires ss.Valid() && |ss.streams| == 1 && ss.Views()[0].idx == 0 && AllBuffered(ss.Views())
    requires TracksOne(ss.Views()[0], ub)
    requires !Faulty(box.sent) && Progress(box.Emitted(), target, ub)
    modifies ss, ss.all
    ensures ss.Valid()
    ensures !ok ==> SomeCracked(old(ss.Views()))
    ensures !Faulty(box'.sent) && Progress(box'.Emitted(), target, ub')
    ensures ok ==> DiffState(ss.Views(), ub', multiset{}) && AllBuffered(ss.Views())
    ensures ok ==> |ss.streams| <= 1 && (|ss.streams| == 1 ==> ss.Views()[0].idx == 0)
    ensures ok ==> Work(ss.Views()) < Work(old(ss.Views()))
    ensures ok ==> SomeCracked(ss.Views()) ==> SomeCracked(old(ss.Views()))
  {
    ghost var vs := ss.Views();
    ok, box', ub' := DrainBuffer(ss, box, ub, target);
    if !ok { return; }
    SumSizeOne(vs);
    SumSizeOne(ss.Views());
    ok := CleanUpDiff(ss, ub', multiset{});
  }

  lemma SumSizeOne(vs: seq<View>)
    requires |vs| == 1
    ensures SumSize(vs) == vs[0].Size()
    ensures SomeCracked(vs) <==> vs[0].Cracked()
  {
  }

  /**
   * The difference of two ascending streams: the ascending enumeration of the multiset difference.
   */
  method FastPathDifference(ss: Streams, ghost mb: multiset<string>, ghost md: multiset<string>) returns (out: seq<Msg>)
    requires ss.Valid() && |ss.streams| == 2 && DiffState(ss.Views(), mb, md)
    modifies ss, ss.all
    ensures Enumerates(Items(out), Faulty(out), mb - md)
    ensures Faulty(out) ==> SomeCracked(old(ss.Views()))
  {
    var box, ok := Outbox([], []), true;
    ghost var ub, ud := mb, md;
    assert ValidObjects(mb - md);
    while |ss.streams| == 2
      invariant ss.Valid() && ok
      invariant DiffState(ss.Views(), ub, ud) && DiffProgress(box, mb - md, ub, ud)
      invariant SomeCracked(ss.Views()) ==> SomeCracked(old(ss.Views()))
      decreases |ss.streams|, Work(ss.Views())
    {
      ok, box, ub, ud := DifferenceRound(ss, box, ub, ud, mb - md);
      if !ok { break; }
    }
    ghost var rest := ub - ud;
    if ok { ok, box, rest := DifferenceRest(ss, box, ub, ud, mb - md); }
    ProgressEnumerates(box.Emitted(), mb - md, rest, !ok);
    out := box.Close(!ok);
  }

  /** With one stream done: nothing more to emit unless the base is the one left. */
  method DifferenceRest(ss: Streams, box: Outbox, ghost ub: multiset<string>, ghost ud: multiset<string>,
                        ghost target: multiset<string>)
    returns (ok: bool, box': Outbox, ghost rest: multiset<string>)
    requires ss.Valid() && |ss.streams| != 2 && DiffState(ss.Views(), ub, ud)
    requires DiffProgress(box, target, ub, ud)
    modifies ss, ss.all
    ensures !ok ==> SomeCracked(old(ss.Views()))
    ensures !Faulty(box'.sent) && Progress(box'.Emitted(), target, rest)
    ensures ok ==> rest == multiset{}
  {
    box', rest := box, ub - ud;
    ok := CleanUpDiff(ss, ub, ud);
    if !ok { return; }
    ghost var v := ss.Views();
    if |ss.streams| == 1 && ss.streams[0].idx == 0 {
      assert v[0].idx == 0 && ud == multiset{};
      assert ub - ud == ub;
      ok, box', rest := DrainBase(ss, box, ub, target);
    } else {
      assert |v| == 1 ==> v[0].idx == 1;
      assert ub == multiset{};
      assert ub - ud == multiset{};
    }
  }

  /** Emits everything the base still has. */
  method DrainBase(ss: Streams, box: Outbox, ghost ub: multiset<string>, ghost target: multiset<string>)
    returns (ok: bool, box': Outbox, ghost ub': multiset<string>)
    requires ss.Valid() && |ss.streams| == 1 && ss.Views()[0].idx == 0 && AllBuffered(ss.Views())
    requires TracksOne(ss.Views()[0], ub)
    requires !Faulty(box.sent) && Progress(box.Emitted(), target, ub)
    modifies ss, ss.all
    ensures !ok ==> SomeCracked(old(ss.Views()))
    ensures !Faulty(box'.sent) && Progress(box'.Emitted(), target, ub')
    ensures ok ==> ub' == multiset{}
  {
    ok, box', ub' := true, box, ub;
    while |ss.streams| == 1
      invariant ss.Valid() && |ss.streams| <= 1 && AllBuffered(ss.Views()) && ok
      invariant |ss.streams| == 1 ==> ss.Views()[0].idx == 0
      invariant DiffState(ss.Views(), ub', multiset{})
      invariant !Faulty(box'.sent) && Progress(box'.Emitted(), target, ub')
      invariant SomeCracked(ss.Views()) ==> SomeCracked(old(ss.Views()))
      decreases Work(ss.Views())
    {
      ok, box', ub' := DrainRound(ss, box', ub', target);
      if !ok { return; }
    }
  }
}
