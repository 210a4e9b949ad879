/** Finite message channels and the batching streams that read them. */
module IteratorStreams {
  import opened Options
  import opened Order
  import opened TupleText
  import opened Multisets

  /** What is left in an iterator: its items, then either the end or a failure. */
  datatype Iter = Iter(items: seq<string>, fails: bool)

  /** A channel message: an iterator over a batch of objects, or an error. */
  datatype Msg = Batch(iter: Iter) | Failed

  /** A read from a stream: an object, ErrIteratorDone, or some other error. */
  datatype Read = Item(obj: string) | Done | Fail

  /** All objects in a channel, in order of arrival. */
  function Items(ch: seq<Msg>): seq<string> {
    if ch == [] then []
    else (if ch[0].Batch? then ch[0].iter.items else []) + Items(ch[1..])
  }

  predicate IsFault(m: Msg) {
    m.Failed? || m.iter.fails
  }

  /** Some message of the channel carries an error. */
  predicate Faulty(ch: seq<Msg>) {
    exists i :: 0 <= i < |ch| && IsFault(ch[i])
  }

  /** `s` enumerates `m` in ascending order: all of it, or a first part of it when a fault cut it short. */
  ghost predicate Enumerates(s: seq<string>, faulty: bool, m: multiset<string>) {
    && Ascending(s)
    && multiset(s) <= m
    && (forall x, y :: x in s && y in m - multiset(s) ==> Leq(x, y))
    && (!faulty ==> multiset(s) == m)
    && (forall x :: x in m ==> ValidObject(x))
  }

  /** The value of a stream's fields. */
  datatype View = View(idx: nat, buffer: Option<Iter>, closed: bool, source: seq<Msg>) {

    /** Objects the stream has still to deliver. */
    function Remaining(): seq<string> {
      (if buffer.Some? then buffer.value.items else []) + Items(source)
    }

    predicate Cracked() {
      (buffer.Some? && buffer.value.fails) || Faulty(source)
    }

    /** Termination measure: items, unread batches, held buffer, open source. */
    function Size(): nat {
      |Remaining()| + 2 * |source| + (if buffer.Some? then 1 else 0) + (if closed then 0 else 1)
    }

    predicate IsDone() {
      closed && buffer.None?
    }

    predicate HasHead() {
      buffer.Some? && buffer.value.items != []
    }

    function Peek(): (r: Read) {
      if buffer.None? then Done
      else if buffer.value.items != [] then Item(buffer.value.items[0])
      else if buffer.value.fails then Fail
      else Done
    }

    /** A buffer that reports the end is dropped. */
    function DropEmpty(): View {
      if buffer == Some(Iter([], false)) then this.(buffer := None) else this
    }

    function Advance(): View {
      if HasHead() then this.(buffer := Some(buffer.value.(items := buffer.value.items[1..])))
      else DropEmpty()
    }

    function Skip(target: string): View {
      if buffer.None? then this
      else this.(buffer := Some(buffer.value.(items := DropLess(buffer.value.items, target)))).DropEmpty()
    }

    function Fetch(): View {
      if buffer.Some? || closed then this
      else if source == [] then this.(closed := true)
      else if source[0].Failed? then this.(source := source[1..])
      else this.(buffer := Some(source[0].iter), source := source[1..])
    }

    /** Polling the source now would deliver an error. */
    predicate FetchFails() {
      buffer.None? && !closed && source != [] && source[0].Failed?
    }
  }

  /** Drops the leading objects below `target`. */
  function DropLess(s: seq<string>, target: string): (r: seq<string>)
    ensures |r| <= |s|
  {
    if s != [] && Less(s[0], target) then DropLess(s[1..], target) else s
  }

  class Stream {
    const idx: nat
    var buffer: Option<Iter>
    var sourceIsClosed: bool
    var source: seq<Msg>

    constructor (idx: nat, source: seq<Msg>)
      ensures this.idx == idx && buffer == None && !sourceIsClosed && this.source == source
    {
      this.idx := idx;
      this.source := source;
      buffer := None;
      sourceIsClosed := false;
    }

    function State(): View
      reads this
    {
      View(idx, buffer, sourceIsClosed, source)
    }

    method Head() returns (r: Read)
      modifies this
      ensures r == old(State()).Peek()
      ensures State() == old(State()).DropEmpty()
    {
      if buffer.None? { return Done; }
      if buffer.value.items != [] { return Item(buffer.value.items[0]); }
      if buffer.value.fails { return Fail; }
      buffer := None;
      return Done;
    }

    method Next() returns (r: Read)
      modifies this
      ensures r == old(State()).Peek()
      ensures State() == old(State()).Advance()
    {
      if buffer.None? { return Done; }
      if buffer.value.items != [] {
        r := Item(buffer.value.items[0]);
        buffer := Some(Iter(buffer.value.items[1..], buffer.value.fails));
        return;
      }
      if buffer.value.fails { return Fail; }
      buffer := None;
      return Done;
    }

    /** Moves the buffer to its first object >= target; a drained buffer is dropped. */
    method SkipToTargetObject(target: string) returns (ok: bool)
      modifies this
      ensures State() == if ValidObject(target) then old(State()).Skip(target) else old(State())
      ensures ok <==> ValidObject(target) && !(State().Peek().Fail?)
    {
      if !ValidObject(target) { return false; }
      ghost var start := State();
      var t := Head();
      if !t.Item? { return t.Done?; }
      while t.Item? && Less(t.obj, target)
        invariant t == State().Peek()
        invariant State().Skip(target) == start.Skip(target)
        invariant buffer != Some(Iter([], false))
        decreases State().Size()
      {
        var _ := Next();
        t := Head();
      }
      return !t.Fail?;
    }

    /** Takes every object of the buffer. */
    method Drain() returns (batch: seq<string>, ok: bool)
      modifies this
      ensures ok <==> !(old(State()).buffer.Some? && old(State()).buffer.value.fails)
      ensures !ok ==> batch == []
      ensures ok ==> batch == if old(State()).buffer.Some? then old(State()).buffer.value.items else []
      ensures ok ==> State() == old(State()).(buffer := None)
    {
      batch := [];
      ghost var start := State();
      var t := Next();
      while t.Item?
        invariant State().(buffer := None) == start.(buffer := None)
        invariant t.Item? ==>
          buffer.Some? && start.buffer.Some? && start.buffer.value.fails == buffer.value.fails &&
          start.buffer.value.items == batch + [t.obj] + buffer.value.items
        invariant t.Done? ==>
          buffer.None? &&
            (if start.buffer.Some? then !start.buffer.value.fails && start.buffer.value.items == batch else batch == [])
        invariant t.Fail? ==> start.buffer.Some? && start.buffer.value.fails
        decreases State().Size(), t.Item?
      {
        batch := batch + [t.obj];
        t := Next();
      }
      if t.Fail? { return [], false; }
      return batch, true;
    }

    method FetchSource() returns (ok: bool)
      modifies this
      ensures ok <==> !old(State()).FetchFails()
      ensures State() == old(State()).Fetch()
    {
      if buffer.Some? || sourceIsClosed { return true; }
      if source == [] {
        sourceIsClosed := true;
        return true;
      }
      var i := source[0];
      source := source[1..];
      if i.Failed? { return false; }
      buffer := Some(i.iter);
      return true;
    }
  }

  function SumSize(vs: seq<View>): nat {
    if vs == [] then 0 else vs[0].Size() + SumSize(vs[1..])
  }

  function FetchAll(vs: seq<View>): (r: seq<View>)
    ensures |r| == |vs|
    ensures forall i :: 0 <= i < |vs| ==> r[i] == vs[i].Fetch()
  {
    if vs == [] then [] else [vs[0].Fetch()] + FetchAll(vs[1..])
  }

  function DoneFlags(vs: seq<View>): (r: seq<bool>)
    ensures |r| == |vs|
    ensures forall i :: 0 <= i < |vs| ==> r[i] == vs[i].IsDone()
  {
    if vs == [] then [] else [vs[0].IsDone()] + DoneFlags(vs[1..])
  }

  /** The views after a successful clean-up: every source polled, drained and closed streams removed. */
  function Cleaned(vs: seq<View>): seq<View> {
    Keep(FetchAll(vs), DoneFlags(FetchAll(vs)))
  }

  /** `us[i]` is what stream `i` still stands for. */
  ghost predicate Tracks(vs: seq<View>, us: seq<multiset<string>>) {
    && |vs| == |us|
    && forall i :: 0 <= i < |vs| ==> TracksOne(vs[i], us[i])
  }

  ghost predicate TracksOne(v: View, u: multiset<string>) {
    && (v.closed ==> v.source == [])
    && Enumerates(v.Remaining(), v.Cracked(), u)
  }

  class Streams {
    var streams: seq<Stream>
    ghost const all: set<Stream>

    constructor (streams: seq<Stream>)
      requires forall i, j :: 0 <= i < j < |streams| ==> streams[i] != streams[j]
      ensures this.streams == streams && Valid()
      ensures all == set s | s in streams
    {
      this.streams := streams;
      all := set s | s in streams;
    }

    ghost predicate Valid()
      reads this
    {
      && (forall i :: 0 <= i < |streams| ==> streams[i] in all)
      && (forall i, j :: 0 <= i < j < |streams| ==> streams[i] != streams[j])
    }

    ghost function Views(): (vs: seq<View>)
      reads this, streams
      ensures |vs| == |streams|
      ensures forall i :: 0 <= i < |vs| ==> vs[i] == streams[i].State()
    {
      ViewsOf(streams)
    }

    /** Polls the source of every stream, stopping at the first error. */
    method PollSources() returns (ok: bool)
      requires Valid()
      modifies all
      ensures ok ==> Views() == FetchAll(old(Views()))
      ensures !ok <==> exists i :: 0 <= i < |streams| && old(Views())[i].FetchFails()
    {
      ghost var start := Views();
      var ss := streams;
      var i := 0;
      while i < |ss|
        invariant 0 <= i <= |ss| && streams == ss
        invariant forall k :: 0 <= k < i ==> !start[k].FetchFails() && ss[k].State() == start[k].Fetch()
        invariant forall k :: i <= k < |ss| ==> ss[k].State() == start[k]
      {
        var polled := ss[i].FetchSource();
        if !polled { return false; }
        i := i + 1;
      }
      return true;
    }

    method CleanDone() returns (ok: bool)
      requires Valid()
      modifies this, all
      ensures Valid()
      ensures ok ==> Views() == Cleaned(old(Views()))
      ensures ok ==> streams == Keep(old(streams), DoneFlags(FetchAll(old(Views()))))
      ensures !ok <==> exists i :: 0 <= i < |old(Views())| && old(Views())[i].FetchFails()
    {
      ok := PollSources();
      if ok {
        ghost var polled := Views();
        ghost var before := streams;
        streams := DeleteDone(streams);
        KeepViews(before, DoneFlags(polled));
        KeepDistinct(before, DoneFlags(polled));
        KeepMembers(before, DoneFlags(polled));
      }
    }
  }

  lemma {:induction false} KeepViews(ss: seq<Stream>, dead: seq<bool>)
    requires |ss| == |dead|
    ensures ViewsOf(Keep(ss, dead)) == Keep(ViewsOf(ss), dead)
  {
    if ss != [] {
      KeepViews(ss[1..], dead[1..]);
      var k := Keep(ss, dead);
      if !dead[0] { assert k[0] == ss[0] && k[1..] == Keep(ss[1..], dead[1..]); }
      else { assert k == Keep(ss[1..], dead[1..]); }
    }
  }

  ghost function ViewsOf(ss: seq<Stream>): (vs: seq<View>)
    reads ss
    ensures |vs| == |ss|
    ensures forall i :: 0 <= i < |vs| ==> vs[i] == ss[i].State()
  {
    if ss == [] then [] else [ss[0].State()] + ViewsOf(ss[1..])
  }

  /** slices.DeleteFunc with Stream.isDone. */
  function DeleteDone(ss: seq<Stream>): (r: seq<Stream>)
    reads ss
    ensures r == Keep(ss, DoneFlags(ViewsOf(ss)))
  {
    if ss == [] then []
    else (if ss[0].State().IsDone() then [] else [ss[0]]) + DeleteDone(ss[1..])
  }

  lemma KeepMembers<T>(s: seq<T>, dead: seq<bool>)
    requires |s| == |dead|
    ensures forall k :: 0 <= k < |Keep(s, dead)| ==> Keep(s, dead)[k] in s
  {
  }

  lemma {:induction false} KeepDistinct<T>(s: seq<T>, dead: seq<bool>)
    requires |s| == |dead|
    requires forall i, j :: 0 <= i < j < |s| ==> s[i] != s[j]
    ensures forall i, j :: 0 <= i < j < |Keep(s, dead)| ==> Keep(s, dead)[i] != Keep(s, dead)[j]
  {
    if s != [] {
      KeepDistinct(s[1..], dead[1..]);
      assert s[0] !in s[1..];
    }
  }
}
