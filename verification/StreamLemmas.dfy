/** What polling, advancing and skipping do to the multiset a stream still stands for. */
module StreamLemmas {
  import opened Options
  import opened Order
  import opened Multisets
  import opened IteratorStreams

  lemma FaultyCons(ch: seq<Msg>)
    requires ch != []
    ensures Faulty(ch) <==> IsFault(ch[0]) || Faulty(ch[1..])
  {
  }

  lemma {:induction false} ItemsAppend(ch: seq<Msg>, m: Msg)
    ensures Items(ch + [m]) == Items(ch) + (if m.Batch? then m.iter.items else [])
    ensures Faulty(ch + [m]) <==> Faulty(ch) || IsFault(m)
  {
    FaultyAppend(ch, m);
    if ch == [] {
      assert ch + [m] == [m] && [m][1..] == [];
    } else {
      var head, tail := if ch[0].Batch? then ch[0].iter.items else [], if m.Batch? then m.iter.items else [];
      ItemsAppend(ch[1..], m);
      assert (ch + [m])[1..] == ch[1..] + [m] && (ch + [m])[0] == ch[0];
      assert (head + Items(ch[1..])) + tail == head + (Items(ch[1..]) + tail);
    }
  }

  lemma FaultyAppend(ch: seq<Msg>, m: Msg)
    ensures Faulty(ch + [m]) <==> Faulty(ch) || IsFault(m)
  {
    var all := ch + [m];
    assert all[|ch|] == m && forall i :: 0 <= i < |ch| ==> all[i] == ch[i];
  }

  /** Polling the source keeps what the stream stands for; a stream found done stands for nothing. */
  lemma FetchTracks(v: View, u: multiset<string>)
    requires TracksOne(v, u) && !v.FetchFails()
    ensures TracksOne(v.Fetch(), u)
    ensures v.Fetch().Cracked() <==> v.Cracked()
    ensures v.Fetch().Size() <= v.Size()
    ensures v.Fetch().IsDone() ==> u == multiset{}
    ensures !v.Fetch().IsDone() ==> v.Fetch().buffer.Some?
  {
    if v.buffer.None? && !v.closed && v.source != [] {
      FaultyCons(v.source);
      assert v.Fetch().Remaining() == v.Remaining();
    } else if v.buffer.None? {
      assert v.Fetch().Remaining() == v.Remaining() == [];
      assert multiset(v.Remaining()) == multiset{};
    }
  }

  lemma DropEmptyTracks(v: View, u: multiset<string>)
    requires TracksOne(v, u)
    ensures TracksOne(v.DropEmpty(), u)
    ensures v.DropEmpty().Cracked() <==> v.Cracked()
    ensures v.DropEmpty() != v ==> v.DropEmpty().Size() < v.Size()
  {
  }

  lemma EndOfBuffer(v: View, u: multiset<string>)
    requires TracksOne(v, u) && v.buffer.Some? && v.Peek().Done?
    ensures TracksOne(v.(buffer := None), u)
    ensures v.DropEmpty() == v.(buffer := None)
    ensures v.DropEmpty().Cracked() <==> v.Cracked()
    ensures v.DropEmpty().Size() < v.Size()
  {
  }

  /** A present head is the least object the stream stands for. */
  lemma HeadLeast(v: View, u: multiset<string>, y: string)
    requires TracksOne(v, u) && v.HasHead() && y in u
    ensures v.buffer.value.items[0] in u
    ensures Leq(v.buffer.value.items[0], y)
  {
    var s := v.Remaining();
    assert s[0] == v.buffer.value.items[0];
    assert s[0] in multiset(s);
    if y in multiset(s) { HeadIsLeast(s, y); } else { assert y in u - multiset(s); }
  }

  lemma EnumeratesTail(s: seq<string>, faulty: bool, u: multiset<string>)
    requires s != [] && Enumerates(s, faulty, u)
    ensures Enumerates(s[1..], faulty, u - multiset{s[0]})
  {
    TailMultiset(s);
    assert (u - multiset{s[0]}) - multiset(s[1..]) == u - multiset(s);
  }

  lemma AdvanceTracks(v: View, u: multiset<string>)
    requires TracksOne(v, u) && v.HasHead()
    ensures TracksOne(v.Advance(), u - multiset{v.buffer.value.items[0]})
    ensures v.Advance().Cracked() <==> v.Cracked()
    ensures v.Advance().Size() < v.Size()
  {
    assert v.Advance().Remaining() == v.Remaining()[1..];
    EnumeratesTail(v.Remaining(), v.Cracked(), u);
  }

  /** What a stream stands for after skipping: some objects below the target are gone. */
  ghost function Skipped(v: View, u: multiset<string>, target: string): multiset<string>
    requires v.buffer.Some?
    decreases |v.buffer.value.items|
  {
    if v.HasHead() && Less(v.buffer.value.items[0], target)
    then Skipped(v.Advance(), u - multiset{v.buffer.value.items[0]}, target)
    else u
  }

  lemma {:induction false} SkippedBelow(v: View, u: multiset<string>, target: string, x: string)
    requires v.buffer.Some?
    ensures Skipped(v, u, target)[x] <= u[x]
    ensures Skipped(v, u, target)[x] < u[x] ==> Less(x, target)
    decreases |v.buffer.value.items|
  {
    if v.HasHead() && Less(v.buffer.value.items[0], target) {
      SkippedBelow(v.Advance(), u - multiset{v.buffer.value.items[0]}, target, x);
    }
  }

  lemma SkipUnfold(v: View, target: string)
    requires v.buffer.Some?
    ensures v.Skip(target) ==
      if v.HasHead() && Less(v.buffer.value.items[0], target) then v.Advance().Skip(target) else v.DropEmpty()
  {
  }

  lemma {:induction false} SkipTracks(v: View, u: multiset<string>, target: string)
    requires TracksOne(v, u) && v.buffer.Some?
    ensures TracksOne(v.Skip(target), Skipped(v, u, target))
    ensures v.Skip(target).Cracked() <==> v.Cracked()
    ensures v.Skip(target).Size() <= v.Size()
    ensures v.HasHead() && Less(v.buffer.value.items[0], target) ==> v.Skip(target).Size() < v.Size()
    decreases |v.buffer.value.items|
  {
    SkipUnfold(v, target);
    if v.HasHead() && Less(v.buffer.value.items[0], target) {
      AdvanceTracks(v, u);
      SkipTracks(v.Advance(), u - multiset{v.buffer.value.items[0]}, target);
    } else {
      DropEmptyTracks(v, u);
    }
  }

  lemma {:induction false} SumSizeMonotone(vs: seq<View>, ws: seq<View>)
    requires |vs| == |ws|
    requires forall i :: 0 <= i < |vs| ==> ws[i].Size() <= vs[i].Size()
    ensures SumSize(ws) <= SumSize(vs)
    ensures (exists i :: 0 <= i < |vs| && ws[i].Size() < vs[i].Size()) ==> SumSize(ws) < SumSize(vs)
  {
    if vs != [] {
      SumSizeMonotone(vs[1..], ws[1..]);
      if i :| 0 <= i < |vs| && ws[i].Size() < vs[i].Size() {
        if i > 0 { assert ws[1..][i - 1].Size() < vs[1..][i - 1].Size(); }
      }
    }
  }

  lemma {:induction false} SumSizeUpdate(vs: seq<View>, k: nat, w: View)
    requires k < |vs|
    ensures SumSize(vs[k := w]) == SumSize(vs) - vs[k].Size() + w.Size()
  {
    if k == 0 {
      assert vs[k := w][1..] == vs[1..];
    } else {
      assert vs[k := w][1..] == vs[1..][k - 1 := w];
      SumSizeUpdate(vs[1..], k - 1, w);
    }
  }

  lemma {:induction false} SumSizeKeep(vs: seq<View>, dead: seq<bool>)
    requires |vs| == |dead|
    ensures SumSize(Keep(vs, dead)) <= SumSize(vs)
  {
    if vs != [] {
      SumSizeKeep(vs[1..], dead[1..]);
      var k := Keep(vs, dead);
      if !dead[0] { assert k[0] == vs[0] && k[1..] == Keep(vs[1..], dead[1..]); }
      else { assert k == Keep(vs[1..], dead[1..]); }
    }
  }

  ghost predicate SomeCracked(vs: seq<View>) {
    exists i :: 0 <= i < |vs| && vs[i].Cracked()
  }

  ghost predicate AllBuffered(vs: seq<View>) {
    forall i :: 0 <= i < |vs| ==> vs[i].buffer.Some?
  }

  ghost predicate NoFetchFails(vs: seq<View>) {
    forall i :: 0 <= i < |vs| ==> !vs[i].FetchFails()
  }

  lemma FetchFailsCracked(v: View)
    requires v.FetchFails()
    ensures v.Cracked()
  {
  }

  /** The multisets of the streams that survive a clean-up. */
  ghost function CleanedTargets(vs: seq<View>, us: seq<multiset<string>>): seq<multiset<string>>
    requires |vs| == |us|
  {
    Keep(us, DoneFlags(FetchAll(vs)))
  }

  /**
   * A successful clean-up: surviving streams all hold a buffer and stand for what they stood for,
   * removed streams stood for nothing, and the measure has not grown.
   */
  lemma CleanTracks(vs: seq<View>, us: seq<multiset<string>>)
    requires Tracks(vs, us) && NoFetchFails(vs)
    ensures Tracks(Cleaned(vs), CleanedTargets(vs, us))
    ensures AllBuffered(Cleaned(vs))
    ensures SumSize(Cleaned(vs)) <= SumSize(vs)
    ensures SomeCracked(Cleaned(vs)) ==> SomeCracked(vs)
    ensures JoinAll(CleanedTargets(vs, us)) == JoinAll(us)
    ensures |Cleaned(vs)| < |vs| ==> exists i :: 0 <= i < |us| && us[i] == multiset{}
  {
    var ws := FetchAll(vs);
    var dead := DoneFlags(ws);
    forall i | 0 <= i < |vs|
      ensures TracksOne(ws[i], us[i]) && ws[i].Size() <= vs[i].Size() && (ws[i].Cracked() <==> vs[i].Cracked())
      ensures (dead[i] ==> us[i] == multiset{}) && (!dead[i] ==> ws[i].buffer.Some?)
    {
      FetchTracks(vs[i], us[i]);
    }
    SumSizeMonotone(vs, ws);
    SumSizeKeep(ws, dead);
    JoinKeep(us, dead);
    KeepAll(ws, dead);
    KeepSameLength(ws, us, dead);
    forall k | 0 <= k < |Keep(ws, dead)|
      ensures TracksOne(Keep(ws, dead)[k], Keep(us, dead)[k]) && Keep(ws, dead)[k].buffer.Some?
      ensures Keep(ws, dead)[k].Cracked() ==> SomeCracked(vs)
    {
      var i := KeepOrigin(ws, us, dead, k);
    }
  }
}
