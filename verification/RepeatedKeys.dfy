/**
 * What the ordered merge delivers of a single input with repeated keys, and exactly when it delivers
 * every key.
 */
module RepeatedKeys {
  import opened Options
  import opened Order
  import opened OrderedMerge
  import opened MergeRuns
  import opened Blocks

  /** No key occurs three times in a sorted input. */
  predicate AtMostTwice(items: seq<Entry>) {
    forall i :: 0 <= i < |items| - 2 ==> items[i].key != items[i + 2].key
  }

  /** For each key in order, whether it is doubled. */
  function Doubles(items: seq<Entry>): seq<bool> {
    if items == [] then []
    else if |items| > 1 && items[0].key == items[1].key then [true] + Doubles(items[2..])
    else [false] + Doubles(items[1..])
  }

  /** Every key of the input is delivered. */
  ghost predicate AllDelivered(items: seq<Entry>) {
    forall x :: x in items ==> Delivers(SoleRun(items, None), x.key)
  }

  ghost predicate Delivers(out: seq<Entry>, key: string) {
    exists y :: y in out && y.key == key
  }

  // ------------------------------------------------------------ runs, from the front

  lemma {:induction false} RunMembers(items: seq<Entry>, last: Option<string>)
    ensures forall x :: x in SoleRun(items, last) ==> x in items
    decreases |items|
  {
    var rest := Reread(items, last);
    BehindSuffix(items, last);
    if rest != [] { RunMembers(rest[1..], Some(rest[0].key)); }
  }

  /** Where the input does not start with the last key, that key makes no difference. */
  lemma FreshRun(items: seq<Entry>, last: Option<string>)
    requires items == [] || last.None? || items[0].key != last.value
    ensures SoleRun(items, last) == SoleRun(items, None)
    ensures items != [] ==> SoleRun(items, last) == [items[0]] + SoleRun(items[1..], Some(items[0].key))
  {
  }

  /** Behind a step to another key at `k`, no earlier key comes back. */
  lemma SortedApart(items: seq<Entry>, k: nat, i: nat, j: nat)
    requires Sorted(items) && 0 < k < |items| && items[k - 1].key != items[k].key && i < k <= j < |items|
    ensures items[i].key != items[j].key
  {
    if items[i].key == items[j].key { Squeezed(items[i].key, items[k - 1].key, items[k].key); }
  }

  /** Keys between equal keys are equal. */
  lemma Squeezed(a: string, b: string, c: string)
    requires Leq(a, b) && Leq(b, c) && Leq(c, a)
    ensures b == c
  {
    LeqTransitive(c, a, b);
    LeqAntisymmetric(b, c);
  }

  lemma Tails(items: seq<Entry>, k: nat)
    requires Sorted(items) && AtMostTwice(items) && k <= |items|
    ensures Sorted(items[k..]) && AtMostTwice(items[k..])
  {
    var rest := items[k..];
    assert forall i :: 0 <= i < |rest| ==> rest[i] == items[k + i];
    forall i | 0 <= i < |rest| - 2
      ensures rest[i].key != rest[i + 2].key
    {
      assert items[k + i].key != items[(k + i) + 2].key;
    }
  }

  lemma DeliversConcat(a: seq<Entry>, b: seq<Entry>, key: string)
    ensures Delivers(a + b, key) <==> Delivers(a, key) || Delivers(b, key)
  {
    if Delivers(a, key) {
      var y :| y in a && y.key == key;
      assert y in a + b;
    }
    if Delivers(b, key) {
      var y :| y in b && y.key == key;
      assert y in a + b;
    }
  }

  /** The keys delivered for the first `k` items are exactly theirs, and the rest is delivered by `tail`. */
  ghost predicate Front(items: seq<Entry>, k: nat, front: seq<Entry>, tail: seq<Entry>) {
    && k <= |items| && SoleRun(items, None) == front + tail
    && (forall i :: 0 <= i < k ==> Delivers(front, items[i].key)) &&
         (forall j :: k <= j < |items| ==> !Delivers(front, items[j].key))
  }

  /** Then all is delivered exactly if the rest is. */
  lemma FrontDelivered(items: seq<Entry>, k: nat, front: seq<Entry>)
    requires k <= |items| && Front(items, k, front, SoleRun(items[k..], None))
    ensures AllDelivered(items) <==> AllDelivered(items[k..])
  {
    var tail, rest := SoleRun(items[k..], None), items[k..];
    forall i | 0 <= i < |items|
      ensures Delivers(SoleRun(items, None), items[i].key) <==> i < k || Delivers(tail, items[i].key)
    {
      DeliversConcat(front, tail, items[i].key);
    }
    assert forall i :: 0 <= i < |rest| ==> rest[i] == items[k + i];
    if AllDelivered(items) {
      forall x | x in rest ensures Delivers(tail, x.key) {
        var i :| 0 <= i < |rest| && rest[i] == x;
        assert items[k + i] in items;
      }
    }
    if AllDelivered(rest) {
      forall x | x in items ensures Delivers(SoleRun(items, None), x.key) {
        var i :| 0 <= i < |items| && items[i] == x;
        if i >= k { assert rest[i - k] in rest; }
      }
    }
  }

  /** A key that is not doubled is delivered, and the rest is read afresh. */
  lemma SingleDelivered(items: seq<Entry>)
    requires Sorted(items) && items != [] && (|items| > 1 ==> items[0].key != items[1].key)
    ensures AllDelivered(items) <==> AllDelivered(items[1..])
  {
    FreshRun(items, None);
    FreshRun(items[1..], Some(items[0].key));
    assert items[0] in [items[0]];
    forall j | 1 <= j < |items| ensures !Delivers([items[0]], items[j].key) { SortedApart(items, 1, 0, j); }
    FrontDelivered(items, 1, [items[0]]);
  }

  /** Behind a copy of the last key one item is lost. */
  lemma RereadCopy(items: seq<Entry>, last: Option<string>)
    requires items != [] && last == Some(items[0].key) && (|items| > 1 ==> items[1].key != items[0].key)
    ensures Reread(items, last) == if |items| == 1 then [] else items[2..]
  {
    var rest := items[1..];
    assert |items| > 1 ==> rest[0] == items[1] && rest[1..] == items[2..];
    assert Behind(rest, last) == rest;
    assert Behind(items, last) == rest && |rest| < |items|;
  }

  lemma RunStep(items: seq<Entry>, last: Option<string>)
    ensures var rest := Reread(items, last);
      SoleRun(items, last) == if rest == [] then [] else [rest[0]] + SoleRun(rest[1..], Some(rest[0].key))
  {
    BehindSuffix(items, last);
  }

  lemma CopyRun(items: seq<Entry>, last: Option<string>)
    requires items != [] && last == Some(items[0].key) && (|items| > 1 ==> items[1].key != items[0].key)
    ensures SoleRun(items, last) == if |items| <= 2 then [] else [items[2]] + SoleRun(items[3..], Some(items[2].key))
  {
    RereadCopy(items, last);
    RunStep(items, last);
    if |items| > 2 { assert items[2..][0] == items[2] && items[2..][1..] == items[3..]; }
  }

  /** After a doubled key, the run continues behind the item that follows its second copy. */
  lemma DoubleRun(items: seq<Entry>)
    requires |items| > 1 && items[0].key == items[1].key && (|items| > 2 ==> items[2].key != items[0].key)
    ensures |items| <= 3 ==> SoleRun(items, None) == [items[0]]
    ensures |items| > 3 ==> SoleRun(items, None) == [items[0]] + ([items[3]] + SoleRun(items[4..], Some(items[3].key)))
  {
    var rest := items[1..];
    FreshRun(items, None);
    assert |items| > 2 ==> rest[1] == items[2];
    assert |items| > 3 ==> rest[2] == items[3] && rest[3..] == items[4..];
    CopyRun(rest, Some(items[0].key));
  }

  /** Two doubled keys in a row are both delivered. */
  lemma PairDelivered(items: seq<Entry>)
    requires Sorted(items) && |items| > 3 && items[0].key == items[1].key != items[2].key == items[3].key
    requires |items| > 4 ==> items[4].key != items[3].key
    ensures AllDelivered(items) <==> AllDelivered(items[4..])
  {
    var front, tail := [items[0], items[3]], SoleRun(items[4..], None);
    PairRun(items);
    assert items[0] in front && items[3] in front;
    forall j | 4 <= j < |items| ensures !Delivers(front, items[j].key) {
      SortedApart(items, 4, 0, j);
      SortedApart(items, 4, 3, j);
    }
    FrontDelivered(items, 4, front);
  }

  lemma PairRun(items: seq<Entry>)
    requires |items| > 3 && items[0].key == items[1].key != items[2].key == items[3].key
    requires (|items| > 4 ==> items[4].key != items[3].key)
    ensures SoleRun(items, None) == [items[0], items[3]] + SoleRun(items[4..], None)
  {
    var a, d, tail := items[0], items[3], SoleRun(items[4..], Some(items[3].key));
    assert SoleRun(items, None) == [a] + ([d] + tail) by { DoubleRun(items); }
    assert tail == SoleRun(items[4..], None) by { FreshRun(items[4..], Some(d.key)); }
    assert [a] + ([d] + tail) == [a, d] + tail;
  }

  /** A key behind a doubled one is lost if it is not doubled itself. */
  lemma NextLost(items: seq<Entry>)
    requires Sorted(items) && |items| > 2 && items[0].key == items[1].key != items[2].key
    requires (|items| > 3 ==> items[3].key != items[2].key)
    ensures !AllDelivered(items)
  {
    LoneRun(items);
    forall y | y in SoleRun(items, None) ensures y.key != items[2].key {
      if y != items[0] {
        var j :| 3 <= j < |items| && items[j] == y;
        SortedApart(items, 3, 2, j);
      }
    }
    assert items[2] in items && !Delivers(SoleRun(items, None), items[2].key);
  }

  lemma LoneRun(items: seq<Entry>)
    requires |items| > 2 && items[0].key == items[1].key != items[2].key
    ensures forall y :: y in SoleRun(items, None) ==> y == items[0] || exists j :: 3 <= j < |items| && items[j] == y
  {
    DoubleRun(items);
    if |items| > 3 {
      var rest, tail := items[4..], SoleRun(items[4..], Some(items[3].key));
      RunMembers(rest, Some(items[3].key));
      forall y | y in SoleRun(items, None) ensures y == items[0] || exists j :: 3 <= j < |items| && items[j] == y {
        if y in tail {
          var i :| 0 <= i < |rest| && rest[i] == y;
          assert items[4 + i] == y;
        }
      }
    }
  }

  lemma {:induction false} PairedIffDelivered(items: seq<Entry>)
    requires Sorted(items) && AtMostTwice(items)
    ensures AllDelivered(items) <==> Paired(Doubles(items))
    decreases |items|, 1
  {
    if |items| > 0 {
      if |items| == 1 || items[0].key != items[1].key {
        Tails(items, 1);
        PairedIffDelivered(items[1..]);
        SingleDelivered(items);
        assert Doubles(items)[1..] == Doubles(items[1..]);
      } else if |items| == 2 {
        DoubledLast(items);
      } else {
        assert items[0].key != items[0 + 2].key;
        DoubledFirst(items);
      }
    }
  }

  lemma DoubledLast(items: seq<Entry>)
    requires |items| == 2 && items[0].key == items[1].key
    ensures AllDelivered(items) && Paired(Doubles(items))
  {
    DoubleRun(items);
    assert items[0] in SoleRun(items, None);
    assert items[2..] == [] && Doubles(items) == [true];
  }

  lemma {:induction false} DoubledFirst(items: seq<Entry>)
    requires Sorted(items) && AtMostTwice(items) && |items| > 2 && items[0].key == items[1].key != items[2].key
    ensures AllDelivered(items) <==> Paired(Doubles(items))
    decreases |items|, 0
  {
    var rest := items[2..];
    assert Doubles(items) == [true] + Doubles(rest);
    assert rest[0] == items[2] && (|items| > 3 ==> rest[1] == items[3]);
    if |items| > 3 && items[2].key == items[3].key {
      assert |items| > 4 ==> items[2].key != items[2 + 2].key;
      assert rest[2..] == items[4..];
      Tails(items, 4);
      PairedIffDelivered(items[4..]);
      PairDelivered(items);
      PairStep(Doubles(items[4..]));
    } else {
      NextLost(items);
      LoneStep(Doubles(rest[1..]));
    }
  }

  /**
   * Of one sorted input in which each key occurs at most twice, the merge delivers every key if and only
   * if every maximal block of doubled keys that is not at the end has even length.
   */
  lemma DeliversAllIff(items: seq<Entry>)
    requires Sorted(items) && AtMostTwice(items)
    ensures AllDelivered(items) <==> EvenBlocks(Doubles(items))
  {
    PairedIffDelivered(items);
    PairedIffEven(Doubles(items));
  }

  // ------------------------------------------------------------ conditions

  /** If the second entry is met, so is the first. */
  predicate NoWorse(x: Entry, y: Entry) {
    y.cond.Met? ==> x.cond.Met?
  }

  /**
   * Of a doubled key the first copy is delivered, and of one right behind it the second; a key between
   * that is not doubled is lost. No entry whose condition is met may depend on what is dropped.
   */
  predicate Keeps(items: seq<Entry>) {
    if |items| < 2 then true
    else if items[0].key != items[1].key then Keeps(items[1..])
    else if |items| == 2 then NoWorse(items[0], items[1])
    else if |items| == 3 || items[2].key != items[3].key then
      NoWorse(items[0], items[1]) && !items[2].cond.Met? && Keeps(items[3..])
    else NoWorse(items[0], items[1]) && NoWorse(items[3], items[2]) && Keeps(items[4..])
  }

  /** Every entry whose condition is met is delivered. */
  ghost predicate MetDelivered(items: seq<Entry>) {
    MetIn(items, SoleRun(items, None))
  }

  /** The run delivers `front` for the first `k` items, whose keys do not come back, and goes on afresh. */
  lemma FrontMet(items: seq<Entry>, k: nat, front: seq<Entry>)
    requires Sorted(items) && 0 < k <= |items| && (k < |items| ==> items[k - 1].key != items[k].key)
    requires SoleRun(items, None) == front + SoleRun(items[k..], None) && forall y :: y in front ==> y in items[..k]
    ensures MetDelivered(items) <==> MetIn(items[..k], front) && MetDelivered(items[k..])
  {
    RunMembers(items[k..], None);
    SlicesApart(items, k);
    assert items == items[..k] + items[k..];
    SplitMet(items[..k], items[k..], front, SoleRun(items[k..], None));
  }

  lemma SlicesApart(items: seq<Entry>, k: nat)
    requires Sorted(items) && 0 < k <= |items| && (k < |items| ==> items[k - 1].key != items[k].key)
    ensures Apart(items[..k], items[k..])
  {
    forall x, y | x in items[..k] && y in items[k..] ensures x != y { KeysApart(items, k, x, y); }
  }

  ghost predicate Apart(head: seq<Entry>, rest: seq<Entry>) {
    forall x, y :: x in head && y in rest ==> x != y
  }

  ghost predicate MetIn(items: seq<Entry>, out: seq<Entry>) {
    forall x :: x in items && x.cond.Met? ==> x in out
  }

  lemma SplitMet(head: seq<Entry>, rest: seq<Entry>, front: seq<Entry>, tail: seq<Entry>)
    requires (forall y :: y in front ==> y in head) && (forall y :: y in tail ==> y in rest)
    requires Apart(head, rest)
    ensures MetIn(head + rest, front + tail) <==> MetIn(head, front) && MetIn(rest, tail)
  {
    forall x ensures x in head + rest <==> x in head || x in rest {}
    forall x ensures x in front + tail <==> x in front || x in tail {}
    if MetIn(head + rest, front + tail) {
      forall x | x in head && x.cond.Met? ensures x in front { assert x in head + rest; }
      forall x | x in rest && x.cond.Met? ensures x in tail { assert x in head + rest; }
    }
  }

  lemma KeysApart(items: seq<Entry>, k: nat, x: Entry, y: Entry)
    requires Sorted(items) && 0 < k < |items| && items[k - 1].key != items[k].key && x in items[..k] && y in items[k..]
    ensures x.key != y.key
  {
    var i :| 0 <= i < k && items[..k][i] == x;
    var j :| 0 <= j < |items[k..]| && items[k..][j] == y;
    assert items[i] == x && items[k + j] == y;
    SortedApart(items, k, i, k + j);
  }

  /** A doubled key is delivered by its first copy; one behind it that is not doubled is lost. */
  lemma LostRun(items: seq<Entry>)
    requires |items| > 2 && items[0].key == items[1].key != items[2].key
    requires (|items| > 3 ==> items[3].key != items[2].key)
    ensures SoleRun(items, None) == [items[0]] + SoleRun(items[3..], None)
  {
    DoubleRun(items);
    if |items| > 3 {
      FreshRun(items[3..], None);
      assert items[3..][0] == items[3] && items[3..][1..] == items[4..];
    }
  }

  lemma {:induction false} KeepsIff(items: seq<Entry>)
    requires Sorted(items) && AtMostTwice(items)
    ensures MetDelivered(items) <==> Keeps(items)
    decreases |items|, 1
  {
    if |items| > 0 {
      if |items| == 1 || items[0].key != items[1].key {
        Tails(items, 1);
        KeepsIff(items[1..]);
        FreshRun(items, None);
        FreshRun(items[1..], Some(items[0].key));
        assert items[..1] == [items[0]];
        FrontMet(items, 1, [items[0]]);
      } else if |items| == 2 {
        DoubleRun(items);
        assert items[2..] == [] && items[..2] == items && [items[0]] + SoleRun([], None) == [items[0]];
        FrontMet(items, 2, [items[0]]);
        CopiesMet(items[0], items[1], items[0]);
      } else {
        assert items[0].key != items[0 + 2].key;
        KeepsDoubled(items);
      }
    }
  }

  /** Of two copies one is delivered, which is enough if it is not the worse one. */
  lemma CopiesMet(x: Entry, y: Entry, kept: Entry)
    requires x.key == y.key && (kept == x || kept == y)
    ensures (forall e :: (e == x || e == y) && e.cond.Met? ==> e == kept) <==>
      (if kept == x then NoWorse(x, y) else NoWorse(y, x))
  {
  }

  lemma {:induction false} KeepsDoubled(items: seq<Entry>)
    requires Sorted(items) && AtMostTwice(items) && |items| > 2 && items[0].key == items[1].key != items[2].key
    ensures MetDelivered(items) <==> Keeps(items)
    decreases |items|, 0
  {
    if |items| == 3 || items[2].key != items[3].key {
      Tails(items, 3);
      KeepsIff(items[3..]);
      LostSplit(items);
    } else {
      assert |items| > 4 ==> items[2].key != items[2 + 2].key;
      Tails(items, 4);
      KeepsIff(items[4..]);
      PairSplit(items);
    }
  }

  lemma LostSplit(items: seq<Entry>)
    requires Sorted(items) && |items| > 2 && items[0].key == items[1].key != items[2].key
    requires |items| == 3 || items[2].key != items[3].key
    ensures MetDelivered(items) <==>
      NoWorse(items[0], items[1]) && !items[2].cond.Met? && MetDelivered(items[3..])
  {
    LostRun(items);
    assert items[..3] == [items[0], items[1], items[2]];
    FrontMet(items, 3, [items[0]]);
    LostMet(items);
  }

  lemma PairSplit(items: seq<Entry>)
    requires Sorted(items) && |items| > 3 && items[0].key == items[1].key != items[2].key == items[3].key
    requires |items| > 4 ==> items[4].key != items[3].key
    ensures MetDelivered(items) <==>
      NoWorse(items[0], items[1]) && NoWorse(items[3], items[2]) && MetDelivered(items[4..])
  {
    PairRun(items);
    assert items[..4] == [items[0], items[1], items[2], items[3]];
    FrontMet(items, 4, [items[0], items[3]]);
    PairMet(items);
  }

  lemma LostMet(items: seq<Entry>)
    requires |items| > 2 && items[0].key == items[1].key != items[2].key
    ensures MetIn([items[0], items[1], items[2]], [items[0]]) <==>
      NoWorse(items[0], items[1]) && !items[2].cond.Met?
  {
    var three := [items[0], items[1], items[2]];
    assert three[1] in three && three[2] in three;
  }

  lemma PairMet(items: seq<Entry>)
    requires |items| > 3 && items[0].key == items[1].key != items[2].key == items[3].key
    ensures MetIn([items[0], items[1], items[2], items[3]], [items[0], items[3]]) <==>
      NoWorse(items[0], items[1]) && NoWorse(items[3], items[2])
  {
    var four := [items[0], items[1], items[2], items[3]];
    assert four[1] in four && four[2] in four;
  }

  /** If all conditions are met, only the blocks matter. */
  lemma KeepsIsEven(items: seq<Entry>)
    requires Sorted(items) && AtMostTwice(items) && forall x :: x in items ==> x.cond.Met?
    ensures Keeps(items) <==> EvenBlocks(Doubles(items))
  {
    KeepsIff(items);
    DeliversAllIff(items);
    RunMembers(items, None);
    forall x | x in items ensures x in SoleRun(items, None) <==> Delivers(SoleRun(items, None), x.key) {
      if Delivers(SoleRun(items, None), x.key) {
        var y :| y in SoleRun(items, None) && y.key == x.key;
        assert y in items && y == x;
      }
    }
  }
}
