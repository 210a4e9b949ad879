/** resolveFastPath: meeting a stream of objects from the user with a stream of objects from the tuple side. */
module TwoSided {
  import opened IteratorStreams
  import opened StreamLemmas

  /** A message of the right-hand channel: a userset or parent object, or an error. */
  datatype RightMsg = Found(obj: string) | LookupFailed

  /** The objects of the right-hand messages. */
  function FoundIn(right: seq<RightMsg>): set<string> {
    set i | 0 <= i < |right| && right[i].Found? :: right[i].obj
  }

  predicate RightFails(right: seq<RightMsg>) {
    exists i :: 0 <= i < |right| && right[i].LookupFailed?
  }

  function ItemSet(left: seq<Msg>): set<string> {
    set x | x in Items(left)
  }

  /** What resolveFastPath returns: Allowed, and whether an error comes with it. */
  datatype Answer = Answer(allowed: bool, err: bool)

  /** The two streams share an object. */
  predicate Meet(left: set<string>, right: set<string>) {
    left * right != {}
  }

  lemma FoundSnoc(right: seq<RightMsg>, j: nat)
    requires j < |right|
    ensures FoundIn(right[..j + 1]) == FoundIn(right[..j]) + (if right[j].Found? then {right[j].obj} else {})
    ensures RightFails(right[..j + 1]) <==> RightFails(right[..j]) || right[j].LookupFailed?
  {
  }

  lemma LeftSnoc(left: seq<Msg>, i: nat)
    requires i < |left|
    ensures left[..i + 1] == left[..i] + [left[i]]
    ensures ItemSet(left[..i + 1]) == ItemSet(left[..i]) + (if left[i].Batch? then set x | x in left[i].iter.items
      else {})
    ensures Faulty(left[..i + 1]) <==> Faulty(left[..i]) || IsFault(left[i])
  {
    assert left[..i + 1] == left[..i] + [left[i]];
    ItemsAppend(left[..i], left[i]);
  }

  /** Adds the items of one left batch, stopping at the first that the right side has seen. */
  method TakeBatch(items: seq<string>, leftSet: set<string>, rightSet: set<string>)
    returns (found: bool, leftSet': set<string>)
    ensures found <==> exists x :: x in items && x in rightSet
    ensures !found ==> leftSet' == leftSet + set x | x in items
  {
    leftSet' := leftSet;
    for k := 0 to |items|
      invariant leftSet' == leftSet + set x | x in items[..k]
      invariant forall x :: x in items[..k] ==> x !in rightSet
    {
      assert items[..k + 1] == items[..k] + [items[k]];
      leftSet' := leftSet' + {items[k]};
      if items[k] in rightSet { return true, leftSet'; }
    }
    assert items[..|items|] == items;
    return false, leftSet';
  }

  /** The consumer loop's state: what each side has delivered so far. */
  ghost predicate Consumed(left: seq<Msg>, right: seq<RightMsg>, i: nat, j: nat, leftSet: set<string>,
                           rightSet: set<string>, lastErr: bool) {
    && i <= |left| && j <= |right|
    && leftSet == ItemSet(left[..i])
    && rightSet == FoundIn(right[..j])
    && leftSet * rightSet == {}
    && (lastErr <==> Faulty(left[..i]) || RightFails(right[..j]))
  }

  /**
   * For every interleaving of the two channels: without errors the answer is whether they share an
   * object; an allowed answer never comes with an error; and a denial without an error is never given
   * after an error was received, nor before both channels are read to their end, unless one of them
   * has nothing to offer. `i` and `j` count the messages received from the left and the right.
   *
   * `leftFirst(k)` says which channel the k-th receive takes when both have something to deliver.
   */
  method ResolveFastPath(left: seq<Msg>, right: seq<RightMsg>, leftFirst: nat -> bool)
    returns (a: Answer, ghost i: nat, ghost j: nat)
    ensures i <= |left| && j <= |right|
    ensures a.allowed ==> !a.err && Meet(ItemSet(left), FoundIn(right))
    ensures !a.allowed && !a.err ==> !Meet(ItemSet(left), FoundIn(right))
    ensures !a.allowed && !a.err ==> !Faulty(left[..i]) && !RightFails(right[..j])
    ensures !a.allowed && !a.err ==> right == [] || (i == |left| && (ItemSet(left) == {} || j == |right|))
    ensures !a.allowed && !a.err ==>
      (right == [] || (ItemSet(left) == {} && !Faulty(left)) || (!Faulty(left) && !RightFails(right)))
    ensures a.err ==> Faulty(left) || RightFails(right)
  {
    i, j := 0, 0;
    if right == [] { return Answer(false, false), i, j; }
    if right[0].LookupFailed? { return Answer(false, true), i, 1; }
    var rightSet := {right[0].obj};
    var leftSet: set<string> := {};
    var leftOpen, rightOpen, lastErr := true, true, false;
    var l, r, k := 0, 1, 0;
    StartConsumed(left, right);
    while leftOpen || rightOpen
      invariant Consumed(left, right, l, r, leftSet, rightSet, lastErr)
      invariant !leftOpen ==> l == |left|
      invariant !rightOpen ==> r == |right|
      decreases |left| - l + |right| - r + (if leftOpen then 1 else 0) + (if rightOpen then 1 else 0)
    {
      var takeLeft := leftOpen && (!rightOpen || leftFirst(k));
      k := k + 1;
      if takeLeft {
        if l == |left| {
          leftOpen := false;
          assert left[..l] == left;
          if leftSet == {} {
            LeftEmpty(left, right, r, lastErr);
            return Answer(false, lastErr), l, r;
          }
        } else if left[l].Failed? {
          LeftFails(left, l);
          return Answer(false, true), l + 1, r;
        } else {
          var found, next := TakeBatch(left[l].iter.items, leftSet, rightSet);
          if found {
            LeftMeets(left, right, l, r, rightSet);
            return Answer(true, false), l + 1, r;
          }
          LeftSnoc(left, l);
          if left[l].iter.fails { lastErr := true; }
          leftSet := next;
          l := l + 1;
        }
      } else if r == |right| {
        rightOpen := false;
      } else if right[r].LookupFailed? {
        FoundSnoc(right, r);
        lastErr := true;
        r := r + 1;
      } else {
        FoundSnoc(right, r);
        var userset := right[r].obj;
        if userset in leftSet {
          RightMeets(left, right, l, r, leftSet);
          return Answer(true, false), l, r + 1;
        }
        rightSet := rightSet + {userset};
        r := r + 1;
      }
    }
    assert left[..l] == left && right[..r] == right;
    return Answer(false, lastErr), l, r;
  }

  lemma StartConsumed(left: seq<Msg>, right: seq<RightMsg>)
    requires right != [] && right[0].Found?
    ensures Consumed(left, right, 0, 1, {}, {right[0].obj}, false)
  {
  }

  lemma LeftEmpty(left: seq<Msg>, right: seq<RightMsg>, j: nat, lastErr: bool)
    requires j <= |right| && ItemSet(left) == {} && (lastErr <==> Faulty(left) || RightFails(right[..j]))
    ensures lastErr ==> Faulty(left) || RightFails(right)
    ensures !lastErr ==> !Faulty(left)
  {
  }

  lemma PrefixFails(right: seq<RightMsg>, j: nat)
    requires j <= |right|
    ensures RightFails(right[..j]) ==> RightFails(right)
    ensures FoundIn(right[..j]) <= FoundIn(right)
  {
  }

  lemma LeftFails(left: seq<Msg>, i: nat)
    requires i < |left| && left[i].Failed?
    ensures Faulty(left)
  {
  }

  lemma {:induction false} ItemOf(left: seq<Msg>, i: nat, x: string)
    requires i < |left| && left[i].Batch? && x in left[i].iter.items
    ensures x in Items(left)
  {
    if i > 0 {
      ItemOf(left[1..], i - 1, x);
      assert x in Items(left[1..]);
    }
  }

  lemma {:induction false} ItemFrom(left: seq<Msg>, x: string) returns (i: nat)
    requires x in Items(left)
    ensures i < |left| && left[i].Batch? && x in left[i].iter.items
  {
    if left[0].Batch? && x in left[0].iter.items {
      i := 0;
    } else {
      i := ItemFrom(left[1..], x);
      i := i + 1;
    }
  }

  lemma LeftMeets(left: seq<Msg>, right: seq<RightMsg>, i: nat, j: nat, rightSet: set<string>)
    requires i < |left| && left[i].Batch? && j <= |right| && rightSet == FoundIn(right[..j])
    requires exists x :: x in left[i].iter.items && x in rightSet
    ensures Meet(ItemSet(left), FoundIn(right))
  {
    var x :| x in left[i].iter.items && x in rightSet;
    ItemOf(left, i, x);
    PrefixFails(right, j);
    assert x in ItemSet(left) * FoundIn(right);
  }

  lemma RightMeets(left: seq<Msg>, right: seq<RightMsg>, i: nat, j: nat, leftSet: set<string>)
    requires i <= |left| && j < |right| && right[j].Found? && leftSet == ItemSet(left[..i]) && right[j].obj in leftSet
    ensures Meet(ItemSet(left), FoundIn(right))
  {
    var x := right[j].obj;
    var k := ItemFrom(left[..i], x);
    ItemOf(left, k, x);
    assert x in ItemSet(left) * FoundIn(right);
  }

  // ------------------------------------------------------------ fan-in

  /** The messages of all channels. */
  function MessagesOf(channels: seq<seq<Msg>>): multiset<Msg> {
    if channels == [] then multiset{} else multiset(channels[0]) + MessagesOf(channels[1..])
  }

  /** `left` delivers exactly the messages of all channels, in some order. */
  ghost predicate FansIn(left: seq<Msg>, channels: seq<seq<Msg>>) {
    multiset(left) == MessagesOf(channels)
  }

  ghost predicate InSome(m: Msg, channels: seq<seq<Msg>>) {
    exists c :: 0 <= c < |channels| && m in channels[c]
  }

  lemma {:induction false} MessagesIn(channels: seq<seq<Msg>>, m: Msg)
    ensures m in MessagesOf(channels) <==> InSome(m, channels)
  {
    if channels != [] {
      MessagesIn(channels[1..], m);
      if InSome(m, channels) {
        var c :| 0 <= c < |channels| && m in channels[c];
        if c > 0 { assert m in channels[1..][c - 1]; }
      }
      if InSome(m, channels[1..]) {
        var c :| 0 <= c < |channels[1..]| && m in channels[1..][c];
        assert m in channels[c + 1];
      }
    }
  }

  /** Fan-in neither loses nor adds objects or errors. */
  lemma FanInKeeps(left: seq<Msg>, channels: seq<seq<Msg>>)
    requires FansIn(left, channels)
    ensures forall x :: x in Items(left) <==> exists c :: 0 <= c < |channels| && x in Items(channels[c])
    ensures Faulty(left) <==> exists c :: 0 <= c < |channels| && Faulty(channels[c])
  {
    forall m ensures m in left <==> InSome(m, channels) {
      MessagesIn(channels, m);
      assert m in left <==> m in multiset(left);
    }
    forall x ensures x in Items(left) <==> exists c :: 0 <= c < |channels| && x in Items(channels[c]) {
      if x in Items(left) {
        var i := ItemFrom(left, x);
        assert InSome(left[i], channels);
        var c :| 0 <= c < |channels| && left[i] in channels[c];
        var k :| 0 <= k < |channels[c]| && channels[c][k] == left[i];
        ItemOf(channels[c], k, x);
      }
      if c :| 0 <= c < |channels| && x in Items(channels[c]) {
        var k := ItemFrom(channels[c], x);
        assert channels[c][k] in channels[c] && InSome(channels[c][k], channels);
        var i :| 0 <= i < |left| && left[i] == channels[c][k];
        ItemOf(left, i, x);
      }
    }
    if Faulty(left) {
      var i :| 0 <= i < |left| && IsFault(left[i]);
      assert InSome(left[i], channels);
      var c :| 0 <= c < |channels| && left[i] in channels[c];
      var k :| 0 <= k < |channels[c]| && channels[c][k] == left[i];
      assert Faulty(channels[c]);
    }
    if c :| 0 <= c < |channels| && Faulty(channels[c]) {
      var k :| 0 <= k < |channels[c]| && IsFault(channels[c][k]);
      assert channels[c][k] in channels[c] && InSome(channels[c][k], channels);
      var i :| 0 <= i < |left| && left[i] == channels[c][k];
      assert IsFault(left[i]);
    }
  }
}
