/**
 * What the ordered merge does with two inputs that share keys, each without repeated keys of its own:
 * contextual tuples and stored ones.
 */
module SharedKeys {
  import opened Options
  import opened Order
  import opened OrderedMerge
  import opened Blocks

  predicate HasKey(s: seq<Entry>, k: string) {
    exists i :: 0 <= i < |s| && s[i].key == k
  }

  /** For each item of the second input, whether its key was yielded last or is yet to come from the first input. */
  function Shared(a: seq<Entry>, b: seq<Entry>, last: Option<string>): (r: seq<bool>)
    ensures |r| == |b| && forall j :: 0 <= j < |b| ==> (r[j] <==> last == Some(b[j].key) || HasKey(a, b[j].key))
  {
    seq(|b|, j requires 0 <= j < |b| => last == Some(b[j].key) || HasKey(a, b[j].key))
  }

  // ------------------------------------------------------------ what is left of the inputs

  /** The pending inputs hold these items, none fails, and an exhausted input may be gone. */
  ghost predicate Holds(pending: seq<Option<Input>>, a: seq<Entry>, b: seq<Entry>) {
    NoFaults(pending) && HoldsLive(Live(pending), a, b)
  }

  ghost predicate HoldsLive(its: seq<Input>, a: seq<Entry>, b: seq<Entry>) {
    || (|its| == 2 && its[0].items == a && its[1].items == b)
    || (|its| == 1 && its[0].items == a && b == [])
    || (|its| == 1 && its[0].items == b && a == [])
    || (its == [] && a == [] && b == [])
  }

  /** Both are strictly sorted, the first is past the key yielded last, and the second not before it. */
  ghost predicate InOrder(a: seq<Entry>, b: seq<Entry>, last: Option<string>) {
    && StrictlySorted(a) && StrictlySorted(b)
    && (last.Some? ==> (forall x :: x in a ==> Less(last.value, x.key)) && (b != [] ==> Leq(last.value, b[0].key)))
  }

  /** The second input starts with the key yielded last. */
  predicate Copied(b: seq<Entry>, last: Option<string>) {
    b != [] && last == Some(b[0].key)
  }

  /** What looking at the second input leaves of it. */
  function Dropped(b: seq<Entry>, last: Option<string>): seq<Entry> {
    if !Copied(b, last) then b else if |b| == 1 then [] else b[2..]
  }

  /** The second input has a head to compare. */
  predicate HasHead(b: seq<Entry>, last: Option<string>) {
    if Copied(b, last) then |b| > 1 else b != []
  }

  function HeadOf(b: seq<Entry>, last: Option<string>): Entry
    requires HasHead(b, last)
  {
    if Copied(b, last) then b[1] else b[0]
  }

  /** An item behind a copy of the last key that will not come from the first input. */
  predicate Loses(a: seq<Entry>, b: seq<Entry>, last: Option<string>) {
    Copied(b, last) && |b| > 1 && !HasKey(a, b[1].key)
  }

  // ------------------------------------------------------------ looking at the inputs

  lemma SettleFirst(it: Input, last: Option<string>)
    requires !it.fails && (last.Some? ==> forall x :: x in it.items ==> Less(last.value, x.key))
    ensures Settle(it, last) == if it.items == [] then Gone else Ready(it, it.items[0])
  {
    if it.items != [] && last.Some? {
      assert it.items[0] in it.items;
      LessIrreflexive(last.value);
      NotBefore(last.value, it.items[0].key);
    }
  }

  lemma SettleSecond(it: Input, last: Option<string>)
    requires !it.fails && StrictlySorted(it.items)
    requires (last.Some? && it.items != [] ==> Leq(last.value, it.items[0].key))
    ensures Settle(it, last) ==
      if HasHead(it.items, last) then Ready(it.(items := Dropped(it.items, last)), HeadOf(it.items, last)) else Gone
  {
    var b := it.items;
    if Copied(b, last) {
      var rest := b[1..];
      if |b| > 1 {
        LessIrreflexive(b[0].key);
        assert rest[0] == b[1] && b[1].key != b[0].key && rest[1..] == b[2..];
        assert Behind(rest, last) == rest;
      }
      assert Behind(b, last) == rest && |rest| < |b|;
    } else if b != [] && last.Some? {
      NotBefore(last.value, b[0].key);
    }
  }

  /** The search points to the first input. */
  ghost predicate PointsFirst(s: Search, mid: seq<Option<Input>>, a: seq<Entry>, b: seq<Entry>, last: Option<string>) {
    && s.At? && s.idx < |mid| && mid[s.idx].Some? && !mid[s.idx].value.fails && a != [] && mid[s.idx].value.items == a
    && (HasHead(b, last) ==> Leq(a[0].key, HeadOf(b, last).key))
    && Holds(Advanced(mid, s.idx), a[1..], Dropped(b, last))
  }

  /** It points to the second input, whose head is less. */
  ghost predicate PointsSecond(s: Search, mid: seq<Option<Input>>, a: seq<Entry>, b: seq<Entry>, last: Option<string>) {
    && s.At? && s.idx < |mid| && mid[s.idx].Some? && !mid[s.idx].value.fails &&
         mid[s.idx].value.items == Dropped(b, last)
    && HasHead(b, last) && (a == [] || Less(HeadOf(b, last).key, a[0].key))
    && (Dropped(b, last) != [] ==> Holds(Advanced(mid, s.idx), a, Dropped(b, last)[1..]))
  }

  /** Two inputs with these items that do not fail. */
  ghost predicate Both(its: seq<Input>, a: seq<Entry>, b: seq<Entry>) {
    |its| == 2 && its[0].items == a && its[1].items == b && !its[0].fails && !its[1].fails
  }

  lemma BothSettled(its: seq<Input>, last: Option<string>, a: seq<Entry>, b: seq<Entry>)
    requires Both(its, a, b) && InOrder(a, b, last)
    ensures Settle(its[0], last) == if a == [] then Gone else Ready(its[0], a[0])
    ensures Settle(its[1], last) == if HasHead(b, last) then Ready(its[1].(items := Dropped(b, last)), HeadOf(b, last))
      else Gone
    ensures !SomeFault(its, last)
  {
    SettleFirst(its[0], last);
    SettleSecond(its[1], last);
    assert forall it :: it in its ==> it == its[0] || it == its[1];
  }

  lemma BothSwept(its: seq<Input>, last: Option<string>, mid: seq<Option<Input>>, a: seq<Entry>, b: seq<Entry>)
    requires Both(its, a, b) && InOrder(a, b, last) && Swept(its, last, mid)
    ensures mid == [if a == [] then None
      else Some(its[0]), if HasHead(b, last) then Some(its[1].(items := Dropped(b, last))) else None]
    ensures Holds(mid, a, Dropped(b, last))
  {
    BothSettled(its, last, a, b);
    assert SweptOne(its[0], last, mid[0]) && SweptOne(its[1], last, mid[1]);
    LiveTwo(mid);
  }

  lemma ChosenFirst(its: seq<Input>, last: Option<string>, mid: seq<Option<Input>>, a: seq<Entry>, b: seq<Entry>)
    requires Both(its, a, b) && InOrder(a, b, last) && Swept(its, last, mid) && Chosen(its, last, 0, 2)
    ensures PointsFirst(At(0), mid, a, b, last)
  {
    BothSettled(its, last, a, b);
    BothSwept(its, last, mid, a, b);
    LiveTwo(Advanced(mid, 0));
  }

  lemma ChosenSecond(its: seq<Input>, last: Option<string>, mid: seq<Option<Input>>, a: seq<Entry>, b: seq<Entry>)
    requires Both(its, a, b) && InOrder(a, b, last) && Swept(its, last, mid) && Chosen(its, last, 1, 2)
    ensures PointsSecond(At(1), mid, a, b, last)
  {
    BothSettled(its, last, a, b);
    BothSwept(its, last, mid, a, b);
    if Dropped(b, last) != [] { LiveTwo(Advanced(mid, 1)); }
  }

  /** A search over both inputs: the first is preferred. */
  lemma BothSearched(its: seq<Input>, last: Option<string>, s: Search, mid: seq<Option<Input>>, a: seq<Entry>,
                     b: seq<Entry>)
    requires Both(its, a, b) && InOrder(a, b, last) && Searched(its, last, s, mid)
    ensures !s.Stuck? && Holds(mid, a, Dropped(b, last)) && (s.Nowhere? ==> a == [] && !HasHead(b, last))
    ensures s.At? ==> PointsFirst(s, mid, a, b, last) || PointsSecond(s, mid, a, b, last)
  {
    BothSettled(its, last, a, b);
    BothSwept(its, last, mid, a, b);
    if s.At? {
      if s.idx == 0 { ChosenFirst(its, last, mid, a, b); } else { ChosenSecond(its, last, mid, a, b); }
    }
  }

  lemma LiveTwo(p: seq<Option<Input>>)
    requires |p| == 2
    ensures Live(p) == (if p[0].Some? then [p[0].value] else []) + (if p[1].Some? then [p[1].value] else [])
  {
    assert p[1..][1..] == [] && Live(p[1..]) == if p[1].Some? then [p[1].value] else [];
  }

  lemma LiveOne(p: seq<Option<Input>>)
    requires |p| == 1
    ensures Live(p) == if p[0].Some? then [p[0].value] else []
  {
    assert p[1..] == [] && Live(p[1..]) == [];
  }

  lemma FirstSearched(its: seq<Input>, last: Option<string>, s: Search, mid: seq<Option<Input>>, a: seq<Entry>)
    requires |its| == 1 && its[0].items == a && !its[0].fails && InOrder(a, [], last) && Searched(its, last, s, mid)
    ensures !s.Stuck? && Holds(mid, a, []) && (s.Nowhere? ==> a == []) && (s.At? ==> PointsFirst(s, mid, a, [], last))
  {
    SettleFirst(its[0], last);
    assert forall it :: it in its ==> it == its[0];
    assert SweptOne(its[0], last, mid[0]);
    LiveOne(mid);
    if s.At? { LiveOne(Advanced(mid, 0)); }
  }

  lemma SecondSearched(its: seq<Input>, last: Option<string>, s: Search, mid: seq<Option<Input>>, b: seq<Entry>)
    requires |its| == 1 && its[0].items == b && !its[0].fails && InOrder([], b, last) && Searched(its, last, s, mid)
    ensures !s.Stuck? && Holds(mid, [], Dropped(b, last)) && (s.Nowhere? ==> !HasHead(b, last))
    ensures (s.At? ==> PointsSecond(s, mid, [], b, last))
  {
    SettleSecond(its[0], last);
    assert forall it :: it in its ==> it == its[0];
    assert SweptOne(its[0], last, mid[0]);
    LiveOne(mid);
    if s.At? && Dropped(b, last) != [] { LiveOne(Advanced(mid, 0)); }
  }

  lemma NoneSearched(last: Option<string>, s: Search, mid: seq<Option<Input>>)
    requires Searched([], last, s, mid)
    ensures s.Nowhere? && mid == []
  {
  }

  /** What a search finds: no fault, and the first input is preferred. */
  ghost predicate Found(s: Search, mid: seq<Option<Input>>, a: seq<Entry>, b: seq<Entry>, last: Option<string>) {
    && !s.Stuck? && Holds(mid, a, Dropped(b, last))
    && (s.Nowhere? ==> a == [] && !HasHead(b, last))
    && (s.At? ==> PointsFirst(s, mid, a, b, last) || PointsSecond(s, mid, a, b, last))
  }

  lemma SearchFinds(was: seq<Option<Input>>, last: Option<string>, s: Search, mid: seq<Option<Input>>, a: seq<Entry>,
                    b: seq<Entry>)
    requires Holds(was, a, b) && InOrder(a, b, last) && Searched(Live(was), last, s, mid)
    ensures Found(s, mid, a, b, last)
  {
    var its := Live(was);
    LiveFaultless(was);
    if |its| == 2 {
      BothSearched(its, last, s, mid, a, b);
    } else if |its| == 1 && its[0].items == a && b == [] {
      FirstSearched(its, last, s, mid, a);
    } else if |its| == 1 {
      SecondSearched(its, last, s, mid, b);
    } else {
      NoneSearched(last, s, mid);
    }
  }

  lemma {:induction false} LiveFaultless(p: seq<Option<Input>>)
    requires NoFaults(p)
    ensures forall it :: it in Live(p) ==> !it.fails
  {
    if p != [] {
      assert forall i :: 0 <= i < |p[1..]| ==> p[1..][i] == p[i + 1];
      LiveFaultless(p[1..]);
    }
  }

  // ------------------------------------------------------------ keys delivered, left and lost

  /** Whatever the inputs held is delivered or left, from the first input where it has the key. */
  ghost predicate Covers(first: seq<Entry>, second: seq<Entry>, out: seq<Entry>, a: seq<Entry>, b: seq<Entry>) {
    && (forall k :: HasKey(first, k) || HasKey(second, k) ==> HasKey(out, k) || HasKey(a, k) || HasKey(b, k))
    && (forall x :: x in out ==> x in first || (x in second && !HasKey(first, x.key)))
    && (forall x :: x in a ==> x in first) && (forall x :: x in b ==> x in second)
  }

  /** So far nothing is lost, and something will be exactly if it would be from the start. */
  ghost predicate OnTrack(first: seq<Entry>, second: seq<Entry>, out: seq<Entry>, last: Option<string>, a: seq<Entry>,
                          b: seq<Entry>) {
    && InOrder(a, b, last) && Covers(first, second, out, a, b)
    && (forall x :: x in out ==> last.Some? && Leq(x.key, last.value)) && (last.Some? ==> HasKey(out, last.value))
    && (forall x :: x in first && (last.None? || Less(last.value, x.key)) ==> x in a)
    && (Paired(Shared(a, b, last)) <==> Paired(Shared(first, second, None)))
  }

  /** A key that is neither delivered nor left. */
  ghost predicate Misses(first: seq<Entry>, second: seq<Entry>, out: seq<Entry>, left: multiset<Entry>, z: string) {
    (HasKey(first, z) || HasKey(second, z)) && !HasKey(out, z) && forall x :: x in left ==> x.key != z
  }

  lemma HasKeyConcat(s: seq<Entry>, t: seq<Entry>, k: string)
    ensures HasKey(s + t, k) <==> HasKey(s, k) || HasKey(t, k)
  {
    var u := s + t;
    forall i | 0 <= i < |s| ensures u[i] == s[i] {}
    forall i | 0 <= i < |t| ensures u[|s| + i] == t[i] {}
  }

  lemma HasKeyHead(s: seq<Entry>, k: string)
    requires s != []
    ensures HasKey(s, k) <==> s[0].key == k || HasKey(s[1..], k)
  {
    assert s == [s[0]] + s[1..] && [s[0]][0] == s[0];
    HasKeyConcat([s[0]], s[1..], k);
  }

  /** Items behind a place have later keys. */
  lemma Later(s: seq<Entry>, i: nat, x: Entry)
    requires StrictlySorted(s) && i < |s| && x in s[i + 1..]
    ensures Less(s[i].key, x.key) && x.key != s[i].key
  {
    var j :| 0 <= j < |s[i + 1..]| && s[i + 1..][j] == x;
    assert s[i + 1 + j] == x;
    LessIrreflexive(x.key);
  }

  lemma SuffixStrict(s: seq<Entry>, k: nat)
    requires StrictlySorted(s) && k <= |s|
    ensures StrictlySorted(s[k..])
  {
    assert forall i :: 0 <= i < |s[k..]| ==> s[k..][i] == s[k + i];
  }

  /** What is left of the second input after it was looked at. */
  lemma DroppedKeys(a: seq<Entry>, b: seq<Entry>, last: Option<string>, k: string)
    requires InOrder(a, b, last) && !Loses(a, b, last)
    ensures HasKey(b, k) ==> last == Some(k) || HasKey(a, k) || HasKey(Dropped(b, last), k)
    ensures HasKey(Dropped(b, last), k) ==> HasKey(b, k)
  {
    if Copied(b, last) {
      HasKeyHead(b, k);
      if |b| > 1 {
        assert b[1..][0] == b[1] && b[1..][1..] == b[2..];
        HasKeyHead(b[1..], k);
      }
    }
  }

  lemma DroppedOrder(a: seq<Entry>, b: seq<Entry>, last: Option<string>)
    requires InOrder(a, b, last)
    ensures StrictlySorted(Dropped(b, last))
    ensures (forall x :: x in Dropped(b, last) ==> x in b && (last.Some? ==> Less(last.value, x.key)))
  {
    var d := Dropped(b, last);
    SuffixStrict(b, if Copied(b, last) && |b| > 1 then 2 else 0);
    forall x | x in d ensures x in b && (last.Some? ==> Less(last.value, x.key)) {
      var i :| 0 <= i < |d| && d[i] == x;
      if Copied(b, last) {
        assert b[2 + i] == x && Less(b[0].key, b[2 + i].key);
      } else if last.Some? {
        assert b[i] == x;
        if i > 0 { LessTransitive(last.value, b[0].key, b[i].key); }
      }
    }
  }

  /** Behind the key yielded last, it does not matter for the flags. */
  lemma FreshFlags(a: seq<Entry>, b: seq<Entry>, last: Option<string>)
    requires last.Some? ==> forall x :: x in b ==> x.key != last.value
    ensures Shared(a, b, last) == Shared(a, b, None)
  {
    forall j | 0 <= j < |b| ensures Shared(a, b, last)[j] == Shared(a, b, None)[j] { assert b[j] in b; }
  }

  /** Looking at the inputs takes a copy of the last key and a shared key behind it. */
  lemma CopiedFlags(a: seq<Entry>, b: seq<Entry>, last: Option<string>)
    requires StrictlySorted(b) && Copied(b, last) && |b| > 1 && HasKey(a, b[1].key)
    ensures Paired(Shared(a, b, last)) <==> Paired(Shared(a, b[2..], None))
  {
    var f, g := Shared(a, b, last), Shared(a, b[2..], None);
    forall j | 0 <= j < |g| ensures g[j] == f[2 + j] {
      assert b[2..][j] == b[2 + j];
      LessIrreflexive(b[0].key);
    }
    assert f == [true] + ([true] + g);
    PairStep(g);
  }

  lemma DroppedFlags(a: seq<Entry>, b: seq<Entry>, last: Option<string>)
    requires InOrder(a, b, last) && !Loses(a, b, last)
    ensures Paired(Shared(a, b, last)) <==> Paired(Shared(a, Dropped(b, last), None))
  {
    DroppedOrder(a, b, last);
    if !Copied(b, last) {
      forall x | x in b && last.Some? ensures x.key != last.value {
        assert x in Dropped(b, last);
        LessIrreflexive(last.value);
      }
      FreshFlags(a, b, last);
    } else if |b| > 1 {
      CopiedFlags(a, b, last);
    } else {
      assert Shared(a, b, last) == [true];
    }
  }

  /** Losing a key is not having paired flags. */
  lemma LosesFlags(a: seq<Entry>, b: seq<Entry>, last: Option<string>)
    requires StrictlySorted(b) && Loses(a, b, last)
    ensures !Paired(Shared(a, b, last))
  {
    LessIrreflexive(b[0].key);
    assert Shared(a, b, last)[0] && !Shared(a, b, last)[1];
  }

  // ------------------------------------------------------------ one read

  /** A preview, as far as it loses nothing. */
  lemma Previewed(first: seq<Entry>, second: seq<Entry>, out: seq<Entry>, last: Option<string>, a: seq<Entry>,
                  b: seq<Entry>)
    requires OnTrack(first, second, out, last, a, b) && !Loses(a, b, last)
    ensures OnTrack(first, second, out, last, a, Dropped(b, last))
  {
    var d := Dropped(b, last);
    DroppedOrder(a, b, last);
    assert d != [] ==> d[0] in d;
    DroppedFlags(a, b, last);
    forall x | x in d && last.Some? ensures x.key != last.value { LessIrreflexive(last.value); }
    FreshFlags(a, d, last);
    forall k | HasKey(first, k) || HasKey(second, k)
      ensures HasKey(out, k) || HasKey(a, k) || HasKey(d, k)
    {
      DroppedKeys(a, b, last, k);
    }
  }

  /** A read from the first input. */
  lemma ReadFirst(first: seq<Entry>, second: seq<Entry>, out: seq<Entry>, last: Option<string>, a: seq<Entry>,
                  b: seq<Entry>)
    requires OnTrack(first, second, out, last, a, b) && !Copied(b, last) && a != []
    requires (b != [] ==> Leq(a[0].key, b[0].key))
    ensures OnTrack(first, second, out + [a[0]], Some(a[0].key), a[1..], b)
  {
    var x, rest, out' := a[0], a[1..], out + [a[0]];
    SuffixStrict(a, 1);
    forall y | y in rest ensures Less(x.key, y.key) { Later(a, 0, y); }
    assert out'[|out|] == x && x in a;
    forall k
      ensures (HasKey(out', k) <==> HasKey(out, k) || x.key == k) && (HasKey(a, k) <==> x.key == k || HasKey(rest, k))
    {
      assert [x][0] == x;
      HasKeyConcat(out, [x], k);
      HasKeyHead(a, k);
    }
    ReadFirstFlags(a, b, last);
    forall y | y in first && Less(x.key, y.key) ensures y in rest {
      if last.Some? { LessTransitive(last.value, x.key, y.key); }
      LessIrreflexive(x.key);
      assert y in a && a == [x] + rest;
    }
    forall y | y in out' ensures Leq(y.key, x.key) {
      if y in out { LeqLess(y.key, last.value, x.key); }
    }
  }

  lemma LeqLess(p: string, q: string, r: string)
    requires Leq(p, q) && Less(q, r)
    ensures Leq(p, r)
  {
    if p != q { LessTransitive(p, q, r); }
  }

  lemma ReadFirstFlags(a: seq<Entry>, b: seq<Entry>, last: Option<string>)
    requires InOrder(a, b, last) && !Copied(b, last) && a != []
    ensures Shared(a[1..], b, Some(a[0].key)) == Shared(a, b, last)
  {
    DroppedOrder(a, b, last);
    forall j | 0 <= j < |b| ensures Shared(a[1..], b, Some(a[0].key))[j] == Shared(a, b, last)[j] {
      assert b[j] in b;
      if last.Some? { LessIrreflexive(last.value); }
      HasKeyHead(a, b[j].key);
    }
  }

  /** A read from the second input. */
  lemma ReadSecond(first: seq<Entry>, second: seq<Entry>, out: seq<Entry>, last: Option<string>, a: seq<Entry>,
                   b: seq<Entry>)
    requires OnTrack(first, second, out, last, a, b) && !Copied(b, last) && b != []
    requires (a == [] || Less(b[0].key, a[0].key))
    ensures OnTrack(first, second, out + [b[0]], Some(b[0].key), a, b[1..])
  {
    var x, rest, out' := b[0], b[1..], out + [b[0]];
    SuffixStrict(b, 1);
    DroppedOrder(a, b, last);
    assert x in b && (rest != [] ==> rest[0] in rest);
    forall y | y in rest ensures Less(x.key, y.key) { Later(b, 0, y); }
    forall y | y in a ensures Less(x.key, y.key) && y.key != x.key { FirstIsLater(a, x.key, y); }
    assert out'[|out|] == x;
    forall k
      ensures (HasKey(out', k) <==> HasKey(out, k) || x.key == k) && (HasKey(b, k) <==> x.key == k || HasKey(rest, k))
    {
      assert [x][0] == x;
      HasKeyConcat(out, [x], k);
      HasKeyHead(b, k);
    }
    ReadSecondFlags(a, b, last);
    forall y | y in first && Less(x.key, y.key) ensures y in a {
      if last.Some? { LessTransitive(last.value, x.key, y.key); }
    }
    forall i | 0 <= i < |first| ensures first[i].key != x.key { assert first[i] in first; }
    forall y | y in out' ensures Leq(y.key, x.key) {
      if y in out { LeqLess(y.key, last.value, x.key); }
    }
  }

  lemma FirstIsLater(a: seq<Entry>, k: string, y: Entry)
    requires StrictlySorted(a) && y in a && Less(k, a[0].key)
    ensures Less(k, y.key) && y.key != k
  {
    var i :| 0 <= i < |a| && a[i] == y;
    if i > 0 { LessTransitive(k, a[0].key, a[i].key); }
    LessIrreflexive(k);
  }

  lemma ReadSecondFlags(a: seq<Entry>, b: seq<Entry>, last: Option<string>)
    requires InOrder(a, b, last) && !Copied(b, last) && b != [] && forall y :: y in a ==> y.key != b[0].key
    ensures Paired(Shared(a, b, last)) <==> Paired(Shared(a, b[1..], Some(b[0].key)))
  {
    var f, g := Shared(a, b, last), Shared(a, b[1..], Some(b[0].key));
    DroppedOrder(a, b, last);
    forall j | 0 <= j < |g| ensures g[j] == f[j + 1] {
      assert b[1..][j] == b[j + 1] && b[j + 1] in b;
      LessIrreflexive(b[0].key);
      if last.Some? { LessIrreflexive(last.value); }
    }
    assert !f[0];
    assert f[1..] == g;
  }

  // ------------------------------------------------------------ searches and reads

  lemma HoldsItems(pending: seq<Option<Input>>, a: seq<Entry>, b: seq<Entry>)
    requires Holds(pending, a, b)
    ensures forall x :: x in ItemsIn(pending) ==> x in a || x in b
  {
    var its := Live(pending);
    LiveItems(pending);
    if |its| == 2 {
      assert Wrap(its)[1..] == [Some(its[1])] && Wrap(its)[1..][1..] == [];
      assert ItemsIn(Wrap(its)[1..]) == multiset(its[1].items) + ItemsIn([]);
    } else if |its| == 1 {
      assert Wrap(its)[1..] == [];
    }
  }

  /** If looking at the inputs loses a key, it is neither delivered nor left. */
  lemma KeyLost(first: seq<Entry>, second: seq<Entry>, out: seq<Entry>, last: Option<string>, a: seq<Entry>,
                b: seq<Entry>, left: multiset<Entry>)
    requires OnTrack(first, second, out, last, a, b) && Loses(a, b, last)
    requires (forall x :: x in left ==> x in a || x in Dropped(b, last))
    ensures Misses(first, second, out, left, b[1].key) && !Paired(Shared(first, second, None))
  {
    var z := b[1].key;
    LosesFlags(a, b, last);
    assert b[1] in b && b[1] in second;
    assert Less(last.value, z);
    forall i | 0 <= i < |out| ensures out[i].key != z {
      assert out[i] in out;
      if out[i].key == z { NotBefore(z, last.value); }
    }
    forall x | x in left ensures x.key != z {
      if x in a {
        var i :| 0 <= i < |a| && a[i] == x;
        assert !HasKey(a, z);
      } else {
        Later(b, 1, x);
      }
    }
  }

  /** What is missed stays missed. */
  lemma MissedStays(first: seq<Entry>, second: seq<Entry>, out: seq<Entry>, left: multiset<Entry>, z: string, r: Pull,
                    left': multiset<Entry>)
    requires Misses(first, second, out, left, z) && left' <= left && (r.Got? ==> r.entry in left)
    ensures Misses(first, second, if r.Got? then out + [r.entry] else out, left', z)
  {
    if r.Got? {
      HasKeyConcat(out, [r.entry], z);
      assert [r.entry][0] == r.entry;
    }
    forall x | x in left' ensures x in left {}
  }

  /** After a read from the first input that loses nothing. */
  lemma TakenFirst(first: seq<Entry>, second: seq<Entry>, out: seq<Entry>, last: Option<string>, a: seq<Entry>,
                   b: seq<Entry>, s: Search, mid: seq<Option<Input>>)
    requires OnTrack(first, second, out, last, a, b) && !Loses(a, b, last) && PointsFirst(s, mid, a, b, last)
    ensures PullAt(s, mid) == Got(a[0]) && Holds(Moved(s, mid), a[1..], Dropped(b, last))
    ensures OnTrack(first, second, out + [a[0]], Some(a[0].key), a[1..], Dropped(b, last))
  {
    var d := Dropped(b, last);
    Previewed(first, second, out, last, a, b);
    DroppedOrder(a, b, last);
    if d != [] {
      assert d[0] in d;
      if last.Some? { LessIrreflexive(last.value); }
      if Copied(b, last) { LeqLess(a[0].key, b[1].key, b[2].key); }
    }
    ReadFirst(first, second, out, last, a, d);
  }

  /** After a read from the second input that loses nothing. */
  lemma TakenSecond(first: seq<Entry>, second: seq<Entry>, out: seq<Entry>, last: Option<string>, a: seq<Entry>,
                    b: seq<Entry>, s: Search, mid: seq<Option<Input>>)
    requires OnTrack(first, second, out, last, a, b) && !Loses(a, b, last) && PointsSecond(s, mid, a, b, last)
    ensures b != [] && PullAt(s, mid) == Got(b[0]) && Holds(Moved(s, mid), a, b[1..])
    ensures OnTrack(first, second, out + [b[0]], Some(b[0].key), a, b[1..])
  {
    assert !Copied(b, last) by {
      if Copied(b, last) {
        var i :| 0 <= i < |a| && a[i].key == b[1].key;
        FirstIsLater(a, b[1].key, a[i]);
      }
    }
    ReadSecond(first, second, out, last, a, b);
  }

  /** At the end everything is delivered. */
  lemma NothingLeft(first: seq<Entry>, second: seq<Entry>, out: seq<Entry>, last: Option<string>, a: seq<Entry>,
                    b: seq<Entry>)
    requires OnTrack(first, second, out, last, a, b) && a == [] && !HasHead(b, last)
    ensures Paired(Shared(first, second, None)) && forall k :: HasKey(first, k) || HasKey(second, k) ==> HasKey(out, k)
  {
    if b != [] { assert Shared(a, b, last) == [true]; }
  }
}
