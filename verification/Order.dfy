/** Strings in the order Go's `<` gives them, and ascending sequences of strings. */
module Order {

  /** Lexicographic order on strings. */
  predicate Less(a: string, b: string) {
    |b| > 0 && (|a| == 0 || a[0] < b[0] || (a[0] == b[0] && Less(a[1..], b[1..])))
  }

  predicate Leq(a: string, b: string) {
    a == b || Less(a, b)
  }

  lemma {:induction false} LessIrreflexive(a: string)
    ensures !Less(a, a)
  {
    if a != [] { LessIrreflexive(a[1..]); }
  }

  lemma {:induction false} LessTransitive(a: string, b: string, c: string)
    requires Less(a, b) && Less(b, c)
    ensures Less(a, c)
  {
    if |a| > 0 && a[0] == b[0] == c[0] { LessTransitive(a[1..], b[1..], c[1..]); }
  }

  lemma {:induction false} LessTotal(a: string, b: string)
    ensures a == b || Less(a, b) || Less(b, a)
  {
    if |a| > 0 && |b| > 0 && a[0] == b[0] {
      LessTotal(a[1..], b[1..]);
      if a[1..] == b[1..] {
        assert a == [a[0]] + a[1..] && b == [b[0]] + b[1..];
      }
    }
  }

  ghost predicate Ascending(s: seq<string>) {
    forall i, j :: 0 <= i < j < |s| ==> Leq(s[i], s[j])
  }

  ghost predicate StrictlyAscending(s: seq<string>) {
    forall i, j :: 0 <= i < j < |s| ==> Less(s[i], s[j])
  }

  lemma LeqAntisymmetric(a: string, b: string)
    requires Leq(a, b) && Leq(b, a)
    ensures a == b
  {
    if a != b {
      LessTransitive(a, b, a);
      LessIrreflexive(a);
    }
  }

  lemma LeqTransitive(a: string, b: string, c: string)
    requires Leq(a, b) && Leq(b, c)
    ensures Leq(a, c)
  {
    if a != b && b != c { LessTransitive(a, b, c); }
  }

  /** The first element of an ascending sequence is its least. */
  lemma HeadIsLeast(s: seq<string>, x: string)
    requires s != [] && Ascending(s) && x in multiset(s)
    ensures Leq(s[0], x)
  {
  }

  lemma TailMultiset<T>(s: seq<T>)
    requires s != []
    ensures multiset(s[1..]) == multiset(s) - multiset{s[0]}
    ensures s[0] in multiset(s)
  {
    assert s == [s[0]] + s[1..];
  }

  /** An ascending sequence is determined by its multiset of elements. */
  lemma {:induction false} AscendingUnique(s: seq<string>, t: seq<string>)
    requires Ascending(s) && Ascending(t)
    requires multiset(s) == multiset(t)
    ensures s == t
  {
    assert |s| == |multiset(s)| == |multiset(t)| == |t|;
    if s != [] {
      TailMultiset(s);
      TailMultiset(t);
      HeadIsLeast(s, t[0]);
      HeadIsLeast(t, s[0]);
      LeqAntisymmetric(s[0], t[0]);
      AscendingUnique(s[1..], t[1..]);
      assert s == [s[0]] + s[1..] && t == [t[0]] + t[1..];
    }
  }

  lemma OccursTwice(s: seq<string>, i: nat, j: nat)
    requires i < j < |s| && s[i] == s[j]
    ensures multiset(s)[s[i]] >= 2
  {
    assert s == s[..i] + [s[i]] + s[i + 1..j] + [s[j]] + s[j + 1..];
  }

  /** With no repeated element, ascending is strict. */
  lemma StrictFromMultiplicity(s: seq<string>)
    requires Ascending(s)
    requires forall x :: multiset(s)[x] <= 1
    ensures StrictlyAscending(s)
  {
    forall i, j | 0 <= i < j < |s| ensures Less(s[i], s[j]) {
      if s[i] == s[j] { OccursTwice(s, i, j); }
    }
  }
}
