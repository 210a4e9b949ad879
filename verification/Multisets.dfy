/** Joins (maximum of multiplicities) and meets (minimum) of finitely many multisets. */
module Multisets {

  function JoinAll(ms: seq<multiset<string>>): multiset<string> {
    if ms == [] then multiset{} else ms[0] + (JoinAll(ms[1..]) - ms[0])
  }

  function MeetAll(ms: seq<multiset<string>>): multiset<string>
    requires ms != []
  {
    if |ms| == 1 then ms[0] else ms[0] * MeetAll(ms[1..])
  }

  lemma {:induction false} JoinBound(ms: seq<multiset<string>>, i: nat, x: string)
    requires i < |ms|
    ensures ms[i][x] <= JoinAll(ms)[x]
  {
    if i > 0 { JoinBound(ms[1..], i - 1, x); }
  }

  lemma {:induction false} JoinWitness(ms: seq<multiset<string>>, x: string) returns (i: nat)
    requires x in JoinAll(ms)
    ensures i < |ms| && ms[i][x] == JoinAll(ms)[x]
  {
    if JoinAll(ms[1..])[x] <= ms[0][x] {
      i := 0;
    } else {
      i := JoinWitness(ms[1..], x);
      i := i + 1;
    }
  }

  lemma {:induction false} MeetBound(ms: seq<multiset<string>>, i: nat, x: string)
    requires i < |ms|
    ensures MeetAll(ms)[x] <= ms[i][x]
  {
    if i > 0 { MeetBound(ms[1..], i - 1, x); }
  }

  lemma {:induction false} MeetWitness(ms: seq<multiset<string>>, x: string) returns (i: nat)
    requires ms != []
    ensures i < |ms| && ms[i][x] == MeetAll(ms)[x]
  {
    if |ms| == 1 || ms[0][x] <= MeetAll(ms[1..])[x] {
      i := 0;
    } else {
      i := MeetWitness(ms[1..], x);
      i := i + 1;
    }
  }

  /** Taking one `m` from every part that has the largest share of it takes one `m` from the join. */
  lemma JoinStep(ms: seq<multiset<string>>, ns: seq<multiset<string>>, m: string)
    requires |ns| == |ms|
    requires exists i :: 0 <= i < |ms| && m in ms[i]
    requires forall i :: 0 <= i < |ms| ==> ns[i] == ms[i] - multiset{m}
    ensures JoinAll(ms) == multiset{m} + JoinAll(ns)
  {
    forall x ensures JoinAll(ms)[x] == (multiset{m} + JoinAll(ns))[x] { JoinStepAt(ms, ns, m, x); }
  }

  lemma JoinStepAt(ms: seq<multiset<string>>, ns: seq<multiset<string>>, m: string, x: string)
    requires |ns| == |ms| && (exists i :: 0 <= i < |ms| && m in ms[i]) && forall i :: 0 <= i < |ms| ==>
      ns[i] == ms[i] - multiset{m}
    ensures JoinAll(ms)[x] == JoinAll(ns)[x] + if x == m then 1 else 0
  {
    if x in JoinAll(ms) {
      var i := JoinWitness(ms, x);
      JoinBound(ns, i, x);
    }
    if x in JoinAll(ns) {
      var j := JoinWitness(ns, x);
      JoinBound(ms, j, x);
    }
    if x == m {
      var k :| 0 <= k < |ms| && m in ms[k];
      JoinBound(ms, k, m);
    }
  }

  /** Taking one `m` from every part takes one `m` from the meet. */
  lemma MeetStep(ms: seq<multiset<string>>, ns: seq<multiset<string>>, m: string)
    requires |ns| == |ms| > 0
    requires forall i :: 0 <= i < |ms| ==> m in ms[i]
    requires forall i :: 0 <= i < |ms| ==> ns[i] == ms[i] - multiset{m}
    ensures MeetAll(ms) == multiset{m} + MeetAll(ns)
  {
    forall x ensures MeetAll(ms)[x] == (multiset{m} + MeetAll(ns))[x] {
      var i := MeetWitness(ms, x);
      MeetBound(ns, i, x);
      var j := MeetWitness(ns, x);
      MeetBound(ms, j, x);
    }
  }

  /** Two families with the same minimum at every element have the same meet. */
  lemma MeetEqual(ms: seq<multiset<string>>, ns: seq<multiset<string>>)
    requires |ns| == |ms| > 0
    requires forall i, x {:trigger ns[i][x]} :: 0 <= i < |ms| ==> ns[i][x] <= ms[i][x]
    requires forall i, x {:trigger ns[i][x]} :: 0 <= i < |ms| && ns[i][x] < ms[i][x] ==>
      exists j :: 0 <= j < |ms| && ms[j][x] == 0
    ensures MeetAll(ms) == MeetAll(ns)
  {
    forall x ensures MeetAll(ms)[x] == MeetAll(ns)[x] {
      var i := MeetWitness(ms, x);
      MeetBound(ns, i, x);
      var j := MeetWitness(ns, x);
      MeetBound(ms, j, x);
      if ns[j][x] < ms[j][x] {
        var k :| 0 <= k < |ms| && ms[k][x] == 0;
        MeetBound(ms, k, x);
      }
    }
  }

  /** The entries not marked dead, in order. */
  function Keep<T>(s: seq<T>, dead: seq<bool>): (r: seq<T>)
    requires |s| == |dead|
    ensures |r| <= |s|
    ensures |r| == |s| ==> r == s
    ensures forall x :: x in r ==> x in s
  {
    if s == [] then []
    else (if dead[0] then [] else [s[0]]) + Keep(s[1..], dead[1..])
  }

  /** Dropping empty parts does not change a join. */
  lemma {:induction false} JoinKeep(ms: seq<multiset<string>>, dead: seq<bool>)
    requires |ms| == |dead|
    requires forall i :: 0 <= i < |ms| && dead[i] ==> ms[i] == multiset{}
    ensures JoinAll(Keep(ms, dead)) == JoinAll(ms)
  {
    if ms != [] {
      JoinKeep(ms[1..], dead[1..]);
      var k := Keep(ms, dead);
      if dead[0] {
        assert k == Keep(ms[1..], dead[1..]);
      } else {
        assert k[0] == ms[0] && k[1..] == Keep(ms[1..], dead[1..]);
      }
    }
  }

  lemma {:induction false} KeepAll<T>(s: seq<T>, dead: seq<bool>)
    requires |s| == |dead|
    ensures |Keep(s, dead)| == |s| <==> forall i :: 0 <= i < |s| ==> !dead[i]
  {
    if s != [] {
      KeepAll(s[1..], dead[1..]);
      if forall i :: 0 <= i < |s[1..]| ==> !dead[1..][i] {
        assert forall i :: 0 < i < |s| ==> !dead[i] by {
          forall i | 0 < i < |s| ensures !dead[i] { assert dead[i] == dead[1..][i - 1]; }
        }
      }
    }
  }

  /** The kept entries of two parallel sequences correspond. */
  lemma {:induction false} KeepOrigin<S, T>(s: seq<S>, t: seq<T>, dead: seq<bool>, k: nat) returns (i: nat)
    requires |s| == |t| == |dead|
    requires k < |Keep(s, dead)|
    ensures |Keep(s, dead)| == |Keep(t, dead)|
    ensures i < |s| && !dead[i] && Keep(s, dead)[k] == s[i] && Keep(t, dead)[k] == t[i]
  {
    if s != [] {
      var c := if dead[0] then 0 else 1;
      KeepSameLength(s, t, dead);
      if k < c {
        i := 0;
      } else {
        i := KeepOrigin(s[1..], t[1..], dead[1..], k - c);
        i := i + 1;
      }
    }
  }

  lemma {:induction false} KeepSameLength<S, T>(s: seq<S>, t: seq<T>, dead: seq<bool>)
    requires |s| == |t| == |dead|
    ensures |Keep(s, dead)| == |Keep(t, dead)|
  {
    if s != [] { KeepSameLength(s[1..], t[1..], dead[1..]); }
  }
}
