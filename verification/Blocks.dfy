/** Sequences of flags in which set flags come in blocks of even length. */
module Blocks {

  predicate AllTrue(flags: seq<bool>, i: nat, j: nat) {
    i <= j <= |flags| && forall k :: i <= k < j ==> flags[k]
  }

  /** A maximal block of set flags, from `i` up to one that is not set at `j`. */
  predicate Block(flags: seq<bool>, i: nat, j: nat) {
    i < j < |flags| && (i == 0 || !flags[i - 1]) && AllTrue(flags, i, j) && !flags[j]
  }

  /** Every maximal block of set flags that is not at the end has even length. */
  predicate EvenBlocks(flags: seq<bool>) {
    forall i: nat, j: nat :: i < |flags| && j < |flags| && Block(flags, i, j) ==> (j - i) % 2 == 0
  }

  /** Set flags come in pairs, except at the end. */
  predicate Paired(flags: seq<bool>) {
    if flags == [] then true
    else if !flags[0] then Paired(flags[1..])
    else |flags| == 1 || (flags[1] && Paired(flags[2..]))
  }

  lemma {:induction false} PairedIffEven(flags: seq<bool>)
    ensures Paired(flags) <==> EvenBlocks(flags)
  {
    if flags != [] {
      if !flags[0] {
        PairedIffEven(flags[1..]);
        SkipSingle(flags);
      } else if |flags| > 1 {
        if flags[1] {
          PairedIffEven(flags[2..]);
          SkipPair(flags);
        } else {
          assert Block(flags, 0, 1);
        }
      }
    }
  }

  lemma SkipSingle(flags: seq<bool>)
    requires flags != [] && !flags[0]
    ensures EvenBlocks(flags) <==> EvenBlocks(flags[1..])
  {
    var rest := flags[1..];
    assert forall k :: 0 <= k < |rest| ==> rest[k] == flags[k + 1];
    forall i: nat, j: nat | i < |flags| && j < |flags| && Block(flags, i, j)
      ensures i > 0 && Block(rest, i - 1, j - 1)
    {
    }
    forall i: nat, j: nat | i < |rest| && j < |rest| && Block(rest, i, j) ensures Block(flags, i + 1, j + 1) {
      assert forall k :: i + 1 <= k < j + 1 ==> flags[k] == rest[k - 1];
    }
  }

  lemma SkipPair(flags: seq<bool>)
    requires |flags| > 1 && flags[0] && flags[1]
    ensures EvenBlocks(flags) <==> EvenBlocks(flags[2..])
  {
    var rest := flags[2..];
    assert forall k :: 0 <= k < |rest| ==> rest[k] == flags[k + 2];
    if EvenBlocks(rest) {
      forall i: nat, j: nat | i < |flags| && j < |flags| && Block(flags, i, j)
        ensures (j - i) % 2 == 0
      {
        BlockBehindPair(flags, i, j);
      }
    }
    if EvenBlocks(flags) {
      forall i: nat, j: nat | i < |rest| && j < |rest| && Block(rest, i, j)
        ensures (j - i) % 2 == 0
      {
        BlockBeforePair(flags, i, j);
      }
    }
  }

  lemma BlockBehindPair(flags: seq<bool>, i: nat, j: nat)
    requires |flags| > 1 && flags[0] && flags[1] && Block(flags, i, j)
    ensures if i == 0 then j == 2 || (j > 2 && Block(flags[2..], 0, j - 2))
      else i > 2 && Block(flags[2..], i - 2, j - 2)
  {
    var rest := flags[2..];
    assert forall k :: 0 <= k < |rest| ==> rest[k] == flags[k + 2];
    assert i != 1 && i != 2 && (i == 0 ==> j >= 2);
  }

  lemma BlockBeforePair(flags: seq<bool>, i: nat, j: nat)
    requires |flags| > 1 && flags[0] && flags[1] && Block(flags[2..], i, j)
    ensures Block(flags, if i == 0 then 0 else i + 2, j + 2)
  {
    var rest := flags[2..];
    var start := if i == 0 then 0 else i + 2;
    assert forall k :: 2 <= k < |flags| ==> flags[k] == rest[k - 2];
    forall k | start <= k < j + 2 ensures flags[k] { if k >= 2 { assert rest[k - 2]; } }
  }

  lemma PairStep(flags: seq<bool>)
    ensures Paired([true] + ([true] + flags)) <==> Paired(flags)
  {
    assert ([true] + ([true] + flags))[2..] == flags;
  }

  lemma LoneStep(flags: seq<bool>)
    ensures !Paired([true] + ([false] + flags))
  {
    assert !([true] + ([false] + flags))[1];
  }
}
