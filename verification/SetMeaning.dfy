/** What the merges mean for sets of objects, and when the difference is the set difference. */
module SetMeaning {
  import opened Order
  import opened TupleText
  import opened Multisets
  import opened IteratorStreams

  function Support(m: multiset<string>): set<string> {
    set x | x in m
  }

  /** No object occurs twice. */
  ghost predicate Simple(m: multiset<string>) {
    forall x :: m[x] <= 1
  }

  lemma JoinSupport(ms: seq<multiset<string>>)
    ensures forall x :: x in JoinAll(ms) <==> exists i :: 0 <= i < |ms| && x in ms[i]
    ensures (forall i :: 0 <= i < |ms| ==> Simple(ms[i])) ==> Simple(JoinAll(ms))
  {
    forall x
      ensures x in JoinAll(ms) <==> exists i :: 0 <= i < |ms| && x in ms[i]
      ensures (forall i :: 0 <= i < |ms| ==> Simple(ms[i])) ==> JoinAll(ms)[x] <= 1
    {
      if x in JoinAll(ms) { var i := JoinWitness(ms, x); }
      if i :| 0 <= i < |ms| && x in ms[i] { JoinBound(ms, i, x); }
    }
  }

  lemma MeetSupport(ms: seq<multiset<string>>)
    requires ms != []
    ensures forall x :: x in MeetAll(ms) <==> forall i :: 0 <= i < |ms| ==> x in ms[i]
    ensures (forall i :: 0 <= i < |ms| ==> Simple(ms[i])) ==> Simple(MeetAll(ms))
  {
    forall x
      ensures x in MeetAll(ms) <==> forall i :: 0 <= i < |ms| ==> x in ms[i]
      ensures (forall i :: 0 <= i < |ms| ==> Simple(ms[i])) ==> MeetAll(ms)[x] <= 1
    {
      var k := MeetWitness(ms, x);
      forall i | 0 <= i < |ms| ensures MeetAll(ms)[x] <= ms[i][x] { MeetBound(ms, i, x); }
    }
  }

  /**
   * The difference merge emits exactly the set difference if and only if no object of both streams
   * occurs more often in the base than in the subtracted stream.
   */
  lemma DifferenceIsSetDifference(base: multiset<string>, subtract: multiset<string>)
    ensures Support(base - subtract) == Support(base) - Support(subtract) <==>
      forall x :: x in base && x in subtract ==> base[x] <= subtract[x]
  {
    if Support(base - subtract) == Support(base) - Support(subtract) {
      forall x | x in base && x in subtract ensures base[x] <= subtract[x] {
        assert x !in Support(base - subtract);
      }
    }
  }

  /** A base that lists an object twice: the difference lets it through although it is subtracted. */
  lemma RepeatedBaseSurvives(out: seq<Msg>)
    requires Enumerates(Items(out), false, multiset{"doc:1", "doc:1"} - multiset{"doc:1"})
    ensures Enumerates(["doc:1", "doc:1"], false, multiset{"doc:1", "doc:1"})
    ensures Enumerates(["doc:1"], false, multiset{"doc:1"})
    ensures Items(out) == ["doc:1"]
  {
    var m := multiset{"doc:1", "doc:1"} - multiset{"doc:1"};
    assert m == multiset{"doc:1"} == multiset(["doc:1"]);
    assert multiset(["doc:1", "doc:1"]) == multiset{"doc:1", "doc:1"};
    assert ValidObject("doc:1") by {
      var s := "doc:1";
      assert s[..3] == "doc" && s[3] == ':' && s[4..] == "1";
    }
    AscendingUnique(Items(out), ["doc:1"]);
  }

  /** A fault-free enumeration of a repetition-free multiset is its strictly ascending listing, and the only one. */
  lemma EnumerationUnique(s: seq<string>, t: seq<string>, m: multiset<string>)
    requires Enumerates(s, false, m) && Enumerates(t, false, m)
    ensures s == t
    ensures Simple(m) ==> StrictlyAscending(s)
  {
    AscendingUnique(s, t);
    if Simple(m) { StrictFromMultiplicity(s); }
  }
}
