/**
 * The read behind a leaf of the fast path: contextual and stored tuples are merged by object, filtered by
 * their conditions and mapped to their objects.
 */
module LeafRead {
  import opened Options
  import opened Order
  import opened TupleText
  import opened IteratorStreams
  import opened Model
  import opened FastPath
  import opened FastMeaning
  import opened ConditionFilter
  import M = OrderedMerge
  import R = MergeRuns
  import B = Blocks
  import S = SharedKeys
  import K = RepeatedKeys

  type Entry = M.Entry

  // ------------------------------------------------------------ what is read

  /** userFilter: a tuple that names the user, or everyone of the user's type where the relation allows it. */
  predicate IsRead(rel: Relation, user: User, row: Row) {
    row.user == user || (PubliclyAssignable(rel, user) && row.user == WildcardOf(user.obj.typ))
  }

  /** The entry stands for a tuple of the type and relation that is read for the user. */
  ghost predicate Stands(sc: Scope, r: string, e: Entry) {
    (sc.typ, r) in sc.w.relations &&
    exists o: Object, row :: o.typ == sc.typ && row in sc.w.Rows(o, r) &&
      IsRead(sc.w.relations[(sc.typ, r)], sc.user, row) && e == M.Entry(ObjectString(o), row.cond)
  }

  /** Everything the inputs hold, also what a failure keeps from being read. */
  function Whole(inputs: seq<M.Input>): multiset<Entry> {
    M.ItemsIn(M.Wrap(inputs)) + M.BeyondIn(M.Wrap(inputs))
  }

  /** ReadStartingWithUser: sorted inputs that hold exactly the tuples to read. */
  ghost predicate Reads(sc: Scope, r: string, inputs: seq<M.Input>) {
    && (forall i :: 0 <= i < |inputs| ==> M.InputOk(inputs[i]))
    && (forall e :: e in Whole(inputs) <==> Stands(sc, r, e))
  }

  /** No object is read twice. */
  ghost predicate ReadOnce(inputs: seq<M.Input>) {
    M.OneEach(Whole(inputs))
  }

  function EntryCondition(e: Entry): Condition {
    e.cond
  }

  /** The objects of entries. */
  function KeysOf(es: seq<Entry>): (r: seq<string>)
    ensures |r| == |es| && forall i :: 0 <= i < |es| ==> r[i] == es[i].key
  {
    if es == [] then [] else [es[0].key] + KeysOf(es[1..])
  }

  // ------------------------------------------------------------ the objects of what is read

  /** A directly related object is one with a tuple that is read and whose condition is met. */
  lemma DirectIffMet(sc: Scope, r: string, x: string)
    requires (sc.typ, r) in sc.w.relations
    ensures x in DirectObjects(sc.w, sc.user, sc.typ, r) <==> Stands(sc, r, M.Entry(x, Met))
  {
    var rel := sc.w.relations[(sc.typ, r)];
    if x in DirectObjects(sc.w, sc.user, sc.typ, r) {
      var k :| k in sc.w.rows.Keys && k.0.typ == sc.typ && k.1 == r && HasMatch(sc.w, sc.user, k.0, r) &&
        ObjectString(k.0) == x;
      var i :| 0 <= i < |sc.w.Rows(k.0, r)| && RowMatches(rel, sc.user, sc.w.Rows(k.0, r)[i]);
      assert sc.w.Rows(k.0, r)[i] in sc.w.Rows(k.0, r);
    }
    if Stands(sc, r, M.Entry(x, Met)) {
      var o: Object, row :| o.typ == sc.typ && row in sc.w.Rows(o, r) && IsRead(rel, sc.user, row) &&
        M.Entry(x, Met) == M.Entry(ObjectString(o), row.cond);
      var i :| 0 <= i < |sc.w.Rows(o, r)| && sc.w.Rows(o, r)[i] == row;
      assert RowMatches(rel, sc.user, sc.w.Rows(o, r)[i]);
      DirectMember(sc, o, r);
    }
  }

  /** The valid entries of a strictly sorted sequence are strictly sorted. */
  lemma {:induction false} PassingSorted(es: seq<Entry>)
    requires M.StrictlySorted(es)
    ensures M.StrictlySorted(Passing(es, EntryCondition)) && forall x :: x in Passing(es, EntryCondition) ==>
      x in es && x.cond.Met?
  {
    PassingMembers(es, EntryCondition);
    if es != [] {
      assert M.StrictlySorted(es[1..]);
      PassingSorted(es[1..]);
      var rest := Passing(es[1..], EntryCondition);
      if es[0].cond.Met? {
        forall j | 0 <= j < |rest| ensures Less(es[0].key, rest[j].key) { LaterKey(es, rest[j]); }
      }
    }
  }

  lemma LaterKey(es: seq<Entry>, x: Entry)
    requires M.StrictlySorted(es) && es != [] && x in es[1..]
    ensures Less(es[0].key, x.key)
  {
    var i :| 0 <= i < |es[1..]| && es[1..][i] == x;
    assert es[i + 1] == x;
  }

  lemma KeysAscending(es: seq<Entry>)
    requires M.StrictlySorted(es)
    ensures Ascending(KeysOf(es)) && OneOf(KeysOf(es)) && forall x :: x in KeysOf(es) <==>
      exists e :: e in es && e.key == x
  {
    var keys := KeysOf(es);
    forall i, j | 0 <= i < j < |keys| ensures Less(keys[i], keys[j]) && keys[i] != keys[j] { LessIrreflexive(keys[i]); }
    forall x ensures x in keys <==> exists e :: e in es && e.key == x {
      if x in keys {
        var i :| 0 <= i < |keys| && keys[i] == x;
        assert es[i] in es && es[i].key == x;
      }
    }
  }

  ghost predicate OneOf(s: seq<string>) {
    forall i, j :: 0 <= i < j < |s| ==> s[i] != s[j]
  }

  /** Without repetition, a sequence holds at most what a set holds, and all of it if it has its elements. */
  lemma {:induction false} OnceBound(s: seq<string>, m: set<string>)
    requires OneOf(s) && forall x :: x in s ==> x in m
    ensures multiset(s) <= multiset(m) && ((forall x :: x in m ==> x in s) ==> multiset(s) == multiset(m))
  {
    forall x ensures multiset(s)[x] <= 1 { OnceEach(s, x); }
  }

  lemma {:induction false} OnceEach(s: seq<string>, x: string)
    requires OneOf(s)
    ensures multiset(s)[x] <= 1
  {
    if s != [] {
      var rest := s[1..];
      assert s == [s[0]] + rest;
      assert forall i :: 0 <= i < |rest| ==> rest[i] == s[i + 1];
      OnceEach(rest, x);
      if s[0] == x { assert x !in rest; }
    }
  }

  // ------------------------------------------------------------ the read

  /** What a merged and filtered read delivers, if `out` is a first part of what is to be read. */
  lemma ReadDelivers(sc: Scope, r: string, inputs: seq<M.Input>, out: seq<Entry>, last: M.Pull, s: seq<string>)
    requires (sc.typ, r) in sc.w.relations && Reads(sc, r, inputs) && M.StrictlySorted(out) && !last.Got?
    requires R.FirstPart(out, last, M.ItemsIn(M.Wrap(inputs)), M.BeyondIn(M.Wrap(inputs)))
    requires s == KeysOf(Passing(out, EntryCondition))
    ensures Ascending(s) && multiset(s) <= multiset(DirectObjects(sc.w, sc.user, sc.typ, r))
    ensures last.Done? ==> multiset(s) == multiset(DirectObjects(sc.w, sc.user, sc.typ, r))
    ensures forall x, y :: x in s && y in DirectObjects(sc.w, sc.user, sc.typ, r) && y !in s ==> Leq(x, y)
  {
    var m := DirectObjects(sc.w, sc.user, sc.typ, r);
    PassingSorted(out);
    PassingMembers(out, EntryCondition);
    KeysAscending(Passing(out, EntryCondition));
    forall x | x in s ensures x in m { DeliveredIsDirect(sc, r, inputs, out, last, x); }
    forall y | y in m ensures y in s <==> M.Entry(y, Met) in out { DirectIffMet(sc, r, y); }
    if last.Done? {
      forall y | y in m ensures y in s { DirectIsRead(sc, r, inputs, out, last, y); }
    }
    OnceBound(s, m);
    forall x, y | x in s && y in m && y !in s ensures Leq(x, y) { UnreadIsLater(sc, r, inputs, out, last, x, y); }
  }

  lemma DeliveredIsDirect(sc: Scope, r: string, inputs: seq<M.Input>, out: seq<Entry>, last: M.Pull, x: string)
    requires (sc.typ, r) in sc.w.relations && Reads(sc, r, inputs)
    requires R.FirstPart(out, last, M.ItemsIn(M.Wrap(inputs)), M.BeyondIn(M.Wrap(inputs)))
    requires x in KeysOf(Passing(out, EntryCondition))
    ensures M.Entry(x, Met) in out && x in DirectObjects(sc.w, sc.user, sc.typ, r)
  {
    var passing := Passing(out, EntryCondition);
    var i :| 0 <= i < |passing| && KeysOf(passing)[i] == x;
    PassingMembers(out, EntryCondition);
    assert passing[i] in passing && passing[i] == M.Entry(x, Met);
    assert passing[i] in multiset(out) && passing[i] in Whole(inputs);
    DirectIffMet(sc, r, x);
  }

  lemma DirectIsRead(sc: Scope, r: string, inputs: seq<M.Input>, out: seq<Entry>, last: M.Pull, y: string)
    requires (sc.typ, r) in sc.w.relations && Reads(sc, r, inputs) && y in DirectObjects(sc.w, sc.user, sc.typ, r)
    requires R.FirstPart(out, last, M.ItemsIn(M.Wrap(inputs)), M.BeyondIn(M.Wrap(inputs)))
    ensures M.Entry(y, Met) in out ||
      M.Entry(y, Met) in (M.ItemsIn(M.Wrap(inputs)) - multiset(out)) + M.BeyondIn(M.Wrap(inputs))
    ensures last.Done? ==> M.Entry(y, Met) in out
  {
    DirectIffMet(sc, r, y);
    assert M.Entry(y, Met) in Whole(inputs);
  }

  lemma UnreadIsLater(sc: Scope, r: string, inputs: seq<M.Input>, out: seq<Entry>, last: M.Pull, x: string, y: string)
    requires (sc.typ, r) in sc.w.relations && Reads(sc, r, inputs) && y in DirectObjects(sc.w, sc.user, sc.typ, r)
    requires M.Entry(y, Met) !in out
    requires R.FirstPart(out, last, M.ItemsIn(M.Wrap(inputs)), M.BeyondIn(M.Wrap(inputs)))
    requires x in KeysOf(Passing(out, EntryCondition))
    ensures Leq(x, y)
  {
    DeliveredIsDirect(sc, r, inputs, out, last, x);
    DirectIsRead(sc, r, inputs, out, last, y);
  }

  /** The scope in which the leaf read of a relation lists these objects. */
  ghost function Listing(sc: Scope, r: string, xs: set<string>): Scope {
    sc.(lists := sc.lists[r := xs])
  }

  /** Whatever the merge delivers, the objects of the valid entries are directly related. */
  lemma ListsDirect(sc: Scope, r: string, inputs: seq<M.Input>, out: seq<Entry>, s: seq<string>)
    requires (sc.typ, r) in sc.w.relations && Reads(sc, r, inputs)
    requires (forall e :: e in out ==> e in M.ItemsIn(M.Wrap(inputs)))
    requires forall o: Object :: o.typ == sc.typ && (o, r) in sc.w.rows ==> ValidObject(ObjectString(o))
    requires s == KeysOf(Passing(out, EntryCondition))
    ensures forall x :: x in s ==> x in DirectObjects(sc.w, sc.user, sc.typ, r) && ValidObject(x)
  {
    forall x | x in s
      ensures x in DirectObjects(sc.w, sc.user, sc.typ, r) && ValidObject(x)
    {
      KeyIsDirect(sc, r, inputs, out, x);
    }
  }

  /** They are ascending and not repeated. */
  lemma ListedInOrder(sc: Scope, r: string, out: seq<Entry>, s: seq<string>, fails: bool)
    requires M.StrictlySorted(out) && s == KeysOf(Passing(out, EntryCondition)) && forall x :: x in s ==> ValidObject(x)
    ensures LeafOk(Listing(sc, r, Elements(s)), r, OneBatch(s, fails))
  {
    PassingSorted(out);
    KeysAscending(Passing(out, EntryCondition));
    OwnListing(s, fails);
  }

  function Elements(s: seq<string>): set<string> {
    set x | x in s
  }

  /** An ascending sequence without repetition enumerates its own elements. */
  lemma OwnListing(s: seq<string>, fails: bool)
    requires Ascending(s) && OneOf(s) && forall x :: x in s ==> ValidObject(x)
    ensures Enumerates(s, fails, multiset(Elements(s)))
  {
    OnceBound(s, Elements(s));
    assert multiset(s) == multiset(Elements(s));
  }

  lemma KeyIsDirect(sc: Scope, r: string, inputs: seq<M.Input>, out: seq<Entry>, x: string)
    requires (sc.typ, r) in sc.w.relations && Reads(sc, r, inputs)
    requires (forall e :: e in out ==> e in M.ItemsIn(M.Wrap(inputs)))
    requires forall o: Object :: o.typ == sc.typ && (o, r) in sc.w.rows ==> ValidObject(ObjectString(o))
    requires x in KeysOf(Passing(out, EntryCondition))
    ensures x in DirectObjects(sc.w, sc.user, sc.typ, r) && ValidObject(x)
  {
    var passing := Passing(out, EntryCondition);
    PassingMembers(out, EntryCondition);
    var i :| 0 <= i < |passing| && KeysOf(passing)[i] == x;
    assert passing[i] in passing && passing[i] == M.Entry(x, Met) && passing[i] in Whole(inputs);
    DirectIffMet(sc, r, x);
    DirectIsValid(sc, r, x);
  }

  lemma DirectIsValid(sc: Scope, r: string, x: string)
    requires forall o: Object :: o.typ == sc.typ && (o, r) in sc.w.rows ==> ValidObject(ObjectString(o))
    requires x in DirectObjects(sc.w, sc.user, sc.typ, r)
    ensures ValidObject(x)
  {
    var k :| k in sc.w.rows.Keys && k.0.typ == sc.typ && k.1 == r && HasMatch(sc.w, sc.user, k.0, r) &&
      ObjectString(k.0) == x;
    assert (k.0, r) in sc.w.rows by { assert k == (k.0, k.1); }
  }

  /** What a leaf read ends up with: its objects, in one batch. */
  function OneBatch(keys: seq<string>, fails: bool): (ch: seq<Msg>)
    ensures Items(ch) == keys && (Faulty(ch) <==> fails)
  {
    var ch := [Batch(Iter(keys, fails))];
    assert ch[1..] == [] && Items(ch[1..]) == [] && (IsFault(ch[0]) <==> fails);
    ch
  }

  /**
   * fastPathDirect over IteratorReadStartingFromUser: the batch lists directly related objects in order
   * and without repetition. If no object is read twice, it lists all of them unless an error ends it; an
   * error is only given if an input fails, or no condition is met and one fails to evaluate. If only one
   * input has tuples, the batch lists the valid ones among what the merge delivers of it, whether or not
   * objects are read twice. What it lists of two inputs that share objects `TwinLists` says.
   */
  method FastPathDirect(sc: Scope, r: string, inputs: seq<M.Input>, peekMerge: nat -> bool, peekFilter: nat -> bool)
    returns (ch: seq<Msg>)
    requires (sc.typ, r) in sc.w.relations && Reads(sc, r, inputs)
    requires forall o: Object :: o.typ == sc.typ && (o, r) in sc.w.rows ==> ValidObject(ObjectString(o))
    ensures LeafOk(Listing(sc, r, Elements(Items(ch))), r, ch)
    ensures forall x :: x in Items(ch) ==> x in DirectObjects(sc.w, sc.user, sc.typ, r)
    ensures ReadOnce(inputs) ==> LeafOk(Listing(sc, r, DirectObjects(sc.w, sc.user, sc.typ, r)), r, ch)
    ensures ReadOnce(inputs) && Faulty(ch) ==>
      !M.NoFaults(M.Wrap(inputs)) || (Items(ch) == [] && exists e :: Stands(sc, r, e) && e.cond.Broken?)
    ensures M.Sole(M.Wrap(inputs), None) ==> var run := R.SoleRun(M.Joined(M.Wrap(inputs)), None);
      Items(ch) == KeysOf(Passing(run, EntryCondition)) && (Faulty(ch) <==> NothingValid(run, EntryCondition))
    ensures R.Twin(M.Wrap(inputs)) ==> TwinLists(inputs[0].items, inputs[1].items, Items(ch))
  {
    var out, last := R.Drain(inputs, peekMerge);
    var valid, end := ReadAll(out, last.Fail?, EntryCondition, peekFilter);
    ch := OneBatch(KeysOf(valid), !end.End?);
    DrainedInOrder(sc, r, inputs, out, last, valid, end);
    if ReadOnce(inputs) { OnceDelivers(sc, r, inputs, out, last, valid, end); }
    if R.Twin(M.Wrap(inputs)) { TwinDrained(inputs, out, last); }
    SoleDrained(inputs, out, last);
  }

  lemma DrainedInOrder(sc: Scope, r: string, inputs: seq<M.Input>, out: seq<Entry>, last: M.Pull, valid: seq<Entry>,
                       end: RowRead<Entry>)
    requires (sc.typ, r) in sc.w.relations && Reads(sc, r, inputs) && R.Drains(inputs, out, last)
    requires valid == Passing(out, EntryCondition)
    requires forall o: Object :: o.typ == sc.typ && (o, r) in sc.w.rows ==> ValidObject(ObjectString(o))
    ensures LeafOk(Listing(sc, r, Elements(KeysOf(valid))), r, OneBatch(KeysOf(valid), !end.End?))
    ensures forall x :: x in KeysOf(valid) ==> x in DirectObjects(sc.w, sc.user, sc.typ, r)
  {
    ListsDirect(sc, r, inputs, out, KeysOf(valid));
    ListedInOrder(sc, r, out, KeysOf(valid), !end.End?);
  }

  lemma SoleDrained(inputs: seq<M.Input>, out: seq<Entry>, last: M.Pull)
    requires R.Drains(inputs, out, last)
    ensures M.Sole(M.Wrap(inputs), None) ==> out == R.SoleRun(M.Joined(M.Wrap(inputs)), None) && last.Done?
  {
  }

  lemma TwinDrained(inputs: seq<M.Input>, out: seq<Entry>, last: M.Pull)
    requires R.Drains(inputs, out, last) && R.Twin(M.Wrap(inputs))
    ensures TwinLists(inputs[0].items, inputs[1].items, KeysOf(Passing(out, EntryCondition)))
  {
    var all := M.Wrap(inputs);
    assert all[1..][1..] == [] && M.ItemsIn(all[1..]) == multiset(M.ItemsAt(all[1])) + M.ItemsIn(all[1..][1..]);
    TwinDelivers(inputs[0].items, inputs[1].items, out, last);
  }

  /**
   * Two inputs, neither of which repeats an object. If every maximal block of objects of the second that
   * the first has as well and that is not at the end has even length, exactly the objects are listed whose
   * tuple, of the first input where it has one, is met. If all are met, it is only then that all objects
   * are listed.
   */
  ghost predicate TwinLists(a: seq<Entry>, b: seq<Entry>, keys: seq<string>) {
    && (B.EvenBlocks(S.Shared(a, b, None)) ==> forall x :: x in keys <==> Prevails(a, b, x))
    && ((forall e :: e in a || e in b ==> e.cond.Met?) ==>
         ((forall x :: S.HasKey(a, x) || S.HasKey(b, x) ==> x in keys) <==> B.EvenBlocks(S.Shared(a, b, None))))
  }

  /** The object's tuple of the first input, or of the second if the first has none, is met. */
  predicate Prevails(a: seq<Entry>, b: seq<Entry>, x: string) {
    M.Entry(x, Met) in a || (M.Entry(x, Met) in b && !S.HasKey(a, x))
  }

  lemma TwinDelivers(a: seq<Entry>, b: seq<Entry>, out: seq<Entry>, last: M.Pull)
    requires M.StrictlySorted(a) && M.StrictlySorted(b) && (forall e :: e in out ==> e in a || e in b)
    requires R.TwinEnded(a, b, out, last)
    ensures TwinLists(a, b, KeysOf(Passing(out, EntryCondition)))
  {
    var keys := KeysOf(Passing(out, EntryCondition));
    forall x ensures x in keys <==> M.Entry(x, Met) in out { KeyIsMet(out, x); }
    if R.AllKeys(a, b, out) {
      forall x ensures M.Entry(x, Met) in out <==> Prevails(a, b, x) { TwinPrevails(a, b, out, x); }
    }
    if forall e :: e in a || e in b ==> e.cond.Met? {
      forall x ensures S.HasKey(out, x) <==> M.Entry(x, Met) in out { MetByKey(out, x); }
    }
  }

  lemma KeyIsMet(out: seq<Entry>, x: string)
    ensures x in KeysOf(Passing(out, EntryCondition)) <==> M.Entry(x, Met) in out
  {
    var passing := Passing(out, EntryCondition);
    PassingMembers(out, EntryCondition);
    if x in KeysOf(passing) {
      var i :| 0 <= i < |passing| && KeysOf(passing)[i] == x;
      assert passing[i] in passing && passing[i] == M.Entry(x, Met);
    }
    if M.Entry(x, Met) in out {
      var i :| 0 <= i < |passing| && passing[i] == M.Entry(x, Met);
      assert KeysOf(passing)[i] == x;
    }
  }

  lemma MetByKey(out: seq<Entry>, x: string)
    requires forall e :: e in out ==> e.cond.Met?
    ensures S.HasKey(out, x) <==> M.Entry(x, Met) in out
  {
    if S.HasKey(out, x) {
      var i :| 0 <= i < |out| && out[i].key == x;
      assert out[i] in out && out[i] == M.Entry(x, Met);
    }
  }

  lemma TwinPrevails(a: seq<Entry>, b: seq<Entry>, out: seq<Entry>, x: string)
    requires M.StrictlySorted(a) && M.StrictlySorted(b) && R.AllKeys(a, b, out)
    requires forall e :: e in out ==> e in a || (e in b && !S.HasKey(a, e.key))
    ensures M.Entry(x, Met) in out <==> Prevails(a, b, x)
  {
    if Prevails(a, b, x) {
      assert S.HasKey(a, x) || S.HasKey(b, x) by { EntryHasKey(a, x); EntryHasKey(b, x); }
      var i :| 0 <= i < |out| && out[i].key == x;
      assert out[i] in out;
      EntryHasKey(a, x);
      if out[i] in a {
        OneEntryPerKey(a, out[i], M.Entry(x, Met));
      } else {
        OneEntryPerKey(b, out[i], M.Entry(x, Met));
      }
    }
  }

  lemma EntryHasKey(s: seq<Entry>, x: string)
    ensures M.Entry(x, Met) in s ==> S.HasKey(s, x)
    ensures forall e :: e in s ==> S.HasKey(s, e.key)
  {
  }

  lemma OneEntryPerKey(s: seq<Entry>, d: Entry, e: Entry)
    requires M.StrictlySorted(s) && d in s && d.key == e.key
    ensures e in s ==> d == e
  {
    if e in s {
      var i :| 0 <= i < |s| && s[i] == d;
      var j :| 0 <= j < |s| && s[j] == e;
      LessIrreflexive(e.key);
    }
  }

  /** If no object is read twice, all directly related objects are listed, unless an error ends the read. */
  lemma OnceDelivers(sc: Scope, r: string, inputs: seq<M.Input>, out: seq<Entry>, last: M.Pull, valid: seq<Entry>,
                     end: RowRead<Entry>)
    requires (sc.typ, r) in sc.w.relations && Reads(sc, r, inputs) && ReadOnce(inputs) && R.Drains(inputs, out, last)
    requires forall o: Object :: o.typ == sc.typ && (o, r) in sc.w.rows ==> ValidObject(ObjectString(o))
    requires valid == Passing(out, EntryCondition) && end == Ending(out, last.Fail?, EntryCondition)
    ensures LeafOk(Listing(sc, r, DirectObjects(sc.w, sc.user, sc.typ, r)), r, OneBatch(KeysOf(valid), !end.End?))
    ensures !end.End? ==>
      !M.NoFaults(M.Wrap(inputs)) || (KeysOf(valid) == [] && exists e :: Stands(sc, r, e) && e.cond.Broken?)
  {
    OnceItems(inputs);
    ReadDelivers(sc, r, inputs, out, last, KeysOf(valid));
    LeafReadOk(sc, r, KeysOf(valid), !end.End?, last.Done?);
    if end.FilterError? { BrokenStands(sc, r, inputs, out, last); }
  }

  lemma OnceItems(inputs: seq<M.Input>)
    requires ReadOnce(inputs)
    ensures M.OneEach(M.ItemsIn(M.Wrap(inputs)))
  {
    var items, whole := M.ItemsIn(M.Wrap(inputs)), Whole(inputs);
    forall x ensures items[x] <= whole[x] <= 1 {}
    forall x | x in items ensures x in whole {}
  }

  lemma LeafReadOk(sc: Scope, r: string, s: seq<string>, fails: bool, done: bool)
    requires Ascending(s) && multiset(s) <= multiset(DirectObjects(sc.w, sc.user, sc.typ, r)) && (!fails ==> done)
    requires done ==> multiset(s) == multiset(DirectObjects(sc.w, sc.user, sc.typ, r))
    requires forall x, y :: x in s && y in DirectObjects(sc.w, sc.user, sc.typ, r) && y !in s ==> Leq(x, y)
    requires forall o: Object :: o.typ == sc.typ && (o, r) in sc.w.rows ==> ValidObject(ObjectString(o))
    ensures LeafOk(Listing(sc, r, DirectObjects(sc.w, sc.user, sc.typ, r)), r, OneBatch(s, fails))
  {
    var m := DirectObjects(sc.w, sc.user, sc.typ, r);
    forall x, y | x in s && y in multiset(m) - multiset(s) ensures Leq(x, y) { NotDelivered(s, m, y); }
    forall x | x in multiset(m) ensures ValidObject(x) { DirectIsValid(sc, r, x); }
    assert Listing(sc, r, m).Listed(r) == m;
  }

  lemma NotDelivered(s: seq<string>, m: set<string>, y: string)
    requires y in multiset(m) - multiset(s)
    ensures y in m && y !in s
  {
    assert multiset(m)[y] <= 1;
    assert y in s ==> multiset(s)[y] >= 1;
  }

  lemma BrokenStands(sc: Scope, r: string, inputs: seq<M.Input>, out: seq<Entry>, last: M.Pull)
    requires Reads(sc, r, inputs) && NothingValid(out, EntryCondition)
    requires R.FirstPart(out, last, M.ItemsIn(M.Wrap(inputs)), M.BeyondIn(M.Wrap(inputs)))
    ensures exists e :: Stands(sc, r, e) && e.cond.Broken?
  {
    var i :| 0 <= i < |out| && EntryCondition(out[i]).Broken?;
    assert out[i] in multiset(out) && out[i] in Whole(inputs);
  }

  // ------------------------------------------------------------ objects read twice

  /** No contextual tuples, and these stored ones. */
  function StoredOnly(items: seq<Entry>): seq<M.Input> {
    [M.Input([], false, []), M.Input(items, false, [])]
  }

  lemma OneInput(items: seq<Entry>)
    requires M.Sorted(items)
    ensures (forall i :: 0 <= i < 2 ==> M.InputOk(StoredOnly(items)[i])) && Whole(StoredOnly(items)) == multiset(items)
    ensures M.Sole(M.Wrap(StoredOnly(items)), None) && M.Joined(M.Wrap(StoredOnly(items))) == items
  {
    var a, b := Some(M.Input([], false, [])), Some(M.Input(items, false, []));
    var w := M.Wrap(StoredOnly(items));
    assert w == [a] + [b] && w[1..] == [b] && [b] + [] == [b] && [b][1..] == [];
    M.HeadItems(a, [b]);
    M.HeadItems(b, []);
    assert M.Joined([b]) == items && M.Alone([b]);
  }

  /**
   * One sorted read, each object at most twice: the batch lists exactly the directly related objects if
   * and only if no tuple whose condition is met depends on a copy, or on an object behind a copy, that the
   * merge drops.
   */
  lemma SoleLeafExact(sc: Scope, r: string, items: seq<Entry>)
    requires (sc.typ, r) in sc.w.relations && M.Sorted(items) && K.AtMostTwice(items) && Reads(sc, r, StoredOnly(items))
    ensures M.Sole(M.Wrap(StoredOnly(items)), None) && M.Joined(M.Wrap(StoredOnly(items))) == items
    ensures (forall x :: x in KeysOf(Passing(R.SoleRun(items, None), EntryCondition)) <==>
      x in DirectObjects(sc.w, sc.user, sc.typ, r))
      <==> K.Keeps(items)
  {
    OneInput(items);
    OneInputStands(sc, r, items);
    SoleKeysExact(sc, r, items);
  }

  lemma OneInputStands(sc: Scope, r: string, items: seq<Entry>)
    requires M.Sorted(items) && Reads(sc, r, StoredOnly(items))
    ensures forall e :: e in items <==> Stands(sc, r, e)
  {
    OneInput(items);
    forall e ensures e in items <==> Stands(sc, r, e) { assert e in items <==> e in Whole(StoredOnly(items)); }
  }

  lemma SoleKeysExact(sc: Scope, r: string, items: seq<Entry>)
    requires (sc.typ, r) in sc.w.relations && M.Sorted(items) && K.AtMostTwice(items) && forall e :: e in items <==>
      Stands(sc, r, e)
    ensures (forall x :: x in KeysOf(Passing(R.SoleRun(items, None), EntryCondition)) <==>
      x in DirectObjects(sc.w, sc.user, sc.typ, r))
      <==> K.Keeps(items)
  {
    var out := R.SoleRun(items, None);
    K.RunMembers(items, None);
    K.KeepsIff(items);
    forall x ensures x in KeysOf(Passing(out, EntryCondition)) <==> M.Entry(x, Met) in out { KeyIsMet(out, x); }
    forall x ensures x in DirectObjects(sc.w, sc.user, sc.typ, r) <==>
      M.Entry(x, Met) in items { DirectIffMet(sc, r, x); }
    assert K.MetDelivered(items) <==> forall x :: M.Entry(x, Met) in items ==> M.Entry(x, Met) in out by {
      forall e | e in items && e.cond.Met? ensures e == M.Entry(e.key, Met) {}
    }
  }

  const ONE := Object("doc", "1")
  const TWO := Object("doc", "2")
  const ANNE := User(Object("user", "anne"), "")
  const VIEWER := Relation(This, [Direct("user"), Public("user")])

  /** `doc:1#viewer@user:anne`, `doc:1#viewer@user:*` and `doc:2#viewer@user:anne`; the conditions on `doc:1` vary. */
  function TwoDocs(first: Condition, second: Condition): Scope {
    var rows := map[(ONE, "viewer") := [Row(ANNE, first), Row(WildcardOf("user"), second)],
      (TWO, "viewer") := [Row(ANNE, Met)]];
    Scope(World({"doc", "user"}, map[("doc", "viewer") := VIEWER], rows, map[], imap[]), ANNE, "doc",
      map["viewer" := 0], map[])
  }

  function Listed(first: Condition, second: Condition): seq<Entry> {
    [M.Entry("doc:1", first), M.Entry("doc:1", second), M.Entry("doc:2", Met)]
  }

  lemma DocsRead(first: Condition, second: Condition)
    ensures forall e :: e in Listed(first, second) <==> Stands(TwoDocs(first, second), "viewer", e)
  {
    var sc := TwoDocs(first, second);
    var docs := sc.w.Rows(ONE, "viewer");
    assert ObjectString(ONE) == "doc:1" && ObjectString(TWO) == "doc:2";
    assert docs[0] in docs && docs[1] in docs && sc.w.Rows(TWO, "viewer")[0] in sc.w.Rows(TWO, "viewer");
    forall e | e in Listed(first, second) ensures Stands(sc, "viewer", e) {
      if e == M.Entry("doc:1", first) {
        assert ONE.typ == "doc" && IsRead(VIEWER, ANNE, docs[0]);
      } else if e == M.Entry("doc:1", second) {
        assert ONE.typ == "doc" && IsRead(VIEWER, ANNE, docs[1]);
      } else {
        assert TWO.typ == "doc" && IsRead(VIEWER, ANNE, sc.w.Rows(TWO, "viewer")[0]);
      }
    }
    forall e | Stands(sc, "viewer", e) ensures e in Listed(first, second) {
      var o: Object, row :| o.typ == sc.typ && row in sc.w.Rows(o, "viewer") && IsRead(VIEWER, ANNE, row) &&
        e == M.Entry(ObjectString(o), row.cond);
      assert o == ONE || o == TWO;
    }
  }

  lemma ListedSorted(first: Condition, second: Condition)
    ensures M.Sorted(Listed(first, second)) && K.AtMostTwice(Listed(first, second))
  {
    DocsLess();
  }

  lemma DocsLess()
    ensures Less("doc:1", "doc:2")
  {
    assert "doc:1"[1..] == "oc:1" && "doc:2"[1..] == "oc:2" && "oc:1"[1..] == "c:1" && "oc:2"[1..] == "c:2";
    assert "c:1"[1..] == ":1" && "c:2"[1..] == ":2" && ":1"[1..] == "1" && ":2"[1..] == "2";
    assert Less("1", "2");
  }

  lemma ListedRun(first: Condition, second: Condition)
    ensures KeysOf(Passing(R.SoleRun(Listed(first, second), None), EntryCondition)) == if first.Met? then ["doc:1"]
      else []
  {
    K.DoubleRun(Listed(first, second));
    OneEntry(M.Entry("doc:1", first));
  }

  lemma OneEntry(e: Entry)
    ensures KeysOf(Passing([e], EntryCondition)) == if e.cond.Met? then [e.key] else []
  {
    assert [e][1..] == [];
  }

  lemma DocsInputs(first: Condition, second: Condition)
    ensures Reads(TwoDocs(first, second), "viewer", StoredOnly(Listed(first, second)))
  {
    ListedSorted(first, second);
    DocsRead(first, second);
    OneInput(Listed(first, second));
  }

  /** An object behind one that is read twice is lost, though its tuple is valid. */
  lemma LosesNextObject()
    ensures var sc, items := TwoDocs(Met, Met), Listed(Met, Met);
      && Reads(sc, "viewer", StoredOnly(items)) && "doc:2" in DirectObjects(sc.w, sc.user, sc.typ, "viewer")
      && KeysOf(Passing(R.SoleRun(items, None), EntryCondition)) == ["doc:1"]
  {
    DocsInputs(Met, Met);
    DocsRead(Met, Met);
    DirectIffMet(TwoDocs(Met, Met), "viewer", "doc:2");
    ListedRun(Met, Met);
  }

  /** Of an object that is read twice the copy whose condition is met may be the one that is dropped. */
  lemma DropsValidCopy()
    ensures var sc, items := TwoDocs(Unmet, Met), Listed(Unmet, Met);
      && Reads(sc, "viewer", StoredOnly(items)) && "doc:1" in DirectObjects(sc.w, sc.user, sc.typ, "viewer")
      && KeysOf(Passing(R.SoleRun(items, None), EntryCondition)) == []
  {
    DocsInputs(Unmet, Met);
    DocsRead(Unmet, Met);
    DirectIffMet(TwoDocs(Unmet, Met), "viewer", "doc:1");
    ListedRun(Unmet, Met);
  }
}
