/** The iterator that filters tuples by their conditions. */
module ConditionFilter {
  import opened Model

  /** A read: a tuple, the end, a condition that failed to evaluate, or an error of the underlying iterator. */
  datatype RowRead<T> = Tuple(row: T) | End | FilterError | SourceError

  /** The tuples whose condition is met. */
  function Passing<T>(rows: seq<T>, filter: T -> Condition): seq<T> {
    if rows == [] then []
    else (if filter(rows[0]).Met? then [rows[0]] else []) + Passing(rows[1..], filter)
  }

  predicate HasBroken<T>(rows: seq<T>, filter: T -> Condition) {
    exists i :: 0 <= i < |rows| && filter(rows[i]).Broken?
  }

  /** No tuple is valid and some condition fails to evaluate. */
  predicate NothingValid<T>(rows: seq<T>, filter: T -> Condition) {
    Passing(rows, filter) == [] && HasBroken(rows, filter)
  }

  function ConditionOf(row: Row): Condition {
    row.cond
  }

  /** On the tuples of a check, this is what their visible part and its error are. */
  lemma {:induction false} PassingVisible(rows: seq<Row>)
    ensures Passing(rows, ConditionOf) == Visible(rows) && (NothingValid(rows, ConditionOf) <==> EndsInError(rows))
  {
    if rows != [] { PassingVisible(rows[1..]); }
    assert HasBroken(rows, ConditionOf) <==> exists i :: 0 <= i < |rows| && rows[i].cond.Broken?;
  }

  lemma {:induction false} PassingMembers<T>(rows: seq<T>, filter: T -> Condition)
    ensures forall x :: x in Passing(rows, filter) ==> x in rows && filter(x).Met?
    ensures forall x :: x in rows && filter(x).Met? ==> x in Passing(rows, filter)
  {
    if rows != [] { PassingMembers(rows[1..], filter); }
  }

  lemma {:induction false} PassingConcat<T>(a: seq<T>, b: seq<T>, filter: T -> Condition)
    ensures Passing(a + b, filter) == Passing(a, filter) + Passing(b, filter)
  {
    if a == [] {
      assert a + b == b;
    } else {
      assert (a + b)[1..] == a[1..] + b;
      PassingConcat(a[1..], b, filter);
      var head := if filter(a[0]).Met? then [a[0]] else [];
      assert (head + Passing(a[1..], filter)) + Passing(b, filter) ==
        head + (Passing(a[1..], filter) + Passing(b, filter));
    }
  }

  lemma BrokenConcat<T>(a: seq<T>, b: seq<T>, filter: T -> Condition)
    ensures HasBroken(a + b, filter) <==> HasBroken(a, filter) || HasBroken(b, filter)
  {
    assert forall i :: 0 <= i < |a| ==> (a + b)[i] == a[i];
    assert forall i :: 0 <= i < |b| ==> (a + b)[|a| + i] == b[i];
  }

  /** The flags fit what was taken. */
  ghost predicate Consistent<T>(filter: T -> Condition, all: seq<T>, taken: seq<T>, rows: seq<T>, onceValid: bool,
                                lastError: bool, reported: bool) {
    && all == taken + rows
    && (Passing(taken, filter) != [] ==> onceValid)
    && (onceValid ==> Passing(all, filter) != [])
    && (lastError <==> HasBroken(taken, filter) && !reported)
    && (reported ==> rows == [])
  }

  /** What the next read is: the first valid tuple; at the end an error only if no tuple was ever valid. */
  ghost function Outlook<T>(filter: T -> Condition, all: seq<T>, rows: seq<T>, fails: bool,
                            reported: bool): RowRead<T> {
    if Passing(rows, filter) != [] then Tuple(Passing(rows, filter)[0])
    else if fails then SourceError
    else if NothingValid(all, filter) && !reported then FilterError
    else End
  }

  /** Taking one row. */
  lemma Taken<T>(filter: T -> Condition, rows: seq<T>, taken: seq<T>)
    requires rows != []
    ensures taken + rows == (taken + [rows[0]]) + rows[1..]
    ensures Passing(taken + [rows[0]], filter) == Passing(taken, filter) + (if filter(rows[0]).Met? then [rows[0]]
      else [])
    ensures HasBroken(taken + [rows[0]], filter) <==> HasBroken(taken, filter) || filter(rows[0]).Broken?
  {
    var row := rows[0];
    PassingConcat(taken, [row], filter);
    assert [row][1..] == [] && Passing([row], filter) == if filter(row).Met? then [row] else [];
    BrokenConcat(taken, [row], filter);
    assert HasBroken([row], filter) <==> filter(row).Broken? by { assert [row][0] == row; }
  }

  /** Taking a row that is not valid. */
  lemma SkipConsistent<T>(filter: T -> Condition, all: seq<T>, taken: seq<T>, rows: seq<T>, onceValid: bool,
                          lastError: bool, reported: bool)
    requires Consistent(filter, all, taken, rows, onceValid, lastError, reported) && rows != [] && !filter(rows[0]).Met?
    ensures Consistent(filter, all, taken + [rows[0]], rows[1..], onceValid, lastError ||
      filter(rows[0]).Broken?, reported)
    ensures Passing(rows, filter) == Passing(rows[1..], filter)
  {
    Taken(filter, rows, taken);
  }

  /** Taking a valid row. */
  lemma TakeConsistent<T>(filter: T -> Condition, all: seq<T>, taken: seq<T>, rows: seq<T>, onceValid: bool,
                          lastError: bool, reported: bool)
    requires Consistent(filter, all, taken, rows, onceValid, lastError, reported) && rows != [] && filter(rows[0]).Met?
    ensures Consistent(filter, all, taken + [rows[0]], rows[1..], true, lastError, reported)
    ensures Consistent(filter, all, taken, rows, true, lastError, reported)
    ensures Passing(rows, filter) == [rows[0]] + Passing(rows[1..], filter)
  {
    Taken(filter, rows, taken);
    PassingConcat(taken, rows, filter);
  }

  class ConditionsFilteredTupleKeyIterator<T(==)> {
    const filter: T -> Condition
    /** What the underlying iterator has left, and whether it ends in an error. */
    var rows: seq<T>
    const fails: bool
    var lastError: bool
    var onceValid: bool
    /** All tuples, those already taken, and whether a filter error was returned. */
    ghost const all: seq<T>
    ghost var taken: seq<T>
    ghost var reported: bool

    ghost predicate Valid()
      reads this
    {
      Consistent(filter, all, taken, rows, onceValid, lastError, reported)
    }

    constructor (rows: seq<T>, fails: bool, filter: T -> Condition)
      ensures Valid() && all == rows && taken == [] && !reported && this.rows == rows && this.fails == fails
      ensures this.filter == filter
    {
      this.rows, this.fails, this.filter, lastError, onceValid := rows, fails, filter, false, false;
      all, taken, reported := rows, [], false;
    }

    ghost function Upcoming(): RowRead<T>
      reads this
    {
      Outlook(filter, all, rows, fails, reported)
    }

    /** The valid tuples still to come. */
    ghost function Left(): seq<T>
      reads this
    {
      Passing(rows, filter)
    }

    /** Takes the first row, which is not valid. */
    method Skip(broken: bool)
      requires Valid() && rows != [] && !filter(rows[0]).Met? && broken == filter(rows[0]).Broken?
      modifies this`rows, this`lastError, this`taken
      ensures Valid() && rows == old(rows[1..]) && Upcoming() == old(Upcoming()) && Left() == old(Left())
    {
      SkipConsistent(filter, all, taken, rows, onceValid, lastError, reported);
      if broken { lastError := true; }
      taken, rows := taken + [rows[0]], rows[1..];
    }

    /** At the end of the rows the flags decide the outcome. */
    lemma AtEnd()
      requires Valid() && rows == []
      ensures !fails ==> (Upcoming() == FilterError <==> !onceValid && lastError)
    {
      assert taken == all;
    }

    method Next() returns (r: RowRead<T>)
      requires Valid()
      modifies this`rows, this`lastError, this`onceValid, this`taken, this`reported
      ensures Valid() && r == old(Upcoming())
      ensures r.Tuple? ==> old(Left()) == [r.row] + Left()
      ensures !r.Tuple? ==> old(Left()) == Left() == []
      ensures reported <==> old(reported) || r.FilterError?
    {
      while rows != [] && !filter(rows[0]).Met?
        invariant Valid() && Upcoming() == old(Upcoming()) && Left() == old(Left()) && reported == old(reported)
        decreases |rows|
      {
        Skip(filter(rows[0]).Broken?);
      }
      if rows == [] {
        AtEnd();
        if fails { return SourceError; }
        if onceValid || !lastError { return End; }
        lastError, reported := false, true;
        return FilterError;
      }
      TakeConsistent(filter, all, taken, rows, onceValid, lastError, reported);
      r := Tuple(rows[0]);
      onceValid, taken, rows := true, taken + [rows[0]], rows[1..];
    }

    /** Head previews the following Next, and changes nothing that later reads return. */
    method Head() returns (r: RowRead<T>)
      requires Valid()
      modifies this`rows, this`lastError, this`onceValid, this`taken
      ensures Valid() && r == old(Upcoming()) && Upcoming() == old(Upcoming()) && Left() == old(Left())
    {
      while rows != [] && !filter(rows[0]).Met?
        invariant Valid() && Upcoming() == old(Upcoming()) && Left() == old(Left()) && reported == old(reported)
        decreases |rows|
      {
        Skip(filter(rows[0]).Broken?);
      }
      if rows == [] {
        AtEnd();
        if fails { return SourceError; }
        if onceValid || !lastError { return End; }
        return FilterError;
      }
      TakeConsistent(filter, all, taken, rows, onceValid, lastError, reported);
      onceValid := true;
      return Tuple(rows[0]);
    }
  }

  /** How a filtered iterator ends. */
  function Ending<T(==)>(rows: seq<T>, fails: bool, filter: T -> Condition): RowRead<T> {
    if fails then SourceError else if NothingValid(rows, filter) then FilterError else End
  }

  /**
   * Reading a new iterator to the end, with any previews in between: exactly the valid tuples in order,
   * then an error of the filter if and only if none was valid and some condition failed.
   */
  method ReadAll<T(==)>(rows: seq<T>, fails: bool, filter: T -> Condition, peek: nat -> bool)
    returns (out: seq<T>, last: RowRead<T>)
    ensures out == Passing(rows, filter) && last == Ending(rows, fails, filter)
    ensures (forall x :: x in out ==> x in rows && filter(x) == Met) && forall x :: x in rows && filter(x) == Met ==>
      x in out
    ensures !last.Tuple? && (last.SourceError? <==> fails)
    ensures last.FilterError? <==> !fails && (exists x :: x in rows && filter(x) == Broken) && forall x :: x in rows ==>
      filter(x) != Met
  {
    var it := new ConditionsFilteredTupleKeyIterator(rows, fails, filter);
    out, last := [], End;
    var more, k := true, 0;
    while more
      invariant fresh(it) && it.Valid() && it.all == rows && it.fails == fails && it.filter == filter
      invariant out + it.Left() == Passing(rows, filter)
      invariant more ==> !it.reported
      invariant !more ==> it.Left() == [] && last == Ending(rows, fails, filter)
      decreases |it.Left()| + if more then 1 else 0
    {
      if peek(k) { var preview := it.Head(); }
      k := k + 1;
      more, out, last := Step(it, out);
    }
    assert out + [] == out;
    PassingMembers(rows, filter);
    NothingValidExact(rows, filter);
  }

  lemma NothingValidExact<T>(rows: seq<T>, filter: T -> Condition)
    ensures NothingValid(rows, filter) <==> (exists x :: x in rows && filter(x) == Broken) && forall x :: x in rows ==>
      filter(x) != Met
  {
    PassingMembers(rows, filter);
    assert HasBroken(rows, filter) <==> exists x :: x in rows && filter(x) == Broken by {
      if x :| x in rows && filter(x) == Broken {
        var i :| 0 <= i < |rows| && rows[i] == x;
      }
    }
    assert Passing(rows, filter) == [] <==> forall x :: x in rows ==> filter(x) != Met by {
      if Passing(rows, filter) != [] { assert Passing(rows, filter)[0] in Passing(rows, filter); }
    }
  }

  method Step<T(==)>(it: ConditionsFilteredTupleKeyIterator<T>, out: seq<T>)
    returns (more: bool, out': seq<T>, r: RowRead<T>)
    requires it.Valid()
    modifies it
    ensures it.Valid() && r == old(it.Upcoming()) && more == r.Tuple?
    ensures (it.reported <==> old(it.reported) || r.FilterError?)
    ensures out' + it.Left() == out + old(it.Left())
    ensures |it.Left()| + (if more then 1 else 0) == |old(it.Left())| && (!more ==> it.Left() == [])
  {
    r := it.Next();
    more := r.Tuple?;
    out' := if more then out + [r.row] else out;
    if more { assert (out + [r.row]) + it.Left() == out + ([r.row] + it.Left()); }
  }
}
