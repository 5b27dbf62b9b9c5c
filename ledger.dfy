/**
 * The records the renumbering works on, as the accounting module stores
 * them, and the repository operations it calls: a search by domain, the
 * `(date ASC, id ASC)` order, and the bulk write of moves with its
 * check on posted moves.
 */
module Ledger {

  datatype Option<T> = None | Some(value: T)

  type MoveId = nat
  type PeriodId = nat
  type FiscalYearId = nat
  type SequenceId = nat
  /** A date, as an orderable day number. */
  type Date = int

  datatype MoveState = Draft | Posted

  /** An account move: only the fields the renumbering reads or writes. */
  datatype Move = Move(id: MoveId, date: Date, period: PeriodId, state: MoveState, number: Option<int>)

  /** A period and its own move sequence override, if it has one. */
  datatype Period = Period(fiscalyear: FiscalYearId, moveSequence: Option<SequenceId>)

  /** A fiscal year: its default move sequence and its periods. */
  datatype FiscalYear = FiscalYear(moveSequence: SequenceId, periods: seq<PeriodId>)

  /** The fiscal years and periods; read-only for the renumbering. */
  datatype Calendar = Calendar(fiscalYears: map<FiscalYearId, FiscalYear>, periods: map<PeriodId, Period>)

  /** A fiscal year lists exactly the periods that point back to it. */
  ghost predicate CalendarValid(cal: Calendar)
  {
    && (forall y, p :: y in cal.fiscalYears && p in cal.fiscalYears[y].periods ==>
          p in cal.periods && cal.periods[p].fiscalyear == y)
    && (forall p :: p in cal.periods ==>
          cal.periods[p].fiscalyear in cal.fiscalYears &&
          p in cal.fiscalYears[cal.periods[p].fiscalyear].periods)
  }

  ghost predicate DistinctIds(s: seq<Move>)
  {
    forall i, j :: 0 <= i < j < |s| ==> s[i].id != s[j].id
  }

  /*
   * Search domains: a list of clauses that must all hold.
   */

  datatype Clause = FiscalYearIs(fiscalyear: FiscalYearId) | StateIs(state: MoveState) | NumberNotNull

  type Domain = seq<Clause>

  /** `('period.fiscalyear', '=', fy)`, `('state', '=', s)`, `('number', '!=', None)`. */
  predicate Satisfies(cal: Calendar, m: Move, c: Clause)
  {
    match c
    case FiscalYearIs(fy) => m.period in cal.periods && cal.periods[m.period].fiscalyear == fy
    case StateIs(s) => m.state == s
    case NumberNotNull => m.number.Some?
  }

  predicate Matches(cal: Calendar, m: Move, d: Domain)
  {
    forall i :: 0 <= i < |d| ==> Satisfies(cal, m, d[i])
  }

  /** The moves of the table that match the domain, in table order. */
  function Search(cal: Calendar, moves: seq<Move>, d: Domain): seq<Move>
  {
    if moves == [] then []
    else
      var rest := Search(cal, moves[1..], d);
      if Matches(cal, moves[0], d) then [moves[0]] + rest else rest
  }

  /** A search finds exactly the moves of the table that match the domain. */
  lemma {:induction false} SearchFinds(cal: Calendar, moves: seq<Move>, d: Domain)
    ensures forall x :: x in Search(cal, moves, d) <==> x in moves && Matches(cal, x, d)
    decreases |moves|
  {
    if moves != [] {
      SearchFinds(cal, moves[1..], d);
      assert moves == [moves[0]] + moves[1..];
    }
  }

  /** A search result keeps the table's distinct ids. */
  lemma {:induction false} SearchDistinct(cal: Calendar, moves: seq<Move>, d: Domain)
    requires DistinctIds(moves)
    ensures DistinctIds(Search(cal, moves, d))
    decreases |moves|
  {
    if moves != [] {
      var rest := Search(cal, moves[1..], d);
      SearchDistinct(cal, moves[1..], d);
      SearchFinds(cal, moves[1..], d);
      assert forall x :: x in rest ==> x.id != moves[0].id by {
        forall x | x in rest ensures x.id != moves[0].id {
          var j :| 0 <= j < |moves[1..]| && moves[1..][j] == x;
          assert moves[j + 1] == x;
        }
      }
      if Matches(cal, moves[0], d) {
        var r := [moves[0]] + rest;
        forall i, j | 0 <= i < j < |r| ensures r[i].id != r[j].id {
          if i == 0 { assert r[j] in rest; } else { assert r[i] == rest[i - 1] && r[j] == rest[j - 1]; }
        }
      }
    }
  }

  /*
   * The order `[('date', 'ASC'), ('id', 'ASC')]`.
   */

  predicate Before(a: Move, b: Move)
  {
    a.date < b.date || (a.date == b.date && a.id < b.id)
  }

  ghost predicate StrictlyOrdered(s: seq<Move>)
  {
    forall i, j :: 0 <= i < j < |s| ==> Before(s[i], s[j])
  }

  /** Puts m in front of the first move it comes before. */
  function Insert(m: Move, s: seq<Move>): (r: seq<Move>)
  {
    if s == [] then [m]
    else if Before(m, s[0]) then [m] + s
    else [s[0]] + Insert(m, s[1..])
  }

  /** Insertion adds exactly the one move. */
  lemma {:induction false} InsertPermutes(m: Move, s: seq<Move>)
    ensures multiset(Insert(m, s)) == multiset(s) + multiset{m}
    decreases |s|
  {
    if s != [] {
      assert s == [s[0]] + s[1..];
      InsertPermutes(m, s[1..]);
    }
  }

  /** A move before every member of an ordered list of distinct ids heads an ordered list. */
  lemma ConsOrdered(a: Move, s: seq<Move>)
    requires StrictlyOrdered(s) && DistinctIds(s)
    requires forall x :: x in s ==> Before(a, x) && a.id != x.id
    ensures StrictlyOrdered([a] + s) && DistinctIds([a] + s)
  {
    var r := [a] + s;
    forall i, j | 0 <= i < j < |r| ensures Before(r[i], r[j]) && r[i].id != r[j].id {
      if i == 0 { assert r[j] in s; } else { assert r[i] == s[i - 1] && r[j] == s[j - 1]; }
    }
  }

  /** Insertion into an ordered list of distinct ids keeps it ordered and distinct. */
  lemma {:induction false} InsertOrdered(m: Move, s: seq<Move>)
    requires StrictlyOrdered(s) && DistinctIds(s)
    requires forall x :: x in s ==> x.id != m.id
    ensures StrictlyOrdered(Insert(m, s)) && DistinctIds(Insert(m, s))
    decreases |s|
  {
    if s != [] && !Before(m, s[0]) {
      var rest := Insert(m, s[1..]);
      assert s == [s[0]] + s[1..];
      InsertOrdered(m, s[1..]);
      InsertPermutes(m, s[1..]);
      forall x | x in rest ensures Before(s[0], x) && s[0].id != x.id {
        assert x in multiset(s[1..]) + multiset{m};
        if x != m {
          var j :| 0 <= j < |s[1..]| && s[1..][j] == x;
          assert s[j + 1] == x;
        }
      }
      ConsOrdered(s[0], rest);
    } else if s != [] {
      forall x | x in s ensures Before(m, x) && m.id != x.id {
        var j :| 0 <= j < |s| && s[j] == x;
        if j > 0 { assert Before(s[0], s[j]); }
      }
      ConsOrdered(m, s);
    }
  }

  /** Sorts moves by date, then id (insertion sort). */
  function SortByDateId(s: seq<Move>): (r: seq<Move>)
  {
    if s == [] then [] else Insert(s[0], SortByDateId(s[1..]))
  }

  /** Sorting moves of distinct ids orders them strictly and permutes them. */
  lemma {:induction false} SortOrdered(s: seq<Move>)
    requires DistinctIds(s)
    ensures StrictlyOrdered(SortByDateId(s)) && DistinctIds(SortByDateId(s))
    ensures multiset(SortByDateId(s)) == multiset(s)
    decreases |s|
  {
    if s != [] {
      var rest := SortByDateId(s[1..]);
      SortOrdered(s[1..]);
      assert s == [s[0]] + s[1..];
      assert forall x :: x in rest ==> x.id != s[0].id by {
        forall x | x in rest ensures x.id != s[0].id {
          assert x in multiset(s[1..]);
          var j :| 0 <= j < |s[1..]| && s[1..][j] == x;
          assert s[j + 1] == x;
        }
      }
      InsertOrdered(s[0], rest);
      InsertPermutes(s[0], rest);
    }
  }

  /*
   * The bulk write `Move.write([m1], {'number': n1}, [m2], {'number': n2}, ...)`.
   */

  /** One staged assignment of a number to the move with that id. */
  datatype Staged = Staged(move: MoveId, number: int)

  /** The number the writes give to a move id: the last write to it wins. */
  function WrittenNumber(writes: seq<Staged>, id: MoveId): Option<int>
  {
    if writes == [] then None
    else if writes[|writes| - 1].move == id then Some(writes[|writes| - 1].number)
    else WrittenNumber(writes[..|writes| - 1], id)
  }

  /** A move after the writes: only its number can differ. */
  function Apply(m: Move, writes: seq<Staged>): (r: Move)
    ensures r.id == m.id && r.date == m.date && r.period == m.period && r.state == m.state
    ensures r.number == if WrittenNumber(writes, m.id).Some? then WrittenNumber(writes, m.id) else m.number
  {
    match WrittenNumber(writes, m.id)
    case Some(n) => m.(number := Some(n))
    case None => m
  }

  function ApplyWrites(moves: seq<Move>, writes: seq<Staged>): (r: seq<Move>)
  {
    seq(|moves|, k requires 0 <= k < |moves| => Apply(moves[k], writes))
  }

  /** Some number is written to a move iff one of the writes names it. */
  lemma {:induction false} WrittenNumberSome(writes: seq<Staged>, id: MoveId)
    ensures WrittenNumber(writes, id).Some? <==> exists k :: 0 <= k < |writes| && writes[k].move == id
    decreases |writes|
  {
    if writes != [] {
      var init := writes[..|writes| - 1];
      WrittenNumberSome(init, id);
      if k :| 0 <= k < |init| && init[k].move == id {
        assert writes[k] == init[k];
      }
      if k :| 0 <= k < |writes| && writes[k].move == id {
        if k < |init| {
          assert init[k] == writes[k];
        }
      }
    }
  }

  /** The writes name each move at most once. */
  ghost predicate DistinctTargets(writes: seq<Staged>)
  {
    forall a, b :: 0 <= a < b < |writes| ==> writes[a].move != writes[b].move
  }

  /** When each move is written at most once, it gets that write's number. */
  lemma {:induction false} WrittenNumberAt(writes: seq<Staged>, i: nat)
    requires DistinctTargets(writes) && i < |writes|
    ensures WrittenNumber(writes, writes[i].move) == Some(writes[i].number)
    decreases |writes|
  {
    var init := writes[..|writes| - 1];
    if i < |init| {
      assert init[i] == writes[i];
      WrittenNumberAt(init, i);
    }
  }

  /** The last write naming a move decides its number. */
  lemma {:induction false} WrittenNumberLast(writes: seq<Staged>, id: MoveId, j: nat)
    requires j < |writes| && writes[j].move == id
    requires forall l :: j < l < |writes| ==> writes[l].move != id
    ensures WrittenNumber(writes, id) == Some(writes[j].number)
    decreases |writes|
  {
    if j < |writes| - 1 {
      var init := writes[..|writes| - 1];
      assert init[j] == writes[j];
      forall l | j < l < |init| ensures init[l].move != id {
        assert init[l] == writes[l];
      }
      WrittenNumberLast(init, id, j);
    }
  }

  /**
   * What the bulk write does to the table: only numbers change; a move no
   * write names keeps its number; a move takes the number of the last
   * write naming it.
   */
  lemma ApplyWritesEffect(moves: seq<Move>, writes: seq<Staged>, k: nat)
    requires k < |moves|
    ensures |ApplyWrites(moves, writes)| == |moves|
    ensures ApplyWrites(moves, writes)[k].(number := moves[k].number) == moves[k]
    ensures (forall j :: 0 <= j < |writes| ==> writes[j].move != moves[k].id) ==> ApplyWrites(moves, writes)[k] == moves[k]
    ensures forall j ::
      (0 <= j < |writes| && writes[j].move == moves[k].id &&
       (forall l :: j < l < |writes| ==> writes[l].move != moves[k].id)) ==>
        ApplyWrites(moves, writes)[k].number == Some(writes[j].number)
  {
    WrittenNumberSome(writes, moves[k].id);
    forall j | 0 <= j < |writes| && writes[j].move == moves[k].id &&
      (forall l :: j < l < |writes| ==> writes[l].move != moves[k].id)
      ensures ApplyWrites(moves, writes)[k].number == Some(writes[j].number)
    {
      WrittenNumberLast(writes, moves[k].id, j);
    }
  }

  /** The field name under which moves store their number. */
  const NumberField: string := "number"

  /**
   * The accounting module's guard on writes: writing a field outside
   * `_check_modify_exclude` to a posted move is refused.
   */
  predicate ModifyRejected(moves: seq<Move>, writes: seq<Staged>, modifyExclude: set<string>)
  {
    NumberField !in modifyExclude &&
    exists k :: 0 <= k < |moves| && moves[k].state == Posted && WrittenNumber(writes, moves[k].id).Some?
  }

  /** The bulk write is refused iff `number` is not exempt and a write names a posted move. */
  lemma ModifyRejectedIff(moves: seq<Move>, writes: seq<Staged>, modifyExclude: set<string>)
    ensures ModifyRejected(moves, writes, modifyExclude) <==>
      NumberField !in modifyExclude &&
      exists k, j :: 0 <= k < |moves| && 0 <= j < |writes| && moves[k].state == Posted && writes[j].move == moves[k].id
  {
    forall k | 0 <= k < |moves| {
      WrittenNumberSome(writes, moves[k].id);
    }
  }

  /*
   * Writing numbers commutes with searching and sorting when it does not
   * change which moves match.
   */

  lemma ApplyWritesCons(m: Move, s: seq<Move>, writes: seq<Staged>)
    ensures ApplyWrites([m] + s, writes) == [Apply(m, writes)] + ApplyWrites(s, writes)
  {
    var l, r := ApplyWrites([m] + s, writes), [Apply(m, writes)] + ApplyWrites(s, writes);
    assert forall k :: 0 <= k < |l| ==> l[k] == r[k] by {
      forall k | 0 <= k < |l| ensures l[k] == r[k] {
        if k > 0 { assert ([m] + s)[k] == s[k - 1]; }
      }
    }
  }

  lemma {:induction false} SearchApply(cal: Calendar, moves: seq<Move>, d: Domain, writes: seq<Staged>)
    requires forall x :: x in moves ==> (Matches(cal, Apply(x, writes), d) <==> Matches(cal, x, d))
    ensures Search(cal, ApplyWrites(moves, writes), d) == ApplyWrites(Search(cal, moves, d), writes)
    decreases |moves|
  {
    if moves != [] {
      assert moves == [moves[0]] + moves[1..];
      ApplyWritesCons(moves[0], moves[1..], writes);
      var a := ApplyWrites(moves, writes);
      assert a[1..] == ApplyWrites(moves[1..], writes);
      SearchApply(cal, moves[1..], d, writes);
      ApplyWritesCons(moves[0], Search(cal, moves[1..], d), writes);
    }
  }

  lemma {:induction false} InsertApply(m: Move, s: seq<Move>, writes: seq<Staged>)
    ensures Insert(Apply(m, writes), ApplyWrites(s, writes)) == ApplyWrites(Insert(m, s), writes)
    decreases |s|
  {
    if s != [] {
      assert s == [s[0]] + s[1..];
      ApplyWritesCons(s[0], s[1..], writes);
      ApplyWritesCons(m, s, writes);
      if !Before(m, s[0]) {
        InsertApply(m, s[1..], writes);
        ApplyWritesCons(s[0], Insert(m, s[1..]), writes);
      }
    } else {
      ApplyWritesCons(m, [], writes);
    }
  }

  lemma {:induction false} SortApply(s: seq<Move>, writes: seq<Staged>)
    ensures SortByDateId(ApplyWrites(s, writes)) == ApplyWrites(SortByDateId(s), writes)
    decreases |s|
  {
    if s != [] {
      assert s == [s[0]] + s[1..];
      ApplyWritesCons(s[0], s[1..], writes);
      var a := ApplyWrites(s, writes);
      assert a[1..] == ApplyWrites(s[1..], writes);
      SortApply(s[1..], writes);
      InsertApply(s[0], SortByDateId(s[1..]), writes);
    }
  }

  /** Writing the same numbers twice is writing them once. */
  lemma ApplyWritesTwice(moves: seq<Move>, writes: seq<Staged>)
    ensures ApplyWrites(ApplyWrites(moves, writes), writes) == ApplyWrites(moves, writes)
  {
    var once := ApplyWrites(moves, writes);
    var twice := ApplyWrites(once, writes);
    forall k | 0 <= k < |moves| ensures twice[k] == once[k] {
      assert twice[k] == Apply(once[k], writes);
    }
  }

  /** A search whose domain does not look at the number finds as many moves after any writes. */
  lemma SearchIgnoresNumbers(cal: Calendar, moves: seq<Move>, d: Domain, writes: seq<Staged>)
    requires forall i :: 0 <= i < |d| ==> !d[i].NumberNotNull?
    ensures |Search(cal, ApplyWrites(moves, writes), d)| == |Search(cal, moves, d)|
  {
    forall x | x in moves ensures Matches(cal, Apply(x, writes), d) <==> Matches(cal, x, d) {
      forall i | 0 <= i < |d| ensures Satisfies(cal, Apply(x, writes), d[i]) <==> Satisfies(cal, x, d[i]) {
      }
    }
    SearchApply(cal, moves, d, writes);
  }

  /** The guard on posted moves looks only at ids and states. */
  lemma ModifyRejectedIgnoresNumbers(moves: seq<Move>, other: seq<Move>, writes: seq<Staged>, modifyExclude: set<string>)
    requires |other| == |moves|
    requires forall k :: 0 <= k < |moves| ==> other[k].id == moves[k].id && other[k].state == moves[k].state
    ensures ModifyRejected(other, writes, modifyExclude) == ModifyRejected(moves, writes, modifyExclude)
  {
  }
}
