/**
 * The renumbering wizard of account.py: its start record, and the
 * `do_renumber` step that resets the fiscal year's move sequences and
 * renumbers its numbered moves in `(date, id)` order.
 */
module Renumber {
  import opened Ledger
  import Decimal

  /** The wizard's start record `account.move.renumber.start`. */
  datatype RenumberStart = RenumberStart(fiscalyear: FiscalYearId, firstNumber: int)

  /** The field domain `[('first_number', '>', 0)]`. */
  predicate FirstNumberInDomain(n: int)
  {
    n > 0
  }

  /** `default_first_number`: the form proposes a number its domain accepts. */
  function DefaultFirstNumber(): (n: int)
    ensures FirstNumberInDomain(n)
  {
    1
  }

  datatype Error =
    | FirstNumberOutOfDomain
    | FiscalYearNotFound
    | DraftMovesWarning(key: string)
    | PostedMoveModified

  /** On success, the `pyson_domain` the action opens with. */
  datatype Result = Success(domain: Domain) | Failure(error: Error)

  const DraftWarningPrefix: string := "move_renumber_draft_moves"

  /** The warning key `'move_renumber_draft_moves%s' % fiscalyear.id`. */
  function DraftWarningKey(fy: FiscalYearId): (key: string)
    ensures |key| > |DraftWarningPrefix| && key[..|DraftWarningPrefix|] == DraftWarningPrefix
    ensures forall i :: |DraftWarningPrefix| <= i < |key| ==> Decimal.IsDigit(key[i])
    ensures Decimal.ParseDecimal(key[|DraftWarningPrefix|..]) == fy
  {
    var digits := Decimal.NatToString(fy);
    Decimal.ParseNatToString(fy);
    assert (DraftWarningPrefix + digits)[|DraftWarningPrefix|..] == digits;
    DraftWarningPrefix + digits
  }

  /** The draft moves of the fiscal year. */
  function DraftDomain(fy: FiscalYearId): Domain
  {
    [FiscalYearIs(fy), StateIs(Draft)]
  }

  /** The moves to renumber, and the domain the wizard returns. */
  function RenumberDomain(fy: FiscalYearId): Domain
  {
    [FiscalYearIs(fy), NumberNotNull]
  }

  /**
   * The stored state the operation relies on: distinct move ids, every
   * move in a known period, and every sequence a fiscal year or a period
   * names present in the `number_next` table.
   */
  ghost predicate StoreValid(cal: Calendar, moves: seq<Move>, next: map<SequenceId, int>)
  {
    && CalendarValid(cal)
    && DistinctIds(moves)
    && (forall k :: 0 <= k < |moves| ==> moves[k].period in cal.periods)
    && (forall y :: y in cal.fiscalYears ==> cal.fiscalYears[y].moveSequence in next)
    && (forall p :: p in cal.periods && cal.periods[p].moveSequence.Some? ==>
          cal.periods[p].moveSequence.value in next)
  }

  /**
   * `move.period.move_sequence_used` under the context `date=move.date`:
   * the resolution is external, so it is a parameter `resolve`.
   */
  function Resolved(m: Move, resolve: (PeriodId, Date) -> SequenceId): SequenceId
  {
    resolve(m.period, m.date)
  }

  /** Every move resolves to a sequence that exists. */
  ghost predicate ResolvesKnown(moves: seq<Move>, next: map<SequenceId, int>, resolve: (PeriodId, Date) -> SequenceId)
  {
    forall k :: 0 <= k < |moves| ==> Resolved(moves[k], resolve) in next
  }

  /*
   * Sequences reachable from the fiscal year.
   */

  /** The override of one period, as a set of zero or one sequence. */
  function OverrideOf(cal: Calendar, p: PeriodId): set<SequenceId>
    requires p in cal.periods
  {
    match cal.periods[p].moveSequence
    case Some(g) => {g}
    case None => {}
  }

  /** The overrides of a list of periods. */
  function Overrides(cal: Calendar, ps: seq<PeriodId>): set<SequenceId>
    requires forall i :: 0 <= i < |ps| ==> ps[i] in cal.periods
  {
    if ps == [] then {} else Overrides(cal, ps[..|ps| - 1]) + OverrideOf(cal, ps[|ps| - 1])
  }

  /** The fiscal year's own sequence and every override of its periods. */
  function YearSequences(cal: Calendar, fy: FiscalYearId): set<SequenceId>
    requires CalendarValid(cal) && fy in cal.fiscalYears
  {
    {cal.fiscalYears[fy].moveSequence} + Overrides(cal, cal.fiscalYears[fy].periods)
  }

  /** "g is the fiscal year's sequence or the override of one of its periods". */
  ghost predicate IsYearSequence(cal: Calendar, fy: FiscalYearId, g: SequenceId)
    requires CalendarValid(cal) && fy in cal.fiscalYears
  {
    var ps := cal.fiscalYears[fy].periods;
    g == cal.fiscalYears[fy].moveSequence ||
    exists i :: 0 <= i < |ps| && cal.periods[ps[i]].moveSequence == Some(g)
  }

  /** The loop of lines 64-67 of account.py: a set, so a shared sequence is listed once. */
  method CollectSequences(cal: Calendar, fy: FiscalYearId) returns (sequences: set<SequenceId>)
    requires CalendarValid(cal) && fy in cal.fiscalYears
    ensures sequences == YearSequences(cal, fy)
  {
    var year := cal.fiscalYears[fy];
    sequences := {year.moveSequence};
    var i := 0;
    while i < |year.periods|
      invariant 0 <= i <= |year.periods|
      invariant sequences == {year.moveSequence} + Overrides(cal, year.periods[..i])
    {
      var p := year.periods[i];
      assert year.periods[..i + 1][..i] == year.periods[..i];
      if cal.periods[p].moveSequence.Some? {
        sequences := sequences + {cal.periods[p].moveSequence.value};
      }
      i := i + 1;
    }
    assert year.periods[..i] == year.periods;
  }

  /** `Sequence.write(sequences, {'number_next': value})`. */
  function Reset(next: map<SequenceId, int>, sequences: set<SequenceId>, value: int): (r: map<SequenceId, int>)
    ensures r.Keys == next.Keys
    ensures forall g :: g in r ==> r[g] == if g in sequences then value else next[g]
  {
    map g | g in next :: if g in sequences then value else next[g]
  }

  /** The moves of the fiscal year that have a number, by date then id. */
  function ToRenumber(cal: Calendar, moves: seq<Move>, fy: FiscalYearId): seq<Move>
  {
    SortByDateId(Search(cal, moves, RenumberDomain(fy)))
  }

  /**
   * The selection holds exactly the numbered moves of the fiscal year,
   * each once, in strictly increasing `(date, id)` order.
   */
  lemma ToRenumberSelects(cal: Calendar, moves: seq<Move>, fy: FiscalYearId)
    requires DistinctIds(moves)
    ensures StrictlyOrdered(ToRenumber(cal, moves, fy)) && DistinctIds(ToRenumber(cal, moves, fy))
    ensures forall x :: x in ToRenumber(cal, moves, fy) <==>
      x in moves && x.number.Some? && Satisfies(cal, x, FiscalYearIs(fy))
  {
    var found := Search(cal, moves, RenumberDomain(fy));
    var r := SortByDateId(found);
    SearchDistinct(cal, moves, RenumberDomain(fy));
    SearchFinds(cal, moves, RenumberDomain(fy));
    SortOrdered(found);
    assert forall x :: x in r <==> x in found by {
      forall x ensures x in r <==> x in found {
        assert x in r <==> x in multiset(r);
        assert x in found <==> x in multiset(found);
      }
    }
    assert forall x :: Matches(cal, x, RenumberDomain(fy)) <==>
      x.number.Some? && Satisfies(cal, x, FiscalYearIs(fy)) by {
      forall x ensures Matches(cal, x, RenumberDomain(fy)) <==>
        x.number.Some? && Satisfies(cal, x, FiscalYearIs(fy)) {
        assert RenumberDomain(fy)[0] == FiscalYearIs(fy);
        assert RenumberDomain(fy)[1] == NumberNotNull;
      }
    }
  }

  /** The selection names each move once. */
  lemma ToRenumberDistinct(cal: Calendar, moves: seq<Move>, fy: FiscalYearId)
    requires DistinctIds(moves)
    ensures DistinctIds(ToRenumber(cal, moves, fy))
  {
    ToRenumberSelects(cal, moves, fy);
  }

  /** Each selected move is a move of the table. */
  lemma ToRenumberFromTable(cal: Calendar, moves: seq<Move>, fy: FiscalYearId)
    requires DistinctIds(moves)
    ensures forall i :: 0 <= i < |ToRenumber(cal, moves, fy)| ==> ToRenumber(cal, moves, fy)[i] in moves
  {
    ToRenumberSelects(cal, moves, fy);
  }

  /** Each selected move is a numbered move of the fiscal year. */
  lemma SelectedQualifies(cal: Calendar, moves: seq<Move>, fy: FiscalYearId, j: nat)
    requires DistinctIds(moves) && j < |ToRenumber(cal, moves, fy)|
    ensures ToRenumber(cal, moves, fy)[j].number.Some?
    ensures Satisfies(cal, ToRenumber(cal, moves, fy)[j], FiscalYearIs(fy))
  {
    ToRenumberSelects(cal, moves, fy);
    assert ToRenumber(cal, moves, fy)[j] in ToRenumber(cal, moves, fy);
  }

  /** Each numbered move of the fiscal year is selected. */
  lemma QualifyingSelected(cal: Calendar, moves: seq<Move>, fy: FiscalYearId, k: nat)
    requires DistinctIds(moves) && k < |moves|
    requires moves[k].number.Some? && Satisfies(cal, moves[k], FiscalYearIs(fy))
    ensures exists j :: 0 <= j < |ToRenumber(cal, moves, fy)| && ToRenumber(cal, moves, fy)[j] == moves[k]
  {
    ToRenumberSelects(cal, moves, fy);
    assert moves[k] in moves;
  }

  /*
   * Drawing numbers.
   */

  /** The staged writes and the `number_next` table after the draws. */
  datatype Draw = Draw(writes: seq<Staged>, next: map<SequenceId, int>)

  /**
   * Each move in turn takes the current `number_next` of the sequence it
   * resolves to, which then advances by one.
   */
  function Drawn(sel: seq<Move>, next0: map<SequenceId, int>, resolve: (PeriodId, Date) -> SequenceId): (d: Draw)
    requires forall i :: 0 <= i < |sel| ==> Resolved(sel[i], resolve) in next0
    ensures |d.writes| == |sel| && d.next.Keys == next0.Keys
    ensures forall i :: 0 <= i < |sel| ==> d.writes[i].move == sel[i].id
    decreases |sel|
  {
    if sel == [] then Draw([], next0)
    else
      var d := Drawn(sel[..|sel| - 1], next0, resolve);
      var m := sel[|sel| - 1];
      var g := Resolved(m, resolve);
      Draw(d.writes + [Staged(m.id, d.next[g])], d.next[g := d.next[g] + 1])
  }

  /** What one invocation leaves behind: its result and the two tables. */
  datatype Outcome = Outcome(result: Result, moves: seq<Move>, next: map<SequenceId, int>)

  /** The `number_next` table once the fiscal year's sequences are reset. */
  function ResetCounters(cal: Calendar, next: map<SequenceId, int>, start: RenumberStart): map<SequenceId, int>
    requires CalendarValid(cal) && start.fiscalyear in cal.fiscalYears
  {
    Reset(next, YearSequences(cal, start.fiscalyear), start.firstNumber)
  }

  /** The draws of `do_renumber`, from the reset table, over the ordered selection. */
  function Draws(cal: Calendar, moves: seq<Move>, next: map<SequenceId, int>, start: RenumberStart,
                 resolve: (PeriodId, Date) -> SequenceId): Draw
    requires StoreValid(cal, moves, next) && ResolvesKnown(moves, next, resolve)
    requires start.fiscalyear in cal.fiscalYears
  {
    var sel := ToRenumber(cal, moves, start.fiscalyear);
    assert forall i :: 0 <= i < |sel| ==> Resolved(sel[i], resolve) in next by {
      ToRenumberFromTable(cal, moves, start.fiscalyear);
      forall i | 0 <= i < |sel| ensures Resolved(sel[i], resolve) in next {
        assert sel[i] in moves;
      }
    }
    Drawn(sel, ResetCounters(cal, next, start), resolve)
  }

  /** The draft check of lines 53-62 of account.py: it stops the operation. */
  predicate DraftCheckFails(cal: Calendar, moves: seq<Move>, dismissed: set<string>, fy: FiscalYearId)
  {
    |Search(cal, moves, DraftDomain(fy))| > 0 && DraftWarningKey(fy) !in dismissed
  }

  /**
   * One invocation of `do_renumber`, as a function of the stored state.
   * Every failure rolls the transaction back; a success changes only
   * the numbers of moves and the `number_next` values.
   */
  function Renumbering(cal: Calendar, moves: seq<Move>, next: map<SequenceId, int>,
                       dismissed: set<string>, modifyExclude: set<string>,
                       start: RenumberStart, resolve: (PeriodId, Date) -> SequenceId): (o: Outcome)
    requires StoreValid(cal, moves, next) && ResolvesKnown(moves, next, resolve)
    ensures o.result.Failure? ==> o.moves == moves && o.next == next
    ensures o.result.Success? ==> o.result.domain == RenumberDomain(start.fiscalyear)
    ensures |o.moves| == |moves| && o.next.Keys == next.Keys
    ensures forall k :: 0 <= k < |moves| ==> o.moves[k].(number := moves[k].number) == moves[k]
  {
    var fy := start.fiscalyear;
    if !FirstNumberInDomain(start.firstNumber) then Outcome(Failure(FirstNumberOutOfDomain), moves, next)
    else if fy !in cal.fiscalYears then Outcome(Failure(FiscalYearNotFound), moves, next)
    else if DraftCheckFails(cal, moves, dismissed, fy) then
      Outcome(Failure(DraftMovesWarning(DraftWarningKey(fy))), moves, next)
    else
      var d := Draws(cal, moves, next, start, resolve);
      if d.writes == [] then Outcome(Success(RenumberDomain(fy)), moves, d.next)
      else if ModifyRejected(moves, d.writes, modifyExclude) then Outcome(Failure(PostedMoveModified), moves, next)
      else Outcome(Success(RenumberDomain(fy)), ApplyWrites(moves, d.writes), d.next)
  }

  /** Once the checks pass, the outcome is decided by the draws and the write. */
  lemma RenumberingAfterChecks(cal: Calendar, moves: seq<Move>, next: map<SequenceId, int>,
                               dismissed: set<string>, modifyExclude: set<string>,
                               start: RenumberStart, resolve: (PeriodId, Date) -> SequenceId)
    requires StoreValid(cal, moves, next) && ResolvesKnown(moves, next, resolve)
    requires FirstNumberInDomain(start.firstNumber) && start.fiscalyear in cal.fiscalYears
    requires !DraftCheckFails(cal, moves, dismissed, start.fiscalyear)
    ensures Draws(cal, moves, next, start, resolve).writes == [] ==>
      Renumbering(cal, moves, next, dismissed, modifyExclude, start, resolve) ==
        Outcome(Success(RenumberDomain(start.fiscalyear)), moves, Draws(cal, moves, next, start, resolve).next)
    ensures (Draws(cal, moves, next, start, resolve).writes != [] &&
             ModifyRejected(moves, Draws(cal, moves, next, start, resolve).writes, modifyExclude)) ==>
      Renumbering(cal, moves, next, dismissed, modifyExclude, start, resolve) ==
        Outcome(Failure(PostedMoveModified), moves, next)
    ensures (Draws(cal, moves, next, start, resolve).writes != [] &&
             !ModifyRejected(moves, Draws(cal, moves, next, start, resolve).writes, modifyExclude)) ==>
      Renumbering(cal, moves, next, dismissed, modifyExclude, start, resolve) ==
        Outcome(Success(RenumberDomain(start.fiscalyear)),
                ApplyWrites(moves, Draws(cal, moves, next, start, resolve).writes),
                Draws(cal, moves, next, start, resolve).next)
  {
  }

  /** A renumbering keeps the stored state well formed. */
  lemma RenumberingKeepsStoreValid(cal: Calendar, moves: seq<Move>, next: map<SequenceId, int>,
                                   dismissed: set<string>, modifyExclude: set<string>,
                                   start: RenumberStart, resolve: (PeriodId, Date) -> SequenceId)
    requires StoreValid(cal, moves, next) && ResolvesKnown(moves, next, resolve)
    ensures var o := Renumbering(cal, moves, next, dismissed, modifyExclude, start, resolve);
      StoreValid(cal, o.moves, o.next) && ResolvesKnown(o.moves, o.next, resolve)
  {
    var o := Renumbering(cal, moves, next, dismissed, modifyExclude, start, resolve);
    forall k | 0 <= k < |moves|
      ensures o.moves[k].id == moves[k].id && o.moves[k].period == moves[k].period
      ensures Resolved(o.moves[k], resolve) == Resolved(moves[k], resolve)
    {
      assert o.moves[k].(number := moves[k].number) == moves[k];
    }
  }

  /**
   * The stored tables: moves, `ir.sequence.strict` counters, dismissed
   * warning keys (`res.user.warning`) and the moves' modify exclusions.
   */
  class Database {
    var calendar: Calendar
    var moves: seq<Move>
    var numberNext: map<SequenceId, int>
    var dismissed: set<string>
    var modifyExclude: set<string>

    ghost predicate Valid()
      reads this
    {
      StoreValid(calendar, moves, numberNext)
    }

    constructor (calendar: Calendar, moves: seq<Move>, numberNext: map<SequenceId, int>,
                 dismissed: set<string>, modifyExclude: set<string>)
      requires StoreValid(calendar, moves, numberNext)
      ensures Valid()
      ensures this.calendar == calendar && this.moves == moves && this.numberNext == numberNext
      ensures this.dismissed == dismissed && this.modifyExclude == modifyExclude
    {
      this.calendar := calendar;
      this.moves := moves;
      this.numberNext := numberNext;
      this.dismissed := dismissed;
      this.modifyExclude := modifyExclude;
    }

    /** `Move.__setup__`: the number of a posted move may be rewritten. */
    method SetupMove()
      modifies this`modifyExclude
      ensures modifyExclude == old(modifyExclude) + {NumberField}
      ensures Valid() == old(Valid())
    {
      if NumberField !in modifyExclude {
        modifyExclude := modifyExclude + {NumberField};
      }
    }

    /** `Warning.check(key)`: true while the warning has not been dismissed. */
    predicate WarningCheck(key: string)
      reads this
    {
      key !in dismissed
    }

    /** A strict sequence's `get()`: the current `number_next`, which advances. */
    method SequenceGet(g: SequenceId) returns (n: int)
      requires g in numberNext
      modifies this`numberNext
      ensures n == old(numberNext[g])
      ensures numberNext == old(numberNext)[g := n + 1]
      ensures old(Valid()) ==> Valid()
    {
      n := numberNext[g];
      numberNext := numberNext[g := n + 1];
    }

    /** `Move.write(*to_write)`: all staged numbers at once, or none. */
    method WriteMoves(writes: seq<Staged>) returns (ok: bool)
      modifies this`moves
      ensures ok == !ModifyRejected(old(moves), writes, modifyExclude)
      ensures moves == if ok then ApplyWrites(old(moves), writes) else old(moves)
      ensures old(Valid()) ==> Valid()
    {
      ok := !ModifyRejected(moves, writes, modifyExclude);
      if ok {
        forall k | 0 <= k < |moves|
          ensures ApplyWrites(moves, writes)[k].id == moves[k].id
          ensures ApplyWrites(moves, writes)[k].period == moves[k].period
        {
          ApplyWritesEffect(moves, writes, k);
        }
        moves := ApplyWrites(moves, writes);
      }
    }

    /** The loop of lines 82-90 of account.py: one `get()` per move, in the given order. */
    method DrawNumbers(toRenumber: seq<Move>, resolve: (PeriodId, Date) -> SequenceId) returns (toWrite: seq<Staged>)
      requires forall i :: 0 <= i < |toRenumber| ==> Resolved(toRenumber[i], resolve) in numberNext
      modifies this`numberNext
      ensures Draw(toWrite, numberNext) == Drawn(toRenumber, old(numberNext), resolve)
      ensures old(Valid()) ==> Valid()
    {
      toWrite := [];
      var i := 0;
      while i < |toRenumber|
        invariant 0 <= i <= |toRenumber|
        invariant Draw(toWrite, numberNext) == Drawn(toRenumber[..i], old(numberNext), resolve)
        invariant old(Valid()) ==> Valid()
      {
        var move := toRenumber[i];
        assert toRenumber[..i + 1][..i] == toRenumber[..i];
        var n := SequenceGet(Resolved(move, resolve));
        toWrite := toWrite + [Staged(move.id, n)];
        i := i + 1;
      }
      assert toRenumber[..i] == toRenumber;
    }

    /** Lines 64-90 of account.py: reset the fiscal year's sequences, then draw a number per move. */
    method StageNumbers(start: RenumberStart, resolve: (PeriodId, Date) -> SequenceId) returns (toWrite: seq<Staged>)
      requires Valid() && ResolvesKnown(moves, numberNext, resolve)
      requires start.fiscalyear in calendar.fiscalYears
      modifies this`numberNext
      ensures Draw(toWrite, numberNext) == Draws(calendar, moves, old(numberNext), start, resolve)
      ensures Valid()
    {
      var fy := start.fiscalyear;
      var sequences := CollectSequences(calendar, fy);
      numberNext := Reset(numberNext, sequences, start.firstNumber);
      var toRenumber := ToRenumber(calendar, moves, fy);
      assert forall i :: 0 <= i < |toRenumber| ==> Resolved(toRenumber[i], resolve) in numberNext by {
        ToRenumberFromTable(calendar, moves, fy);
        forall i | 0 <= i < |toRenumber| ensures Resolved(toRenumber[i], resolve) in numberNext {
          assert toRenumber[i] in moves;
        }
      }
      toWrite := DrawNumbers(toRenumber, resolve);
    }

    /**
     * Lines 91-92 of account.py and the transaction around them: the staged numbers are
     * written if there are any, and a refused write rolls the counters
     * back to `saved`.
     */
    method Commit(toWrite: seq<Staged>, saved: map<SequenceId, int>, fy: FiscalYearId) returns (r: Result)
      modifies this`moves, this`numberNext
      ensures Outcome(r, moves, numberNext) ==
        if toWrite == [] then Outcome(Success(RenumberDomain(fy)), old(moves), old(numberNext))
        else if ModifyRejected(old(moves), toWrite, modifyExclude) then Outcome(Failure(PostedMoveModified), old(moves), saved)
        else Outcome(Success(RenumberDomain(fy)), ApplyWrites(old(moves), toWrite), old(numberNext))
      ensures old(Valid()) && saved.Keys == old(numberNext).Keys ==> Valid()
    {
      r := Success(RenumberDomain(fy));
      if |toWrite| > 0 {
        var ok := WriteMoves(toWrite);
        if !ok {
          numberNext := saved;
          r := Failure(PostedMoveModified);
        }
      }
    }

    /** Lines 64-92 of account.py, once the checks have passed: reset, draw, write. */
    method ResetAndRenumber(start: RenumberStart, resolve: (PeriodId, Date) -> SequenceId) returns (r: Result)
      requires Valid() && ResolvesKnown(moves, numberNext, resolve)
      requires FirstNumberInDomain(start.firstNumber) && start.fiscalyear in calendar.fiscalYears
      requires !DraftCheckFails(calendar, moves, dismissed, start.fiscalyear)
      modifies this`moves, this`numberNext
      ensures old(Renumbering(calendar, moves, numberNext, dismissed, modifyExclude, start, resolve))
           == Outcome(r, moves, numberNext)
    {
      ghost var o := Renumbering(calendar, moves, numberNext, dismissed, modifyExclude, start, resolve);
      ghost var d := Draws(calendar, moves, numberNext, start, resolve);
      ghost var m0 := moves;
      RenumberingAfterChecks(calendar, moves, numberNext, dismissed, modifyExclude, start, resolve);
      var saved := numberNext;
      var toWrite := StageNumbers(start, resolve);
      assert toWrite == d.writes && numberNext == d.next;
      r := Commit(toWrite, saved, start.fiscalyear);
      if d.writes == [] {
        assert o == Outcome(Success(RenumberDomain(start.fiscalyear)), m0, d.next);
      } else if ModifyRejected(m0, d.writes, modifyExclude) {
        assert o == Outcome(Failure(PostedMoveModified), m0, saved);
      } else {
        assert o == Outcome(Success(RenumberDomain(start.fiscalyear)), ApplyWrites(m0, d.writes), d.next);
      }
    }

    /** `do_renumber` on the wizard's start record. */
    method DoRenumber(start: RenumberStart, resolve: (PeriodId, Date) -> SequenceId) returns (r: Result)
      requires Valid() && ResolvesKnown(moves, numberNext, resolve)
      modifies this`moves, this`numberNext
      ensures Valid() && ResolvesKnown(moves, numberNext, resolve)
      ensures old(Renumbering(calendar, moves, numberNext, dismissed, modifyExclude, start, resolve))
           == Outcome(r, moves, numberNext)
    {
      ghost var o := Renumbering(calendar, moves, numberNext, dismissed, modifyExclude, start, resolve);
      RenumberingKeepsStoreValid(calendar, moves, numberNext, dismissed, modifyExclude, start, resolve);
      if !FirstNumberInDomain(start.firstNumber) {
        return Failure(FirstNumberOutOfDomain);
      }
      var fy := start.fiscalyear;
      if fy !in calendar.fiscalYears {
        return Failure(FiscalYearNotFound);
      }
      var draftMoves := Search(calendar, moves, DraftDomain(fy));
      if |draftMoves| > 0 {
        var key := DraftWarningKey(fy);
        if WarningCheck(key) {
          return Failure(DraftMovesWarning(key));
        }
      }
      r := ResetAndRenumber(start, resolve);
    }
  }
}
