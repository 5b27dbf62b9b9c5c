/**
 * Properties of the renumbering: what the warning key identifies, which
 * sequences are reset, the numbers each move receives, when the write is
 * refused, and what a second run does.
 */
module Properties {
  import opened Ledger
  import opened Renumber
  import Decimal

  /*
   * The draft-moves warning.
   */

  /** The warning key names exactly one fiscal year. */
  lemma DraftWarningKeyInjective(a: FiscalYearId, b: FiscalYearId)
    ensures DraftWarningKey(a) == DraftWarningKey(b) <==> a == b
  {
    if DraftWarningKey(a) == DraftWarningKey(b) {
      var n := |DraftWarningPrefix|;
      assert DraftWarningKey(a)[n..] == Decimal.NatToString(a);
      assert DraftWarningKey(b)[n..] == Decimal.NatToString(b);
      Decimal.NatToStringInjective(a, b);
    }
  }

  /** `Search` with the draft domain finds something iff the year has a draft move. */
  lemma DraftCheckFailsIff(cal: Calendar, moves: seq<Move>, dismissed: set<string>, fy: FiscalYearId)
    ensures DraftCheckFails(cal, moves, dismissed, fy) <==>
      (exists k :: 0 <= k < |moves| && moves[k].state == Draft && Satisfies(cal, moves[k], FiscalYearIs(fy)))
      && DraftWarningKey(fy) !in dismissed
  {
    var found := Search(cal, moves, DraftDomain(fy));
    SearchFinds(cal, moves, DraftDomain(fy));
    assert DraftDomain(fy)[0] == FiscalYearIs(fy) && DraftDomain(fy)[1] == StateIs(Draft);
    if |found| > 0 {
      assert found[0] in moves;
    }
    if k :| 0 <= k < |moves| && moves[k].state == Draft && Satisfies(cal, moves[k], FiscalYearIs(fy)) {
      assert Matches(cal, moves[k], DraftDomain(fy));
      assert moves[k] in found;
    }
  }

  /** Dismissing the warning of one fiscal year does not dismiss it for another. */
  lemma DismissalIsPerYear(cal: Calendar, moves: seq<Move>, dismissed: set<string>, a: FiscalYearId, b: FiscalYearId)
    requires a != b
    ensures DraftCheckFails(cal, moves, dismissed + {DraftWarningKey(a)}, b) == DraftCheckFails(cal, moves, dismissed, b)
  {
    DraftWarningKeyInjective(a, b);
  }

  /**
   * Lines 53-62 of account.py: with a valid start record, the run stops with the
   * warning of key `move_renumber_draft_moves<id>`, leaving every table
   * as it was, exactly when the year holds a draft move and that key has
   * not been dismissed.
   */
  lemma AbortsOnUndismissedDrafts(cal: Calendar, moves: seq<Move>, next: map<SequenceId, int>,
                                  dismissed: set<string>, modifyExclude: set<string>,
                                  start: RenumberStart, resolve: (PeriodId, Date) -> SequenceId)
    requires StoreValid(cal, moves, next) && ResolvesKnown(moves, next, resolve)
    requires FirstNumberInDomain(start.firstNumber) && start.fiscalyear in cal.fiscalYears
    ensures var o := Renumbering(cal, moves, next, dismissed, modifyExclude, start, resolve);
      o.result == Failure(DraftMovesWarning(DraftWarningKey(start.fiscalyear))) <==>
        (exists k :: 0 <= k < |moves| && moves[k].state == Draft && Satisfies(cal, moves[k], FiscalYearIs(start.fiscalyear)))
        && DraftWarningKey(start.fiscalyear) !in dismissed
    ensures var o := Renumbering(cal, moves, next, dismissed, modifyExclude, start, resolve);
      o.result.Failure? && o.result.error.DraftMovesWarning? ==> o.moves == moves && o.next == next
  {
    DraftCheckFailsIff(cal, moves, dismissed, start.fiscalyear);
    if !DraftCheckFails(cal, moves, dismissed, start.fiscalyear) {
      RenumberingAfterChecks(cal, moves, next, dismissed, modifyExclude, start, resolve);
    }
  }

  /** Once the warning of the year is dismissed, the run goes past the check. */
  lemma DismissalUnblocks(cal: Calendar, moves: seq<Move>, next: map<SequenceId, int>,
                          dismissed: set<string>, modifyExclude: set<string>,
                          start: RenumberStart, resolve: (PeriodId, Date) -> SequenceId)
    requires StoreValid(cal, moves, next) && ResolvesKnown(moves, next, resolve)
    requires DraftWarningKey(start.fiscalyear) in dismissed
    ensures var o := Renumbering(cal, moves, next, dismissed, modifyExclude, start, resolve);
      o.result.Failure? ==> !o.result.error.DraftMovesWarning?
  {
    if FirstNumberInDomain(start.firstNumber) && start.fiscalyear in cal.fiscalYears {
      RenumberingAfterChecks(cal, moves, next, dismissed, modifyExclude, start, resolve);
    }
  }

  /*
   * The sequences reset by lines 64-71 of account.py.
   */

  lemma {:induction false} OverridesIff(cal: Calendar, ps: seq<PeriodId>, g: SequenceId)
    requires forall i :: 0 <= i < |ps| ==> ps[i] in cal.periods
    ensures g in Overrides(cal, ps) <==> exists i :: 0 <= i < |ps| && cal.periods[ps[i]].moveSequence == Some(g)
    decreases |ps|
  {
    if ps != [] {
      var init := ps[..|ps| - 1];
      OverridesIff(cal, init, g);
      if j :| 0 <= j < |init| && cal.periods[init[j]].moveSequence == Some(g) {
        assert ps[j] == init[j];
      }
      if i :| 0 <= i < |ps| && cal.periods[ps[i]].moveSequence == Some(g) {
        if i < |init| {
          assert init[i] == ps[i];
        }
      }
    }
  }

  /**
   * The set written back to `number_next` holds the fiscal year's own
   * sequence and the sequence of each of its periods that has one, and
   * nothing else.
   */
  lemma YearSequencesIff(cal: Calendar, fy: FiscalYearId, g: SequenceId)
    requires CalendarValid(cal) && fy in cal.fiscalYears
    ensures g in YearSequences(cal, fy) <==> IsYearSequence(cal, fy, g)
  {
    OverridesIff(cal, cal.fiscalYears[fy].periods, g);
  }

  /*
   * The draws of lines 82-90 of account.py, in closed form.
   */

  /** How many moves of `sel` draw from the sequence `g`. */
  function Count(sel: seq<Move>, resolve: (PeriodId, Date) -> SequenceId, g: SequenceId): nat
  {
    if sel == [] then 0
    else Count(sel[..|sel| - 1], resolve, g) + (if Resolved(sel[|sel| - 1], resolve) == g then 1 else 0)
  }

  lemma {:induction false} CountAbsent(sel: seq<Move>, resolve: (PeriodId, Date) -> SequenceId, g: SequenceId)
    requires forall i :: 0 <= i < |sel| ==> Resolved(sel[i], resolve) != g
    ensures Count(sel, resolve, g) == 0
    decreases |sel|
  {
    if sel != [] {
      CountAbsent(sel[..|sel| - 1], resolve, g);
    }
  }

  lemma {:induction false} CountAll(sel: seq<Move>, resolve: (PeriodId, Date) -> SequenceId, g: SequenceId)
    requires forall i :: 0 <= i < |sel| ==> Resolved(sel[i], resolve) == g
    ensures Count(sel, resolve, g) == |sel|
    decreases |sel|
  {
    if sel != [] {
      CountAll(sel[..|sel| - 1], resolve, g);
    }
  }

  /** A move drawing from g is counted before every later position. */
  lemma {:induction false} CountPrefixGrows(sel: seq<Move>, resolve: (PeriodId, Date) -> SequenceId, g: SequenceId,
                                            i: nat, j: nat)
    requires i < j <= |sel| && Resolved(sel[i], resolve) == g
    ensures Count(sel[..i], resolve, g) < Count(sel[..j], resolve, g)
    decreases j
  {
    assert sel[..j][..j - 1] == sel[..j - 1];
    if j > i + 1 {
      CountPrefixGrows(sel, resolve, g, i, j - 1);
    }
  }

  /** Every count below the total is reached just before some move drawing from g. */
  lemma {:induction false} CountHits(sel: seq<Move>, resolve: (PeriodId, Date) -> SequenceId, g: SequenceId, c: nat)
    requires c < Count(sel, resolve, g)
    ensures exists i :: 0 <= i < |sel| && Resolved(sel[i], resolve) == g && Count(sel[..i], resolve, g) == c
    decreases |sel|
  {
    var init := sel[..|sel| - 1];
    if c < Count(init, resolve, g) {
      CountHits(init, resolve, g, c);
      var i :| 0 <= i < |init| && Resolved(init[i], resolve) == g && Count(init[..i], resolve, g) == c;
      assert init[..i] == sel[..i];
      assert sel[i] == init[i];
    } else {
      assert init == sel[..|sel| - 1];
    }
  }

  /**
   * Numbers drawn from one sequence strictly increase along the
   * selection, so no number is drawn twice.
   */
  lemma DrawnIncreasing(sel: seq<Move>, next0: map<SequenceId, int>, resolve: (PeriodId, Date) -> SequenceId,
                        i: nat, j: nat)
    requires forall k :: 0 <= k < |sel| ==> Resolved(sel[k], resolve) in next0
    requires i < j < |sel| && Resolved(sel[i], resolve) == Resolved(sel[j], resolve)
    ensures Drawn(sel, next0, resolve).writes[i].number < Drawn(sel, next0, resolve).writes[j].number
  {
    DrawnAt(sel, next0, resolve, i);
    DrawnAt(sel, next0, resolve, j);
    CountPrefixGrows(sel, resolve, Resolved(sel[i], resolve), i, j);
  }

  /**
   * Numbers drawn from one sequence leave no gap: every value from the
   * start value up to the sequence's final counter is drawn by some move.
   */
  lemma DrawnCoversRange(sel: seq<Move>, next0: map<SequenceId, int>, resolve: (PeriodId, Date) -> SequenceId,
                         g: SequenceId, v: int)
    requires forall k :: 0 <= k < |sel| ==> Resolved(sel[k], resolve) in next0
    requires g in next0 && next0[g] <= v < Drawn(sel, next0, resolve).next[g]
    ensures exists i :: 0 <= i < |sel| && Resolved(sel[i], resolve) == g && Drawn(sel, next0, resolve).writes[i].number == v
  {
    DrawnClosedForm(sel, next0, resolve);
    CountHits(sel, resolve, g, v - next0[g]);
    var i :| 0 <= i < |sel| && Resolved(sel[i], resolve) == g && Count(sel[..i], resolve, g) == v - next0[g];
    DrawnAt(sel, next0, resolve, i);
  }

  /**
   * Each sequence advances once per move drawing from it, and the i-th
   * move receives its sequence's starting value plus the number of moves
   * before it that drew from the same sequence: per sequence, the numbers
   * run consecutively in the order of the selection.
   */
  lemma {:induction false} DrawnClosedForm(sel: seq<Move>, next0: map<SequenceId, int>, resolve: (PeriodId, Date) -> SequenceId)
    requires forall i :: 0 <= i < |sel| ==> Resolved(sel[i], resolve) in next0
    ensures forall g :: g in next0 ==> Drawn(sel, next0, resolve).next[g] == next0[g] + Count(sel, resolve, g)
    ensures forall i :: 0 <= i < |sel| ==>
      Drawn(sel, next0, resolve).writes[i]
        == Staged(sel[i].id, next0[Resolved(sel[i], resolve)] + Count(sel[..i], resolve, Resolved(sel[i], resolve)))
    decreases |sel|
  {
    if sel != [] {
      var init := sel[..|sel| - 1];
      var d0 := Drawn(init, next0, resolve);
      DrawnClosedForm(init, next0, resolve);
      var d := Drawn(sel, next0, resolve);
      forall i | 0 <= i < |sel|
        ensures d.writes[i] == Staged(sel[i].id, next0[Resolved(sel[i], resolve)] + Count(sel[..i], resolve, Resolved(sel[i], resolve)))
      {
        if i < |init| {
          assert d.writes[i] == d0.writes[i];
          assert init[..i] == sel[..i];
        } else {
          assert sel[..i] == init;
        }
      }
    }
  }

  /*
   * A successful run.
   */

  /** The draws name each selected move once, in order. */
  lemma DrawsDistinct(cal: Calendar, moves: seq<Move>, next: map<SequenceId, int>, start: RenumberStart,
                      resolve: (PeriodId, Date) -> SequenceId)
    requires StoreValid(cal, moves, next) && ResolvesKnown(moves, next, resolve)
    requires start.fiscalyear in cal.fiscalYears
    ensures DistinctTargets(Draws(cal, moves, next, start, resolve).writes)
  {
    var sel := ToRenumber(cal, moves, start.fiscalyear);
    var w := Draws(cal, moves, next, start, resolve).writes;
    ToRenumberSelects(cal, moves, start.fiscalyear);
    assert forall i :: 0 <= i < |w| ==> w[i].move == sel[i].id;
  }

  /** A successful run applies every draw and keeps the advanced counters. */
  lemma SuccessApplies(cal: Calendar, moves: seq<Move>, next: map<SequenceId, int>,
                       dismissed: set<string>, modifyExclude: set<string>,
                       start: RenumberStart, resolve: (PeriodId, Date) -> SequenceId)
    requires StoreValid(cal, moves, next) && ResolvesKnown(moves, next, resolve)
    requires start.fiscalyear in cal.fiscalYears
    requires Renumbering(cal, moves, next, dismissed, modifyExclude, start, resolve).result.Success?
    ensures Renumbering(cal, moves, next, dismissed, modifyExclude, start, resolve).moves
      == ApplyWrites(moves, Draws(cal, moves, next, start, resolve).writes)
    ensures Renumbering(cal, moves, next, dismissed, modifyExclude, start, resolve).next
      == Draws(cal, moves, next, start, resolve).next
  {
    RenumberingAfterChecks(cal, moves, next, dismissed, modifyExclude, start, resolve);
    var d := Draws(cal, moves, next, start, resolve);
    if d.writes == [] {
      assert ApplyWrites(moves, d.writes) == moves;
    }
  }

  /** After a successful run, a move without a number or outside the fiscal year is untouched. */
  lemma UntouchedAfterRenumber(cal: Calendar, moves: seq<Move>, next: map<SequenceId, int>,
                               dismissed: set<string>, modifyExclude: set<string>,
                               start: RenumberStart, resolve: (PeriodId, Date) -> SequenceId)
    requires StoreValid(cal, moves, next) && ResolvesKnown(moves, next, resolve)
    requires start.fiscalyear in cal.fiscalYears
    requires Renumbering(cal, moves, next, dismissed, modifyExclude, start, resolve).result.Success?
    ensures forall k :: 0 <= k < |moves| ==>
      (!(moves[k].number.Some? && Satisfies(cal, moves[k], FiscalYearIs(start.fiscalyear))) ==>
         Renumbering(cal, moves, next, dismissed, modifyExclude, start, resolve).moves[k] == moves[k])
  {
    var fy := start.fiscalyear;
    var d := Draws(cal, moves, next, start, resolve);
    SuccessApplies(cal, moves, next, dismissed, modifyExclude, start, resolve);
    forall k | 0 <= k < |moves| && !(moves[k].number.Some? && Satisfies(cal, moves[k], FiscalYearIs(fy)))
      ensures Apply(moves[k], d.writes) == moves[k]
    {
      WrittenIffSelected(cal, moves, next, start, resolve, k);
    }
  }

  /** The value a counter starts the draws from: reset for the year's sequences. */
  function StartValue(cal: Calendar, next: map<SequenceId, int>, start: RenumberStart, g: SequenceId): int
    requires CalendarValid(cal) && start.fiscalyear in cal.fiscalYears && g in next
  {
    if g in YearSequences(cal, start.fiscalyear) then start.firstNumber else next[g]
  }

  /** Drawing over distinct moves writes each of them once. */
  lemma DrawnDistinct(sel: seq<Move>, next0: map<SequenceId, int>, resolve: (PeriodId, Date) -> SequenceId)
    requires forall j :: 0 <= j < |sel| ==> Resolved(sel[j], resolve) in next0
    requires DistinctIds(sel)
    ensures DistinctTargets(Drawn(sel, next0, resolve).writes)
  {
    var w := Drawn(sel, next0, resolve).writes;
    assert forall j :: 0 <= j < |w| ==> w[j].move == sel[j].id;
  }

  /** The number drawn for the i-th move of a selection of distinct moves. */
  lemma {:induction false} DrawnFor(sel: seq<Move>, next0: map<SequenceId, int>, resolve: (PeriodId, Date) -> SequenceId, i: nat)
    requires forall j :: 0 <= j < |sel| ==> Resolved(sel[j], resolve) in next0
    requires DistinctIds(sel) && i < |sel|
    ensures WrittenNumber(Drawn(sel, next0, resolve).writes, sel[i].id) == Some(Drawn(sel, next0, resolve).writes[i].number)
  {
    DrawnDistinct(sel, next0, resolve);
    WrittenNumberAt(Drawn(sel, next0, resolve).writes, i);
  }

  /** The i-th draw, from the closed form. */
  lemma {:induction false} DrawnAt(sel: seq<Move>, next0: map<SequenceId, int>, resolve: (PeriodId, Date) -> SequenceId, i: nat)
    requires forall j :: 0 <= j < |sel| ==> Resolved(sel[j], resolve) in next0
    requires i < |sel|
    ensures Drawn(sel, next0, resolve).writes[i].number
      == next0[Resolved(sel[i], resolve)] + Count(sel[..i], resolve, Resolved(sel[i], resolve))
  {
    DrawnClosedForm(sel, next0, resolve);
  }

  /** A move written by the draws gets the number drawn for it. */
  lemma {:induction false} AppliedNumber(m: Move, sel: seq<Move>, next0: map<SequenceId, int>,
                                         resolve: (PeriodId, Date) -> SequenceId, i: nat)
    requires forall j :: 0 <= j < |sel| ==> Resolved(sel[j], resolve) in next0
    requires DistinctIds(sel) && i < |sel| && m.id == sel[i].id
    ensures Apply(m, Drawn(sel, next0, resolve).writes).number
      == Some(next0[Resolved(sel[i], resolve)] + Count(sel[..i], resolve, Resolved(sel[i], resolve)))
  {
    DrawnFor(sel, next0, resolve, i);
    DrawnAt(sel, next0, resolve, i);
  }

  /** The draws of a run start from the reset counters. */
  lemma DrawsFromStartValues(cal: Calendar, moves: seq<Move>, next: map<SequenceId, int>, start: RenumberStart,
                             resolve: (PeriodId, Date) -> SequenceId)
    requires StoreValid(cal, moves, next) && ResolvesKnown(moves, next, resolve)
    requires start.fiscalyear in cal.fiscalYears
    ensures forall j :: 0 <= j < |ToRenumber(cal, moves, start.fiscalyear)| ==>
      Resolved(ToRenumber(cal, moves, start.fiscalyear)[j], resolve) in next
    ensures Draws(cal, moves, next, start, resolve)
      == Drawn(ToRenumber(cal, moves, start.fiscalyear), ResetCounters(cal, next, start), resolve)
    ensures ResetCounters(cal, next, start).Keys == next.Keys
    ensures forall g :: g in next ==> ResetCounters(cal, next, start)[g] == StartValue(cal, next, start, g)
  {
    var sel := ToRenumber(cal, moves, start.fiscalyear);
    ToRenumberFromTable(cal, moves, start.fiscalyear);
    forall j | 0 <= j < |sel| ensures Resolved(sel[j], resolve) in next {
      assert sel[j] in moves;
    }
  }

  /** The table move with the id of the i-th selected move is that move. */
  lemma SelectedAt(cal: Calendar, moves: seq<Move>, fy: FiscalYearId, k: nat, i: nat)
    requires DistinctIds(moves) && k < |moves| && i < |ToRenumber(cal, moves, fy)|
    requires moves[k].id == ToRenumber(cal, moves, fy)[i].id
    ensures moves[k] == ToRenumber(cal, moves, fy)[i]
  {
    ToRenumberFromTable(cal, moves, fy);
    assert ToRenumber(cal, moves, fy)[i] in moves;
  }

  /**
   * After a successful run, the move in position i of the `(date, id)`
   * order holds its sequence's start value plus the number of earlier
   * moves drawing from the same sequence.
   */
  lemma {:induction false} NumberAfterRenumber(cal: Calendar, moves: seq<Move>, next: map<SequenceId, int>,
                                               dismissed: set<string>, modifyExclude: set<string>,
                                               start: RenumberStart, resolve: (PeriodId, Date) -> SequenceId,
                                               k: nat, i: nat)
    requires StoreValid(cal, moves, next) && ResolvesKnown(moves, next, resolve)
    requires start.fiscalyear in cal.fiscalYears
    requires Renumbering(cal, moves, next, dismissed, modifyExclude, start, resolve).result.Success?
    requires k < |moves| && i < |ToRenumber(cal, moves, start.fiscalyear)|
    requires moves[k].id == ToRenumber(cal, moves, start.fiscalyear)[i].id
    ensures Resolved(moves[k], resolve) == Resolved(ToRenumber(cal, moves, start.fiscalyear)[i], resolve)
    ensures Renumbering(cal, moves, next, dismissed, modifyExclude, start, resolve).moves[k].number.Some?
    ensures Renumbering(cal, moves, next, dismissed, modifyExclude, start, resolve).moves[k].number.value
      == StartValue(cal, next, start, Resolved(moves[k], resolve)) +
         Count(ToRenumber(cal, moves, start.fiscalyear)[..i], resolve, Resolved(moves[k], resolve))
  {
    RenumberedNumber(cal, moves, next, dismissed, modifyExclude, start, resolve, k, i);
    DrawStartsFrom(cal, moves, next, start, resolve, i);
    SelectedAt(cal, moves, start.fiscalyear, k, i);
  }

  /** After a successful run, the i-th selected move holds the i-th draw. */
  lemma RenumberedNumber(cal: Calendar, moves: seq<Move>, next: map<SequenceId, int>,
                         dismissed: set<string>, modifyExclude: set<string>,
                         start: RenumberStart, resolve: (PeriodId, Date) -> SequenceId, k: nat, i: nat)
    requires StoreValid(cal, moves, next) && ResolvesKnown(moves, next, resolve)
    requires start.fiscalyear in cal.fiscalYears
    requires Renumbering(cal, moves, next, dismissed, modifyExclude, start, resolve).result.Success?
    requires k < |moves| && i < |ToRenumber(cal, moves, start.fiscalyear)|
    requires moves[k].id == ToRenumber(cal, moves, start.fiscalyear)[i].id
    ensures Renumbering(cal, moves, next, dismissed, modifyExclude, start, resolve).moves[k].number.Some?
    ensures Renumbering(cal, moves, next, dismissed, modifyExclude, start, resolve).moves[k].number.value
      == Draws(cal, moves, next, start, resolve).writes[i].number
  {
    SuccessApplies(cal, moves, next, dismissed, modifyExclude, start, resolve);
    DrawsFromStartValues(cal, moves, next, start, resolve);
    ToRenumberDistinct(cal, moves, start.fiscalyear);
    DrawnFor(ToRenumber(cal, moves, start.fiscalyear), ResetCounters(cal, next, start), resolve, i);
  }

  /** The i-th draw of a run: the start value of its sequence plus the earlier draws from it. */
  lemma DrawStartsFrom(cal: Calendar, moves: seq<Move>, next: map<SequenceId, int>, start: RenumberStart,
                       resolve: (PeriodId, Date) -> SequenceId, i: nat)
    requires StoreValid(cal, moves, next) && ResolvesKnown(moves, next, resolve)
    requires start.fiscalyear in cal.fiscalYears
    requires i < |ToRenumber(cal, moves, start.fiscalyear)|
    ensures Resolved(ToRenumber(cal, moves, start.fiscalyear)[i], resolve) in next
    ensures Draws(cal, moves, next, start, resolve).writes[i].number
      == StartValue(cal, next, start, Resolved(ToRenumber(cal, moves, start.fiscalyear)[i], resolve)) +
         Count(ToRenumber(cal, moves, start.fiscalyear)[..i], resolve, Resolved(ToRenumber(cal, moves, start.fiscalyear)[i], resolve))
  {
    DrawsFromStartValues(cal, moves, next, start, resolve);
    DrawnAt(ToRenumber(cal, moves, start.fiscalyear), ResetCounters(cal, next, start), resolve, i);
  }

  /**
   * After a successful run each counter holds its reset value
   * (`first_number` for the year's sequences, unchanged for the others)
   * plus the number of moves that drew from it.
   */
  lemma CountersAfterRenumber(cal: Calendar, moves: seq<Move>, next: map<SequenceId, int>,
                              dismissed: set<string>, modifyExclude: set<string>,
                              start: RenumberStart, resolve: (PeriodId, Date) -> SequenceId)
    requires StoreValid(cal, moves, next) && ResolvesKnown(moves, next, resolve)
    requires start.fiscalyear in cal.fiscalYears
    requires Renumbering(cal, moves, next, dismissed, modifyExclude, start, resolve).result.Success?
    ensures forall g :: g in next ==>
      Renumbering(cal, moves, next, dismissed, modifyExclude, start, resolve).next[g]
        == StartValue(cal, next, start, g) + Count(ToRenumber(cal, moves, start.fiscalyear), resolve, g)
  {
    var sel := ToRenumber(cal, moves, start.fiscalyear);
    DrawsFromStartValues(cal, moves, next, start, resolve);
    SuccessApplies(cal, moves, next, dismissed, modifyExclude, start, resolve);
    DrawnClosedForm(sel, ResetCounters(cal, next, start), resolve);
  }

  /**
   * After a successful run, of two moves drawing from the same sequence
   * the one earlier in `(date, id)` order holds the smaller number.
   */
  lemma NumbersIncreaseAfterRenumber(cal: Calendar, moves: seq<Move>, next: map<SequenceId, int>,
                                     dismissed: set<string>, modifyExclude: set<string>,
                                     start: RenumberStart, resolve: (PeriodId, Date) -> SequenceId,
                                     k: nat, l: nat, i: nat, j: nat)
    requires StoreValid(cal, moves, next) && ResolvesKnown(moves, next, resolve)
    requires start.fiscalyear in cal.fiscalYears
    requires Renumbering(cal, moves, next, dismissed, modifyExclude, start, resolve).result.Success?
    requires k < |moves| && l < |moves| && i < j < |ToRenumber(cal, moves, start.fiscalyear)|
    requires moves[k].id == ToRenumber(cal, moves, start.fiscalyear)[i].id
    requires moves[l].id == ToRenumber(cal, moves, start.fiscalyear)[j].id
    requires Resolved(moves[k], resolve) == Resolved(moves[l], resolve)
    ensures Renumbering(cal, moves, next, dismissed, modifyExclude, start, resolve).moves[k].number.Some?
    ensures Renumbering(cal, moves, next, dismissed, modifyExclude, start, resolve).moves[l].number.Some?
    ensures Renumbering(cal, moves, next, dismissed, modifyExclude, start, resolve).moves[k].number.value
      < Renumbering(cal, moves, next, dismissed, modifyExclude, start, resolve).moves[l].number.value
  {
    RenumberedNumber(cal, moves, next, dismissed, modifyExclude, start, resolve, k, i);
    RenumberedNumber(cal, moves, next, dismissed, modifyExclude, start, resolve, l, j);
    SelectedAt(cal, moves, start.fiscalyear, k, i);
    SelectedAt(cal, moves, start.fiscalyear, l, j);
    DrawsFromStartValues(cal, moves, next, start, resolve);
    DrawnIncreasing(ToRenumber(cal, moves, start.fiscalyear), ResetCounters(cal, next, start), resolve, i, j);
  }

  /**
   * After a successful run, every value from a sequence's start value up
   * to its new counter is the number of some renumbered move drawing from
   * it: the numbers of one sequence have no gap.
   */
  lemma NoGapAfterRenumber(cal: Calendar, moves: seq<Move>, next: map<SequenceId, int>,
                           dismissed: set<string>, modifyExclude: set<string>,
                           start: RenumberStart, resolve: (PeriodId, Date) -> SequenceId,
                           g: SequenceId, v: int)
    requires StoreValid(cal, moves, next) && ResolvesKnown(moves, next, resolve)
    requires start.fiscalyear in cal.fiscalYears
    requires Renumbering(cal, moves, next, dismissed, modifyExclude, start, resolve).result.Success?
    requires g in next
    requires StartValue(cal, next, start, g) <= v < Renumbering(cal, moves, next, dismissed, modifyExclude, start, resolve).next[g]
    ensures exists k ::
      && 0 <= k < |moves|
      && moves[k].number.Some? && Satisfies(cal, moves[k], FiscalYearIs(start.fiscalyear))
      && Resolved(moves[k], resolve) == g
      && Renumbering(cal, moves, next, dismissed, modifyExclude, start, resolve).moves[k].number.Some?
      && Renumbering(cal, moves, next, dismissed, modifyExclude, start, resolve).moves[k].number.value == v
  {
    var fy := start.fiscalyear;
    var sel := ToRenumber(cal, moves, fy);
    var n0 := ResetCounters(cal, next, start);
    DrawsFromStartValues(cal, moves, next, start, resolve);
    SuccessApplies(cal, moves, next, dismissed, modifyExclude, start, resolve);
    DrawnCoversRange(sel, n0, resolve, g, v);
    var i :| 0 <= i < |sel| && Resolved(sel[i], resolve) == g && Drawn(sel, n0, resolve).writes[i].number == v;
    var k :| 0 <= k < |moves| && moves[k] == sel[i] by {
      ToRenumberFromTable(cal, moves, fy);
      assert sel[i] in moves;
    }
    SelectedQualifies(cal, moves, fy, i);
    RenumberedNumber(cal, moves, next, dismissed, modifyExclude, start, resolve, k, i);
  }

  /*
   * The write of lines 91-92 of account.py and the accounting module's check on it.
   */

  /** The draws write a move exactly when it is a numbered move of the fiscal year. */
  lemma {:induction false} WrittenIffSelected(cal: Calendar, moves: seq<Move>, next: map<SequenceId, int>,
                                              start: RenumberStart, resolve: (PeriodId, Date) -> SequenceId, k: nat)
    requires StoreValid(cal, moves, next) && ResolvesKnown(moves, next, resolve)
    requires start.fiscalyear in cal.fiscalYears && k < |moves|
    ensures WrittenNumber(Draws(cal, moves, next, start, resolve).writes, moves[k].id).Some? <==>
      moves[k].number.Some? && Satisfies(cal, moves[k], FiscalYearIs(start.fiscalyear))
  {
    var fy := start.fiscalyear;
    var sel := ToRenumber(cal, moves, fy);
    var w := Draws(cal, moves, next, start, resolve).writes;
    WrittenNumberSome(w, moves[k].id);
    if j :| 0 <= j < |w| && w[j].move == moves[k].id {
      SelectedAt(cal, moves, fy, k, j);
      SelectedQualifies(cal, moves, fy, j);
    }
    if moves[k].number.Some? && Satisfies(cal, moves[k], FiscalYearIs(fy)) {
      QualifyingSelected(cal, moves, fy, k);
      var j :| 0 <= j < |sel| && sel[j] == moves[k];
      assert w[j].move == moves[k].id;
    }
  }

  /**
   * Lines 91-92 of account.py under the accounting module's check: once the draft
   * check has passed, the run fails with the posted-move error, leaving
   * every table as it was, exactly when `number` is not exempt from the
   * check and the fiscal year holds a posted move with a number.
   */
  lemma {:induction false} RejectedIff(cal: Calendar, moves: seq<Move>, next: map<SequenceId, int>,
                                       dismissed: set<string>, modifyExclude: set<string>,
                                       start: RenumberStart, resolve: (PeriodId, Date) -> SequenceId)
    requires StoreValid(cal, moves, next) && ResolvesKnown(moves, next, resolve)
    requires FirstNumberInDomain(start.firstNumber) && start.fiscalyear in cal.fiscalYears
    requires !DraftCheckFails(cal, moves, dismissed, start.fiscalyear)
    ensures var o := Renumbering(cal, moves, next, dismissed, modifyExclude, start, resolve);
      o.result == Failure(PostedMoveModified) <==>
        NumberField !in modifyExclude &&
        exists k :: 0 <= k < |moves| && moves[k].state == Posted && moves[k].number.Some? &&
          Satisfies(cal, moves[k], FiscalYearIs(start.fiscalyear))
  {
    var fy := start.fiscalyear;
    var d := Draws(cal, moves, next, start, resolve);
    RenumberingAfterChecks(cal, moves, next, dismissed, modifyExclude, start, resolve);
    if k :| 0 <= k < |moves| && moves[k].state == Posted && moves[k].number.Some? && Satisfies(cal, moves[k], FiscalYearIs(fy)) {
      WrittenIffSelected(cal, moves, next, start, resolve, k);
      assert d.writes != [];
    }
    if k :| 0 <= k < |moves| && moves[k].state == Posted && WrittenNumber(d.writes, moves[k].id).Some? {
      WrittenIffSelected(cal, moves, next, start, resolve, k);
    }
  }

  /**
   * With nothing to renumber no write is issued, so the run succeeds and
   * leaves every move as it was; the counters are still reset.
   */
  lemma EmptySelectionWritesNothing(cal: Calendar, moves: seq<Move>, next: map<SequenceId, int>,
                                    dismissed: set<string>, modifyExclude: set<string>,
                                    start: RenumberStart, resolve: (PeriodId, Date) -> SequenceId)
    requires StoreValid(cal, moves, next) && ResolvesKnown(moves, next, resolve)
    requires FirstNumberInDomain(start.firstNumber) && start.fiscalyear in cal.fiscalYears
    requires !DraftCheckFails(cal, moves, dismissed, start.fiscalyear)
    requires ToRenumber(cal, moves, start.fiscalyear) == []
    ensures Renumbering(cal, moves, next, dismissed, modifyExclude, start, resolve)
      == Outcome(Success(RenumberDomain(start.fiscalyear)), moves, ResetCounters(cal, next, start))
  {
    RenumberingAfterChecks(cal, moves, next, dismissed, modifyExclude, start, resolve);
    DrawsFromStartValues(cal, moves, next, start, resolve);
  }

  /**
   * After a successful run the returned domain matches exactly the moves
   * the run wrote: those numbered moves of the fiscal year.
   */
  lemma ResultDomainSelectsWritten(cal: Calendar, moves: seq<Move>, next: map<SequenceId, int>,
                                   dismissed: set<string>, modifyExclude: set<string>,
                                   start: RenumberStart, resolve: (PeriodId, Date) -> SequenceId, k: nat)
    requires StoreValid(cal, moves, next) && ResolvesKnown(moves, next, resolve)
    requires start.fiscalyear in cal.fiscalYears
    requires Renumbering(cal, moves, next, dismissed, modifyExclude, start, resolve).result.Success?
    requires k < |moves|
    ensures Matches(cal, Renumbering(cal, moves, next, dismissed, modifyExclude, start, resolve).moves[k],
                    Renumbering(cal, moves, next, dismissed, modifyExclude, start, resolve).result.domain)
      <==> WrittenNumber(Draws(cal, moves, next, start, resolve).writes, moves[k].id).Some?
  {
    var fy := start.fiscalyear;
    var d := RenumberDomain(fy);
    SuccessApplies(cal, moves, next, dismissed, modifyExclude, start, resolve);
    WrittenIffSelected(cal, moves, next, start, resolve, k);
    assert d[0] == FiscalYearIs(fy) && d[1] == NumberNotNull;
  }

  /** With `Move.__setup__` applied, the write is never refused. */
  lemma SetupPreventsRejection(cal: Calendar, moves: seq<Move>, next: map<SequenceId, int>,
                               dismissed: set<string>, modifyExclude: set<string>,
                               start: RenumberStart, resolve: (PeriodId, Date) -> SequenceId)
    requires StoreValid(cal, moves, next) && ResolvesKnown(moves, next, resolve)
    requires NumberField in modifyExclude
    ensures Renumbering(cal, moves, next, dismissed, modifyExclude, start, resolve).result != Failure(PostedMoveModified)
  {
    if FirstNumberInDomain(start.firstNumber) && start.fiscalyear in cal.fiscalYears
      && !DraftCheckFails(cal, moves, dismissed, start.fiscalyear) {
      RenumberingAfterChecks(cal, moves, next, dismissed, modifyExclude, start, resolve);
    }
  }

  /*
   * Listing the moves again after a run, as the wizard's returned domain does.
   */

  /**
   * After a successful run, the numbered moves of the fiscal year in
   * `(date, id)` order are the same moves in the same order, carrying the
   * numbers written to them.
   */
  lemma RelistedAfterRenumber(cal: Calendar, moves: seq<Move>, next: map<SequenceId, int>,
                              dismissed: set<string>, modifyExclude: set<string>,
                              start: RenumberStart, resolve: (PeriodId, Date) -> SequenceId)
    requires StoreValid(cal, moves, next) && ResolvesKnown(moves, next, resolve)
    requires start.fiscalyear in cal.fiscalYears
    requires Renumbering(cal, moves, next, dismissed, modifyExclude, start, resolve).result.Success?
    ensures ToRenumber(cal, Renumbering(cal, moves, next, dismissed, modifyExclude, start, resolve).moves, start.fiscalyear)
      == ApplyWrites(ToRenumber(cal, moves, start.fiscalyear), Draws(cal, moves, next, start, resolve).writes)
  {
    var fy := start.fiscalyear;
    var w := Draws(cal, moves, next, start, resolve).writes;
    var d := RenumberDomain(fy);
    SuccessApplies(cal, moves, next, dismissed, modifyExclude, start, resolve);
    forall x | x in moves ensures Matches(cal, Apply(x, w), d) <==> Matches(cal, x, d) {
      var k :| 0 <= k < |moves| && moves[k] == x;
      WrittenIffSelected(cal, moves, next, start, resolve, k);
      assert d[0] == FiscalYearIs(fy) && d[1] == NumberNotNull;
    }
    SearchApply(cal, moves, d, w);
    SortApply(Search(cal, moves, d), w);
  }

  /** The relisted moves, as the draws from the reset counters leave them. */
  lemma RelistedFromStartValues(cal: Calendar, moves: seq<Move>, next: map<SequenceId, int>,
                                dismissed: set<string>, modifyExclude: set<string>,
                                start: RenumberStart, resolve: (PeriodId, Date) -> SequenceId)
    requires StoreValid(cal, moves, next) && ResolvesKnown(moves, next, resolve)
    requires start.fiscalyear in cal.fiscalYears
    requires Renumbering(cal, moves, next, dismissed, modifyExclude, start, resolve).result.Success?
    ensures forall j :: 0 <= j < |ToRenumber(cal, moves, start.fiscalyear)| ==>
      Resolved(ToRenumber(cal, moves, start.fiscalyear)[j], resolve) in next
    ensures ToRenumber(cal, Renumbering(cal, moves, next, dismissed, modifyExclude, start, resolve).moves, start.fiscalyear)
      == ApplyWrites(ToRenumber(cal, moves, start.fiscalyear),
                     Drawn(ToRenumber(cal, moves, start.fiscalyear), ResetCounters(cal, next, start), resolve).writes)
    ensures ResetCounters(cal, next, start).Keys == next.Keys
    ensures forall g :: g in next ==> ResetCounters(cal, next, start)[g] == StartValue(cal, next, start, g)
  {
    DrawsFromStartValues(cal, moves, next, start, resolve);
    RelistedAfterRenumber(cal, moves, next, dismissed, modifyExclude, start, resolve);
  }

  /** Applying the draws to the selection renumbers its i-th move and nothing else of it. */
  lemma {:induction false} AppliedAt(sel: seq<Move>, next0: map<SequenceId, int>,
                                     resolve: (PeriodId, Date) -> SequenceId, i: nat)
    requires forall j :: 0 <= j < |sel| ==> Resolved(sel[j], resolve) in next0
    requires DistinctIds(sel) && i < |sel|
    ensures |ApplyWrites(sel, Drawn(sel, next0, resolve).writes)| == |sel|
    ensures ApplyWrites(sel, Drawn(sel, next0, resolve).writes)[i]
      == sel[i].(number := Some(next0[Resolved(sel[i], resolve)] + Count(sel[..i], resolve, Resolved(sel[i], resolve))))
  {
    AppliedNumber(sel[i], sel, next0, resolve, i);
  }

  /** Drawing every move from one sequence gives the i-th move the start value plus i. */
  lemma SingleSequenceAt(sel: seq<Move>, next0: map<SequenceId, int>, resolve: (PeriodId, Date) -> SequenceId,
                         g: SequenceId, v: int, i: nat)
    requires forall j :: 0 <= j < |sel| ==> Resolved(sel[j], resolve) == g
    requires g in next0 && next0[g] == v && DistinctIds(sel) && i < |sel|
    ensures ApplyWrites(sel, Drawn(sel, next0, resolve).writes)[i] == sel[i].(number := Some(v + i))
  {
    assert Resolved(sel[i], resolve) == g;
    CountAll(sel[..i], resolve, g);
    assert Count(sel[..i], resolve, g) == i;
    AppliedAt(sel, next0, resolve, i);
  }

  /**
   * Drawing every move from one sequence numbers them consecutively from
   * its start value, and leaves the sequence just after the last number.
   */
  lemma SingleSequenceDrawn(sel: seq<Move>, next0: map<SequenceId, int>, resolve: (PeriodId, Date) -> SequenceId,
                            g: SequenceId, v: int, after: seq<Move>)
    requires forall j :: 0 <= j < |sel| ==> Resolved(sel[j], resolve) == g
    requires g in next0 && next0[g] == v && DistinctIds(sel)
    requires after == ApplyWrites(sel, Drawn(sel, next0, resolve).writes)
    ensures |after| == |sel|
    ensures forall i :: 0 <= i < |sel| ==> after[i] == sel[i].(number := Some(v + i))
    ensures Drawn(sel, next0, resolve).next[g] == v + |sel|
  {
    forall i | 0 <= i < |sel| ensures after[i] == sel[i].(number := Some(v + i)) {
      SingleSequenceAt(sel, next0, resolve, g, v, i);
    }
    DrawnClosedForm(sel, next0, resolve);
    CountAll(sel, resolve, g);
  }

  /**
   * The precondition of the module's renumbering test: `Move.__setup__`
   * applied, no undismissed draft moves, and every numbered move of the
   * fiscal year drawing from the fiscal year's own sequence.
   */
  ghost predicate SingleSequenceRun(cal: Calendar, moves: seq<Move>, next: map<SequenceId, int>,
                                    dismissed: set<string>, modifyExclude: set<string>,
                                    start: RenumberStart, resolve: (PeriodId, Date) -> SequenceId)
  {
    && StoreValid(cal, moves, next) && ResolvesKnown(moves, next, resolve)
    && FirstNumberInDomain(start.firstNumber) && start.fiscalyear in cal.fiscalYears
    && !DraftCheckFails(cal, moves, dismissed, start.fiscalyear)
    && NumberField in modifyExclude
    && forall k :: 0 <= k < |moves| ==>
      (moves[k].number.Some? && Satisfies(cal, moves[k], FiscalYearIs(start.fiscalyear)) ==>
         Resolved(moves[k], resolve) == cal.fiscalYears[start.fiscalyear].moveSequence)
  }

  /** When every numbered move of the year draws from g, so does every selected move. */
  lemma SelectionOnOneSequence(cal: Calendar, moves: seq<Move>, fy: FiscalYearId,
                               resolve: (PeriodId, Date) -> SequenceId, g: SequenceId)
    requires DistinctIds(moves)
    requires forall k :: 0 <= k < |moves| ==>
      (moves[k].number.Some? && Satisfies(cal, moves[k], FiscalYearIs(fy)) ==> Resolved(moves[k], resolve) == g)
    ensures forall j :: 0 <= j < |ToRenumber(cal, moves, fy)| ==> Resolved(ToRenumber(cal, moves, fy)[j], resolve) == g
  {
    var sel := ToRenumber(cal, moves, fy);
    ToRenumberSelects(cal, moves, fy);
    forall j | 0 <= j < |sel| ensures Resolved(sel[j], resolve) == g {
      assert sel[j] in moves;
      var k :| 0 <= k < |moves| && moves[k] == sel[j];
    }
  }

  /** In the test's scenario the run succeeds. */
  lemma SingleSequenceSucceeds(cal: Calendar, moves: seq<Move>, next: map<SequenceId, int>,
                               dismissed: set<string>, modifyExclude: set<string>,
                               start: RenumberStart, resolve: (PeriodId, Date) -> SequenceId)
    requires SingleSequenceRun(cal, moves, next, dismissed, modifyExclude, start, resolve)
    ensures Renumbering(cal, moves, next, dismissed, modifyExclude, start, resolve).result
      == Success(RenumberDomain(start.fiscalyear))
  {
    RenumberingAfterChecks(cal, moves, next, dismissed, modifyExclude, start, resolve);
    SetupPreventsRejection(cal, moves, next, dismissed, modifyExclude, start, resolve);
  }

  /**
   * The module's renumbering test: in its scenario, the moves of the
   * fiscal year in `(date, id)` order hold `first_number`,
   * `first_number + 1`, ..., and the sequence's next number is the one
   * after the last.
   */
  lemma SingleSequenceNumbering(cal: Calendar, moves: seq<Move>, next: map<SequenceId, int>,
                                dismissed: set<string>, modifyExclude: set<string>,
                                start: RenumberStart, resolve: (PeriodId, Date) -> SequenceId)
    requires SingleSequenceRun(cal, moves, next, dismissed, modifyExclude, start, resolve)
    ensures |ToRenumber(cal, Renumbering(cal, moves, next, dismissed, modifyExclude, start, resolve).moves, start.fiscalyear)|
      == |ToRenumber(cal, moves, start.fiscalyear)|
    ensures forall i :: 0 <= i < |ToRenumber(cal, moves, start.fiscalyear)| ==>
      ToRenumber(cal, Renumbering(cal, moves, next, dismissed, modifyExclude, start, resolve).moves, start.fiscalyear)[i]
        == ToRenumber(cal, moves, start.fiscalyear)[i].(number := Some(start.firstNumber + i))
  {
    var fy := start.fiscalyear;
    var o := Renumbering(cal, moves, next, dismissed, modifyExclude, start, resolve);
    SingleSequenceSetup(cal, moves, next, dismissed, modifyExclude, start, resolve);
    SingleSequenceDrawn(ToRenumber(cal, moves, fy), ResetCounters(cal, next, start), resolve,
                        cal.fiscalYears[fy].moveSequence, start.firstNumber, ToRenumber(cal, o.moves, fy));
  }

  /** What the test's scenario gives the draws to start from. */
  lemma SingleSequenceSetup(cal: Calendar, moves: seq<Move>, next: map<SequenceId, int>,
                            dismissed: set<string>, modifyExclude: set<string>,
                            start: RenumberStart, resolve: (PeriodId, Date) -> SequenceId)
    requires SingleSequenceRun(cal, moves, next, dismissed, modifyExclude, start, resolve)
    ensures forall j :: 0 <= j < |ToRenumber(cal, moves, start.fiscalyear)| ==>
      Resolved(ToRenumber(cal, moves, start.fiscalyear)[j], resolve) == cal.fiscalYears[start.fiscalyear].moveSequence
    ensures cal.fiscalYears[start.fiscalyear].moveSequence in ResetCounters(cal, next, start)
    ensures ResetCounters(cal, next, start)[cal.fiscalYears[start.fiscalyear].moveSequence] == start.firstNumber
    ensures DistinctIds(ToRenumber(cal, moves, start.fiscalyear))
    ensures ToRenumber(cal, Renumbering(cal, moves, next, dismissed, modifyExclude, start, resolve).moves, start.fiscalyear)
      == ApplyWrites(ToRenumber(cal, moves, start.fiscalyear),
                     Drawn(ToRenumber(cal, moves, start.fiscalyear), ResetCounters(cal, next, start), resolve).writes)
  {
    var fy := start.fiscalyear;
    var g := cal.fiscalYears[fy].moveSequence;
    SingleSequenceSucceeds(cal, moves, next, dismissed, modifyExclude, start, resolve);
    SelectionOnOneSequence(cal, moves, fy, resolve, g);
    assert g in YearSequences(cal, fy);
    RelistedFromStartValues(cal, moves, next, dismissed, modifyExclude, start, resolve);
    ToRenumberDistinct(cal, moves, fy);
  }

  /** In the test's scenario the sequence's next number follows the last one written. */
  lemma SingleSequenceCounter(cal: Calendar, moves: seq<Move>, next: map<SequenceId, int>,
                              dismissed: set<string>, modifyExclude: set<string>,
                              start: RenumberStart, resolve: (PeriodId, Date) -> SequenceId)
    requires SingleSequenceRun(cal, moves, next, dismissed, modifyExclude, start, resolve)
    ensures Renumbering(cal, moves, next, dismissed, modifyExclude, start, resolve).next[cal.fiscalYears[start.fiscalyear].moveSequence]
      == start.firstNumber + |ToRenumber(cal, moves, start.fiscalyear)|
  {
    var fy := start.fiscalyear;
    var g := cal.fiscalYears[fy].moveSequence;
    SingleSequenceSucceeds(cal, moves, next, dismissed, modifyExclude, start, resolve);
    SelectionOnOneSequence(cal, moves, fy, resolve, g);
    assert g in YearSequences(cal, fy);
    CountersAfterRenumber(cal, moves, next, dismissed, modifyExclude, start, resolve);
    CountAll(ToRenumber(cal, moves, fy), resolve, g);
  }

  /*
   * Running the wizard twice.
   */

  /** The draws look only at each move's id and the sequence it resolves to. */
  lemma {:induction false} DrawnIgnoresNumbers(sel: seq<Move>, other: seq<Move>, next0: map<SequenceId, int>,
                                               resolve: (PeriodId, Date) -> SequenceId)
    requires forall i :: 0 <= i < |sel| ==> Resolved(sel[i], resolve) in next0
    requires |other| == |sel|
    requires forall i :: 0 <= i < |sel| ==> other[i].id == sel[i].id && Resolved(other[i], resolve) == Resolved(sel[i], resolve)
    ensures Drawn(other, next0, resolve) == Drawn(sel, next0, resolve)
    decreases |sel|
  {
    if sel != [] {
      DrawnIgnoresNumbers(sel[..|sel| - 1], other[..|other| - 1], next0, resolve);
    }
  }

  /** A successful run has passed every check. */
  lemma SuccessPassedChecks(cal: Calendar, moves: seq<Move>, next: map<SequenceId, int>,
                            dismissed: set<string>, modifyExclude: set<string>,
                            start: RenumberStart, resolve: (PeriodId, Date) -> SequenceId)
    requires StoreValid(cal, moves, next) && ResolvesKnown(moves, next, resolve)
    requires Renumbering(cal, moves, next, dismissed, modifyExclude, start, resolve).result.Success?
    ensures FirstNumberInDomain(start.firstNumber) && start.fiscalyear in cal.fiscalYears
    ensures !DraftCheckFails(cal, moves, dismissed, start.fiscalyear)
  {
  }

  /** Every numbered move of the fiscal year draws from a sequence the run resets. */
  ghost predicate DrawsFromReset(cal: Calendar, moves: seq<Move>, start: RenumberStart, resolve: (PeriodId, Date) -> SequenceId)
    requires CalendarValid(cal) && start.fiscalyear in cal.fiscalYears
  {
    forall k :: 0 <= k < |moves| ==>
      (moves[k].number.Some? && Satisfies(cal, moves[k], FiscalYearIs(start.fiscalyear)) ==>
         Resolved(moves[k], resolve) in YearSequences(cal, start.fiscalyear))
  }

  /** When the draws only use reset sequences, resetting again gives the same starting table. */
  lemma ResetAfterRun(cal: Calendar, moves: seq<Move>, next: map<SequenceId, int>,
                      dismissed: set<string>, modifyExclude: set<string>,
                      start: RenumberStart, resolve: (PeriodId, Date) -> SequenceId)
    requires StoreValid(cal, moves, next) && ResolvesKnown(moves, next, resolve)
    requires start.fiscalyear in cal.fiscalYears && DrawsFromReset(cal, moves, start, resolve)
    requires Renumbering(cal, moves, next, dismissed, modifyExclude, start, resolve).result.Success?
    ensures ResetCounters(cal, Renumbering(cal, moves, next, dismissed, modifyExclude, start, resolve).next, start)
      == ResetCounters(cal, next, start)
  {
    var fy := start.fiscalyear;
    var o := Renumbering(cal, moves, next, dismissed, modifyExclude, start, resolve);
    var sel := ToRenumber(cal, moves, fy);
    var ys := YearSequences(cal, fy);
    CountersAfterRenumber(cal, moves, next, dismissed, modifyExclude, start, resolve);
    forall g | g in next && g !in ys ensures o.next[g] == next[g] {
      forall j | 0 <= j < |sel| ensures Resolved(sel[j], resolve) != g {
        SelectedDrawsFromReset(cal, moves, start, resolve, j);
      }
      CountAbsent(sel, resolve, g);
    }
    ResetAgreeing(o.next, next, ys, start.firstNumber);
  }

  /** Under `DrawsFromReset`, each selected move draws from a reset sequence. */
  lemma SelectedDrawsFromReset(cal: Calendar, moves: seq<Move>, start: RenumberStart,
                               resolve: (PeriodId, Date) -> SequenceId, j: nat)
    requires CalendarValid(cal) && DistinctIds(moves) && start.fiscalyear in cal.fiscalYears
    requires DrawsFromReset(cal, moves, start, resolve)
    requires j < |ToRenumber(cal, moves, start.fiscalyear)|
    ensures Resolved(ToRenumber(cal, moves, start.fiscalyear)[j], resolve) in YearSequences(cal, start.fiscalyear)
  {
    ToRenumberFromTable(cal, moves, start.fiscalyear);
    SelectedQualifies(cal, moves, start.fiscalyear, j);
    assert ToRenumber(cal, moves, start.fiscalyear)[j] in moves;
    var k :| 0 <= k < |moves| && moves[k] == ToRenumber(cal, moves, start.fiscalyear)[j];
  }

  /** Two tables that differ only on reset sequences are alike once reset. */
  lemma ResetAgreeing(a: map<SequenceId, int>, b: map<SequenceId, int>, sequences: set<SequenceId>, value: int)
    requires a.Keys == b.Keys
    requires forall g :: g in b && g !in sequences ==> a[g] == b[g]
    ensures Reset(a, sequences, value) == Reset(b, sequences, value)
  {
  }

  /** When the draws only use reset sequences, a second run draws exactly what the first one did. */
  lemma RerunDraws(cal: Calendar, moves: seq<Move>, next: map<SequenceId, int>,
                   dismissed: set<string>, modifyExclude: set<string>,
                   start: RenumberStart, resolve: (PeriodId, Date) -> SequenceId)
    requires StoreValid(cal, moves, next) && ResolvesKnown(moves, next, resolve)
    requires start.fiscalyear in cal.fiscalYears && DrawsFromReset(cal, moves, start, resolve)
    requires Renumbering(cal, moves, next, dismissed, modifyExclude, start, resolve).result.Success?
    ensures StoreValid(cal, Renumbering(cal, moves, next, dismissed, modifyExclude, start, resolve).moves,
                       Renumbering(cal, moves, next, dismissed, modifyExclude, start, resolve).next)
    ensures ResolvesKnown(Renumbering(cal, moves, next, dismissed, modifyExclude, start, resolve).moves,
                          Renumbering(cal, moves, next, dismissed, modifyExclude, start, resolve).next, resolve)
    ensures Draws(cal, Renumbering(cal, moves, next, dismissed, modifyExclude, start, resolve).moves,
                  Renumbering(cal, moves, next, dismissed, modifyExclude, start, resolve).next, start, resolve)
      == Draws(cal, moves, next, start, resolve)
  {
    var fy := start.fiscalyear;
    var o := Renumbering(cal, moves, next, dismissed, modifyExclude, start, resolve);
    var sel := ToRenumber(cal, moves, fy);
    var n0 := ResetCounters(cal, next, start);
    var w := Draws(cal, moves, next, start, resolve).writes;
    RenumberingKeepsStoreValid(cal, moves, next, dismissed, modifyExclude, start, resolve);
    var again := ToRenumber(cal, o.moves, fy);
    assert Draws(cal, moves, next, start, resolve) == Drawn(sel, n0, resolve) by {
      DrawsFromStartValues(cal, moves, next, start, resolve);
    }
    assert Draws(cal, o.moves, o.next, start, resolve) == Drawn(again, n0, resolve) by {
      DrawsFromStartValues(cal, o.moves, o.next, start, resolve);
      ResetAfterRun(cal, moves, next, dismissed, modifyExclude, start, resolve);
    }
    assert again == ApplyWrites(sel, w) by {
      RelistedAfterRenumber(cal, moves, next, dismissed, modifyExclude, start, resolve);
    }
    DrawnIgnoresNumbers(sel, again, n0, resolve);
  }

  /**
   * Running the wizard a second time with the same start record, on the
   * tables the first successful run left, changes nothing, as long as
   * every renumbered move draws from a sequence the run resets.
   */
  lemma RenumberTwice(cal: Calendar, moves: seq<Move>, next: map<SequenceId, int>,
                      dismissed: set<string>, modifyExclude: set<string>,
                      start: RenumberStart, resolve: (PeriodId, Date) -> SequenceId)
    requires StoreValid(cal, moves, next) && ResolvesKnown(moves, next, resolve)
    requires start.fiscalyear in cal.fiscalYears && DrawsFromReset(cal, moves, start, resolve)
    requires Renumbering(cal, moves, next, dismissed, modifyExclude, start, resolve).result.Success?
    ensures StoreValid(cal, Renumbering(cal, moves, next, dismissed, modifyExclude, start, resolve).moves,
                       Renumbering(cal, moves, next, dismissed, modifyExclude, start, resolve).next)
    ensures ResolvesKnown(Renumbering(cal, moves, next, dismissed, modifyExclude, start, resolve).moves,
                          Renumbering(cal, moves, next, dismissed, modifyExclude, start, resolve).next, resolve)
    ensures Renumbering(cal, Renumbering(cal, moves, next, dismissed, modifyExclude, start, resolve).moves,
                        Renumbering(cal, moves, next, dismissed, modifyExclude, start, resolve).next,
                        dismissed, modifyExclude, start, resolve)
      == Renumbering(cal, moves, next, dismissed, modifyExclude, start, resolve)
  {
    var fy := start.fiscalyear;
    var o := Renumbering(cal, moves, next, dismissed, modifyExclude, start, resolve);
    var d := Draws(cal, moves, next, start, resolve);
    SuccessPassedChecks(cal, moves, next, dismissed, modifyExclude, start, resolve);
    RerunDraws(cal, moves, next, dismissed, modifyExclude, start, resolve);
    assert o.moves == ApplyWrites(moves, d.writes) && o.next == d.next by {
      SuccessApplies(cal, moves, next, dismissed, modifyExclude, start, resolve);
    }
    assert !DraftCheckFails(cal, o.moves, dismissed, fy) by {
      SearchIgnoresNumbers(cal, moves, DraftDomain(fy), d.writes);
    }
    assert ModifyRejected(o.moves, d.writes, modifyExclude) == ModifyRejected(moves, d.writes, modifyExclude) by {
      ModifyRejectedIgnoresNumbers(moves, o.moves, d.writes, modifyExclude);
    }
    ApplyWritesTwice(moves, d.writes);
    RenumberingAfterChecks(cal, moves, next, dismissed, modifyExclude, start, resolve);
    RenumberingAfterChecks(cal, o.moves, o.next, dismissed, modifyExclude, start, resolve);
  }
}
