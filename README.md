# Renumbering the account moves of a fiscal year

This project models the Tryton module `account_move_renumber`. Its wizard,
`account.move.renumber`, takes a fiscal year and a first number. Its
`do_renumber` step then does the following:

- It refuses to run while the year holds draft moves, unless the user has
  dismissed the per-year warning `move_renumber_draft_moves<id>`.
- It collects the strict sequences reachable from the year: the year's own
  move sequence and each period's override.
- It sets `number_next` of each of those sequences to the first number.
- It lists the year's moves that have a number, ordered by `(date, id)`.
- It draws, for each of those moves in turn, the next value of the sequence
  the move's period uses on the move's date.
- It writes every drawn number in one bulk write.
- It returns the domain that lists the renumbered moves.

The module also extends `account.move` so that `number` is exempt from the
accounting module's check on posted moves. Without that exemption the bulk
write is refused exactly when the fiscal year holds a posted move with a
number, since every such move is among those written.

The project has four modules:

- `Decimal` renders a record id the way Python's `'%s' % id` does.
- `Ledger` holds the stored records (moves, periods and fiscal years) and the
  repository operations the step calls. These are `search` by domain, the
  order `[('date', 'ASC'), ('id', 'ASC')]` (an insertion sort), and the bulk
  `write`. The write applies a set of staged numbers and is refused by the
  posted-move check.
- `Renumber` holds the start record, its domain and default, and the warning
  key. It defines `Renumbering`, the whole step as a function of the stored
  tables. The class `Database` holds the tables as fields: moves, the
  `number_next` counters, the dismissed warnings and the modify exclusions.
  Its `DoRenumber` method carries out the step imperatively: the loop that
  collects sequences, the reset, the loop that draws numbers through a
  sequence `get()` that advances its counter, and the all-or-nothing write. It
  is proved to leave exactly the state `Renumbering` describes.
- `Properties` proves what the step promises about `Renumbering`.

The period's `move_sequence_used` under the context date is computed outside
this repository. It is the parameter `resolve: (PeriodId, Date) -> SequenceId`.

## Model

| member | source | states |
|---|---|---|
| Decimal.NatToString | account.py:58 | the rendering of an id is a non-empty string of decimal digits, one digit exactly for ids below ten, with no leading zero |
| Decimal.ParseNatToString | account.py:58 | reading the digits of an id's rendering back gives the id |
| Decimal.NatToStringInjective | account.py:58 | two fiscal-year ids with the same decimal rendering are equal |
| Renumber.DraftWarningKey | account.py:58 | the warning key is `move_renumber_draft_moves` followed by a non-empty run of digits that reads back as the fiscal year's id |
| Renumber.DefaultFirstNumber | account.py:28-33 | the default first number, 1, lies in the field's domain `first_number > 0` |
| Renumber.CollectSequences | account.py:64-67 | the loop over the periods yields the year's sequence plus every period override, each once |
| Renumber.Reset | account.py:69-71 | after `Sequence.write`, every sequence in the set holds the given value; every other sequence keeps its value; no sequence is added |
| Renumber.ToRenumberSelects | account.py:73-80 | the selection holds exactly the table's moves with a number in the fiscal year, each once, in strictly increasing `(date, id)` order |
| Renumber.Drawn | account.py:82-90 | the draws stage one write per selected move, naming that move, and keep the set of counters |
| Renumber.Renumbering | account.py:47-98 | a failure leaves both tables as they were; a success returns the renumber domain; no move gains or loses a field other than `number`; no move or counter appears or disappears |
| Renumber.RenumberingKeepsStoreValid | account.py:47-98 | any run keeps the stored tables well formed and every move resolving to a known sequence |
| Renumber.Database.SetupMove | account.py:15-19 | `number` is added to the modify exclusions, nothing else changes and the store stays as well formed as it was |
| Renumber.Database.SequenceGet | account.py:89 | `get()` returns the counter's current value and advances it by one, keeping a well-formed store well formed |
| Renumber.Database.WriteMoves | account.py:91-92 | the bulk write applies all staged numbers exactly when the posted-move check accepts it, otherwise none, and keeps a well-formed store well formed |
| Renumber.Database.DrawNumbers | account.py:82-90 | the loop's staged writes and counters are the draws `Drawn` over the list, and a well-formed store stays well formed |
| Renumber.Database.StageNumbers | account.py:64-90 | collecting, resetting and drawing leave the staged writes and counters of `Draws` and a well-formed store |
| Renumber.Database.Commit | account.py:91-92 | with nothing staged nothing is written; a refused write restores the saved counters; an accepted one applies the writes; restoring counters with the same keys keeps a well-formed store well formed |
| Renumber.Database.ResetAndRenumber | account.py:64-92 | once the checks have passed, the method's result and tables are those of `Renumbering` |
| Renumber.Database.DoRenumber | account.py:47-98 | the method's result and new tables are those of `Renumbering` on the old tables, and the store stays well formed |
| Ledger.SearchFinds | account.py:53-56 | a search returns exactly the table's moves that match every clause of the domain |
| Ledger.SearchDistinct | account.py:73-76 | a search over moves with distinct ids returns moves with distinct ids |
| Ledger.InsertPermutes | account.py:77-80 | insertion adds exactly the one move |
| Ledger.InsertOrdered | account.py:77-80 | insertion into a strictly ordered list of distinct ids keeps it strictly ordered and distinct |
| Ledger.SortOrdered | account.py:77-80 | the sort is strictly ordered by `(date, id)` and a permutation of its input |
| Ledger.Apply | account.py:87-92 | a written move keeps its id, date, period and state, and takes the written number if there is one |
| Ledger.ApplyWritesEffect | account.py:91-92 | the bulk write keeps the table's length and changes only numbers; a move no write names is unchanged; a named move takes the number of the last write naming it |
| Ledger.WrittenNumberSome | account.py:91-92 | a staged number exists for a move iff some staged write names it |
| Ledger.WrittenNumberLast | account.py:91-92 | of several writes naming one move, the last one decides its number |
| Ledger.WrittenNumberAt | account.py:87-92 | when each move is staged at most once, a staged move gets exactly its staged number |
| Ledger.ModifyRejectedIff | account.py:91-92 | the accounting module refuses the bulk write iff `number` is not exempt and some staged write names a posted move of the table |
| Ledger.SearchApply | account.py:73-76 | when a write does not change which moves match, searching after it equals writing to the search result |
| Ledger.InsertApply | account.py:77-80 | writing numbers commutes with insertion, which does not look at numbers |
| Ledger.SortApply | account.py:77-80 | writing numbers commutes with the `(date, id)` sort |
| Ledger.ApplyWritesTwice | account.py:91-92 | writing the same staged numbers twice is writing them once |
| Ledger.SearchIgnoresNumbers | account.py:53-56 | a domain without a number clause finds as many moves after any write |
| Ledger.ModifyRejectedIgnoresNumbers | account.py:91-92 | the posted-move check depends only on the moves' ids and states |
| Properties.DraftWarningKeyInjective | account.py:58 | two fiscal years have the same warning key iff they are the same year |
| Properties.DraftCheckFailsIff | account.py:53-59 | the draft check stops the run iff the year holds a draft move and its key is not dismissed |
| Properties.DismissalIsPerYear | account.py:58-59 | dismissing one year's warning does not change the draft check of another year |
| Properties.AbortsOnUndismissedDrafts | account.py:53-62 | with a valid start record, the run fails with the year's warning iff the year has a draft move and the key is not dismissed; that failure changes no move and no counter |
| Properties.DismissalUnblocks | account.py:59-62 | once the year's key is dismissed, the run never fails with the draft warning |
| Properties.OverridesIff | account.py:65-67 | a sequence is among the overrides iff some listed period has it as its override |
| Properties.YearSequencesIff | account.py:64-67 | a sequence is reset iff it is the year's own sequence or the override of one of its periods |
| Properties.DrawnClosedForm | account.py:82-90 | each counter advances once per move drawing from it, and the i-th move gets its sequence's start value plus the count of earlier moves drawing from it |
| Properties.DrawnIncreasing | account.py:82-90 | of two moves drawing from one sequence, the earlier draws the smaller number |
| Properties.DrawnCoversRange | account.py:82-90 | every value from a sequence's start value up to its final counter is drawn by some move of that sequence |
| Properties.DrawsDistinct | account.py:82-90 | the staged writes name each move at most once |
| Properties.SuccessApplies | account.py:91-92 | a successful run holds the table with the draws applied and the advanced counters |
| Properties.UntouchedAfterRenumber | account.py:73-92 | after a successful run, a move without a number or outside the fiscal year is unchanged |
| Properties.DrawsFromStartValues | account.py:69-90 | the draws run over the selection from the reset counters, which hold `first_number` for the year's sequences and the old value for the others |
| Properties.NumberAfterRenumber | account.py:77-90 | after a success, the move at position i of the `(date, id)` order holds its sequence's start value plus the number of earlier moves of that sequence |
| Properties.CountersAfterRenumber | account.py:69-90 | after a success, each counter holds its reset value plus the number of moves that drew from it |
| Properties.NumbersIncreaseAfterRenumber | account.py:77-90 | after a success, of two renumbered moves of one sequence, the earlier in `(date, id)` order has the smaller number, so none is repeated |
| Properties.NoGapAfterRenumber | account.py:82-90 | after a success, every value from a sequence's start value below its new counter is the number of a renumbered move of that sequence |
| Properties.WrittenIffSelected | account.py:73-90 | a move is given a number iff it has a number and belongs to the fiscal year |
| Properties.RejectedIff | account.py:91-92 | past the draft check, the run fails with the posted-move error iff `number` is not exempt and the year has a posted move with a number |
| Properties.EmptySelectionWritesNothing | account.py:91-92 | with nothing to renumber, the run succeeds, leaves every move as it was and still resets the counters |
| Properties.ResultDomainSelectsWritten | account.py:94-97 | after a success, a move matches the returned domain iff the run wrote a number to it |
| Properties.SetupPreventsRejection | account.py:18-19 | with `number` exempt, the run never fails with the posted-move error |
| Properties.RelistedAfterRenumber | account.py:94-97 | after a success, listing the year's numbered moves again gives the same moves in the same order, carrying the written numbers |
| Properties.RelistedFromStartValues | account.py:69-97 | the relisted moves are the selection with the draws from the reset counters applied |
| Properties.SingleSequenceSucceeds | account.py:15-19 | in the test's scenario the run succeeds |
| Properties.SingleSequenceNumbering | tests/test_scenario_account_move_renumber.py:88-93 | when every move of the year draws from the year's sequence, the moves in `(date, id)` order hold `first_number`, `first_number + 1`, and so on, and nothing else of them changes |
| Properties.SingleSequenceCounter | account.py:82-90 | in that scenario the sequence's next number is `first_number` plus the number of renumbered moves |
| Properties.ResetAfterRun | account.py:69-71 | when every renumbered move draws from a reset sequence, resetting the counters the run left gives the same table as resetting the old counters |
| Properties.RerunDraws | account.py:64-90 | under that condition, a second run on the first run's tables draws exactly the same numbers |
| Properties.RenumberTwice | account.py:64-97 | under that condition, a second run with the same start record on the tables the first successful run left returns the same result and the same tables |

## Left out

- The wizard's screen flow (`StateView`, the buttons, `StateAction`, `transition_renumber`) is not modelled. It is user-interface scaffolding.
- `Pool().get` and the ORM calls are not modelled as framework calls. The tables are in-memory values: a sequence of moves and a map of counters.
- `move_sequence_used` and the context `date=…, company=…` it reads are computed outside this repository. They are the deterministic parameter `resolve`; the company is not modelled.
- The strict sequence's string formatting (prefix, suffix, padding) is not modelled. Numbers are integers.
- Renumber.Database.SequenceGet: it advances the counter by one. A sequence's own increment setting and its timestamp kinds are defined outside this repository and are not modelled.
- The `gettext` message, the display of `UserWarning`, `rec_name` and the PYSON encoding of the returned domain are not modelled. The returned domain is kept as its clauses.
- `Warning.check` also deletes a one-shot dismissal. That record-keeping is outside this repository; the model only asks whether the key has been dismissed.
- Field validation of the start record is modelled as the two early failures `FirstNumberOutOfDomain` and `FiscalYearNotFound`, checked before anything else. No other constraint of the framework is modelled.
- Of the accounting module's checks on writes, only the posted-move check on `number` is modelled. Uniqueness constraints on move numbers are not.
- The step is modelled as atomic. Concurrency with other transactions is not modelled.
- The test's setup (company, chart of accounts, journals, line amounts) is not modelled. Only its final assertion is stated, as `Properties.SingleSequenceNumbering`.
- Properties.RenumberTwice: it is proved only when every renumbered move draws from a sequence the run resets. A move resolving elsewhere draws from a counter the run advanced, so a second run would give it different numbers. It also gives the second run the same dismissed warnings as the first; the one-shot dismissal that `Warning.check` consumes is not modelled.
- Properties.NoGapAfterRenumber: it is stated for one sequence at a time, from that sequence's start value.
