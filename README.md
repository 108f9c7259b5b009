# Mini Cactpot expected-payout engine

A Dafny model of the solver for the Final Fantasy XIV Mini Cactpot
scratch-off ticket. The ticket is a 3x3 grid with positions `a`..`i`. The
player has revealed four of its digits. The solver completes each of the
eight lines (three rows, three columns, two diagonals) in every possible way
from the digits still hidden. It looks the sum of each completion up in the
fixed prize table and takes the floor mean of those prizes as the line's
expected payout. Then it recommends every line tied at the maximum.

The same `Calculate` class appears three times: in the first command-line
script (`mini_cactpot.py`), in the second one (`mini_cactpot_script.py`) and
in the web back end (`app/mini_cactpot.py`). The copies differ in how the
pool of hidden digits and the lines reach `lists_combinations` and
`lines_combinations` (parameters in the first script, `nums_left` and
`self.lines()` in the others), and in what `recommendation` does: the
first script prints a separator line, both scripts return a formatted
string, and the web back end returns a list headed by a cell-id map. One model covers all three, and the rows
below cite each copy.

Modules:

- `Combinatorics` is the hand-written `combinations` generator. It is a
  method over an index array with the source's `while True` loop. It is
  proved equal to a recursive, lexicographically ordered specification
  `Choose`, and the count, order and no-duplicate properties are proved
  about that specification.
- `Board` holds the ticket, which is a map from letter to
  `Revealed(digit) | Unrevealed`. The source's string marker becomes
  `Unrevealed`. This module also holds the web `fill_ticket`, the
  hidden-digit pool `nums_left`, and the command-line `Game` class whose
  `ticket` dict is updated in place.
- `Payout` holds the prize table, Python's `sum` and `max`, and the floor
  mean `sum // len`. It also defines the smallest value, which the source
  never computes; it states the lower bound the floor mean is proved to
  respect.
- `Cactpot` holds `lines`, `lists_combinations`, `lines_combinations`,
  `lines_payout`, both forms of `recommendation`, and the web `calculate`.
  It also holds the proof that on a valid ticket no line divides by zero
  or misses the prize table. A Python dict keyed 1..8 is a sequence
  indexed 0..7 here: key `l` sits at index `l - 1`.

## Model

| member | source | states |
|---|---|---|
| Combinatorics.Combinations | mini_cactpot.py:93-113 | the tuples the generator yields, in order, are exactly `Choose(pool, r)`; the copies at mini_cactpot_script.py:104-124 and app/mini_cactpot.py:46-69 are the same code |
| Combinatorics.RightmostMovable | mini_cactpot.py:105-109 | the reversed scan stops at the rightmost index below its maximum `i + n - r`, or reports -1 (the `else: return`) when every index is at its maximum |
| Combinatorics.AdvanceAt | mini_cactpot.py:110-112 | after the update, the indices are the old ones with position `i` bumped and every later position one more than the one before it |
| Combinatorics.NextCombo | mini_cactpot_script.py:115-124 | on the k-th index combination, the scan plus the update produce the (k+1)-th, and the scan reports -1 exactly at the last combination |
| Combinatorics.FirstCombo | mini_cactpot.py:102-103 | when r <= n, the first combination is `list(range(r))` |
| Combinatorics.IndexCombosBounds | mini_cactpot_script.py:113-124 | every index combination has length r and keeps `j <= indices[j] <= j + n - r` |
| Combinatorics.IndexCombosIncreasing | mini_cactpot_script.py:113-124 | every index combination is strictly increasing |
| Combinatorics.IndexCombosOrdered | mini_cactpot.py:102-113 | any earlier index combination is lexicographically smaller than any later one, so no combination is yielded twice |
| Combinatorics.IndexCombosCount | mini_cactpot.py:102-113 | there are C(n, r) index combinations |
| Combinatorics.Choose | app/mini_cactpot.py:54-69 | yields C(n, r) tuples, each of length r and made of pool elements |
| Combinatorics.ChooseTooMany | mini_cactpot.py:100-101 | when r > n nothing is yielded |
| Combinatorics.ChooseNone | mini_cactpot.py:102-109 | when r = 0 exactly one empty tuple is yielded |
| Combinatorics.ChooseSorted | mini_cactpot_script.py:113-124 | from an ascending pool, every tuple is strictly increasing (so its elements are pairwise distinct), and each tuple is lexicographically below the next |
| Combinatorics.BinomialBeyond | mini_cactpot.py:100-101 | C(n, r) = 0 when r > n |
| Combinatorics.BinomialPositive | app/mini_cactpot.py:56-59 | C(n, r) >= 1 when r <= n, so at least one tuple is yielded |
| Combinatorics.BinomialOfFive | mini_cactpot_script.py:141-145 | C(5, k) is 1, 5, 10, 10 for k = 0..3 |
| Board.BlankTicket | mini_cactpot.py:176 | the starting ticket has exactly the keys a..i, each holding its own marker |
| Board.CellOf | app/mini_cactpot.py:156 | a number becomes the marker exactly when it is 0, and otherwise that digit |
| Board.FillTicket | app/mini_cactpot.py:147-158 | `letters[i]` maps to `numbers[i]` when that is nonzero and to the marker otherwise; the keys are the first `min(9, len(numbers))` letters, as `zip` gives |
| Board.InputsOfFillTicket | app/mini_cactpot.py:153-156 | reading a filled ticket back as nine numbers (0 for a marker) gives the numbers it was filled from |
| Board.ValidInputsGiveValidTicket | app/application.py:35-42 | nine inputs that pass the web form's check (five zeros, nonzero values unique) fill a ticket with all nine keys and four distinct revealed digits |
| Board.Count | app/application.py:35-42 | Python's `list.count`: how often a value occurs in the inputs; `Cactpot.CountedOnce` proves that a value found at two indices is counted at least twice |
| Board.ValidInputs | app/application.py:35-42 | the form's acceptance rule: exactly five inputs are 0 and every nonzero input occurs once, plus the assumed nine inputs in 0..9; `Board.ValidInputsGiveValidTicket` proves what it guarantees about the filled ticket |
| Board.NumsLeft | mini_cactpot_script.py:86 | `nums_left` (and `availables`, mini_cactpot.py:188): the pool from 1 on, so by `Board.NumsFrom`'s contract strictly ascending and holding a digit exactly when it lies in 1..9 and no cell shows it; `Board.NumsLeftSize` gives its size |
| Board.NumsFrom | mini_cactpot_script.py:86 | the pool is strictly ascending and holds exactly the digits 1..9 that no cell shows |
| Board.NumsLeftSize | app/mini_cactpot.py:26 | the pool has 9 minus the number of distinct revealed digits |
| Board.ValidTicketPool | mini_cactpot.py:188 | on a valid ticket, four digits are revealed and the pool is ascending and has five digits in 1..9, none of them revealed (also `nums_left`, mini_cactpot_script.py:86) |
| Board.Game.constructor | mini_cactpot.py:29-30 | a game starts from the given ticket |
| Board.Game.FillNumbers | mini_cactpot.py:59-67 | each key of `numbers` that is on the ticket takes its new value; every other key keeps its old value; the key set is unchanged; the ticket is returned |
| Board.Game.FillTicket | mini_cactpot_script.py:74-77 | the update loop changes only keys already on the ticket, adds none, and leaves unmentioned keys untouched |
| Payout.PayoutTableDomain | mini_cactpot_script.py:152-154 | the prize table is keyed by exactly the sums 6..24, and every prize is positive |
| Payout.Sum | mini_cactpot.py:148 | Python's `sum` (also at mini_cactpot.py:152); `Payout.SumOfThree` proves a three-cell sum is the three digits added, and `Payout.SumBounds` bounds it |
| Payout.Mean | mini_cactpot.py:152 | `sum(...) // len(...)`: the floor of the exact average, as `Payout.MeanIsFloor` states, lying between the smallest and largest value, as `Payout.MeanBounds` states |
| Payout.Highest | mini_cactpot.py:161 | `max` is one of the values and no value exceeds it |
| Payout.Lowest | app/mini_cactpot.py:99-110 | the smallest of the values (one of them, and none is below it), used to state the lower bound of the floor mean; the source itself never calls `min` |
| Payout.MeanIsFloor | mini_cactpot_script.py:163 | `sum // len` is the floor of the exact average: `mean * len <= sum < (mean + 1) * len` |
| Payout.MeanBounds | app/mini_cactpot.py:110 | the floor mean lies between the smallest and the largest value |
| Payout.SumBounds | app/mini_cactpot.py:110 | a sum of values within [lo, hi] lies within [len * lo, len * hi] |
| Payout.MeanOfOne | mini_cactpot.py:152 | the floor mean of one value is that value |
| Cactpot.LinePositionsGeometry | mini_cactpot.py:83-90 | the eight lines are rows g-h-i, d-e-f, a-b-c, diagonal a-e-i, columns a-d-g, b-e-h, c-f-i and diagonal c-e-g, and no line visits a cell twice |
| Cactpot.Lines | mini_cactpot_script.py:88-102 | there are 8 lines of 3 cells, and line `l` holds the ticket's cells at its three grid positions; app/mini_cactpot.py:28-44 builds the same table |
| Cactpot.LinesIdMatchesLines | app/mini_cactpot.py:121-130 | on the ticket numbered 1..9 in reading order, `lines()` shows exactly the cell ids that `lines_id` lists for each line |
| Cactpot.MarkerIndices | mini_cactpot.py:119 | the `indices` comprehension: as many positions as the line has markers; `Cactpot.MarkerIndicesSpec` and `Cactpot.MarkerIndicesDistinct` state that they are exactly the marker positions, in order, without repetition |
| Cactpot.Filled | mini_cactpot.py:125 | the tuple yielded for one combination: as long as the line; `Cactpot.CompletionShape` states that it keeps the revealed digits and puts the combination at the markers in order |
| Cactpot.Digits | mini_cactpot.py:125 | `tuple(line)` once no marker is left: turning the digits back into cells gives the line, and `Cactpot.DigitsOfCells` proves the other direction |
| Cactpot.Prizes | mini_cactpot.py:152 | `[payout[value] for value in ...]`: one prize per completion; `Cactpot.LinePayoutBounds` bounds the line payout by the smallest and largest of them |
| Cactpot.LinePayout | mini_cactpot.py:152 | a line's expected payout: the floor of the exact average prize, between the smallest and the largest prize, as `Cactpot.LinePayoutBounds` states; exactly the prize when there is one completion, as `Cactpot.SingleCompletion` states |
| Cactpot.MarkerIndicesSpec | mini_cactpot.py:119 | the marker positions are exactly the unrevealed cells, in order |
| Cactpot.Completions | mini_cactpot_script.py:126-135 | a line with m markers has C(len(pool), m) completions |
| Cactpot.CompletionShape | mini_cactpot.py:119-125 | each completion equals the line at every revealed cell and puts the pool digits at strictly increasing pool indices, in order, at the markers |
| Cactpot.CompletionsOrdered | app/mini_cactpot.py:71-80 | from an ascending pool, no completion is yielded twice: any two completions at different positions differ |
| Cactpot.WriteCombo | mini_cactpot.py:123-124 | the zip loop writes `combo[i]` at the i-th marker position and changes no other cell |
| Cactpot.ListsCombinations | mini_cactpot.py:115-125 | the snapshots taken are exactly `Completions(line, pool)`; the array ends as the last completion, or unchanged when there is none; the variants at mini_cactpot_script.py:126-135 and app/mini_cactpot.py:71-80 differ only in taking the pool from `nums_left` |
| Cactpot.LinesCombinations | mini_cactpot.py:127-134 | every line gets exactly its list of completions, in line order; likewise mini_cactpot_script.py:137-145 and app/mini_cactpot.py:82-90 |
| Cactpot.LinesPayout | mini_cactpot.py:136-153 | each line's result is the floor mean of the prizes of its completions' sums; likewise mini_cactpot_script.py:147-164 and app/mini_cactpot.py:92-112 |
| Cactpot.LinePayoutBounds | app/mini_cactpot.py:99-110 | a line's payout lies between the smallest and largest prize of its completions, and is the floor of their exact average |
| Cactpot.FullyRevealedLine | mini_cactpot.py:119-125 | a line with no marker has exactly one completion, its own digits |
| Cactpot.SingleCompletion | mini_cactpot.py:152 | a line with one completion pays exactly that completion's prize |
| Cactpot.FullyRevealedPayout | mini_cactpot.py:147-152 | on a valid ticket, a fully revealed line pays exactly `payout[sum]` |
| Cactpot.ValidLineCount | mini_cactpot_script.py:141-145 | on a valid ticket a line with k markers (k <= 3) gets 1, 5, 10 or 10 completions |
| Cactpot.CompletionCellsDiffer | mini_cactpot_script.py:130-135 | on a valid ticket, any two cells of a completion differ |
| Cactpot.ValidCompletion | mini_cactpot_script.py:130-135 | on a valid ticket every completion holds three pairwise distinct digits 1..9, so its sum is in 6..24 |
| Cactpot.ValidLinePayable | mini_cactpot.py:141-152 | on a valid ticket every line has at least one completion and every completion's sum is a key of the prize table: no ZeroDivisionError and no KeyError |
| Cactpot.Recommend | mini_cactpot.py:161-162 | `recommend` is nonempty and strictly increasing, and holds a key exactly when that line's payout equals the maximum: no line outside it has the highest payout, and every line in it does (also mini_cactpot_script.py:171-172) |
| Cactpot.Recommendation | mini_cactpot.py:163-166 | one message per recommended line, in key order, each with that line and the highest payout |
| Cactpot.AppRecommendation | app/mini_cactpot.py:114-144 | the first part maps exactly the max-payout lines to their `lines_id` cell ids, and the rest is one message per recommended line in key order |
| Cactpot.Calculate | app/mini_cactpot.py:161-183 | on inputs that pass the web form's check, `payouts` has the 8 lines' expected payouts and `suggestion` is the recommendation for them; both are determined by the inputs |
| Cactpot.DocExample | mini_cactpot.py:7-9 | on the board a=1, b=3, e=9, i=7, line 4 (a, e, i) is fully revealed, sums to 17 and pays exactly 180 |

## Left out

- Terminal output: the `Color` constants, `Game.new_ticket`, `Game.current_ticket`, and the separator line the first script's `recommendation` prints (mini_cactpot.py:160).
- Interactive input: `Game.user_numbers`, the `input()` call in the second script's `fill_ticket`, and the `cactpot()` and `main()` loops. Their retry on a `ValueError` is left out too. `Board.Game.FillTicket` takes the numbers the player typed as a parameter.
- `app/application.py` (Flask routing, templates, form parsing) is not part of this model. Its acceptance rule (exactly five zeros, nonzero values unique) is the precondition `ValidInputs` of `Cactpot.Calculate`. That precondition also assumes that there are exactly nine inputs and that every input lies in 0..9; the form checks neither.
- Cactpot.Recommendation: a message is reduced to the pair (line, payout); the formatted text and colour codes are left out.
- Generators are modelled as the finite sequence they yield; laziness and interleaving with the consumer are not captured.
- Cactpot.LinesPayout: a line with no completions (ZeroDivisionError) or a sum missing from the table (KeyError) is a violated precondition (`Payable`), not modelled behaviour. `Cactpot.ValidLinePayable` proves that neither happens on a valid ticket.
- Cactpot.Lines: a ticket missing one of the letters (KeyError) is a violated precondition.
- Cactpot.LinesCombinations: each line's completions are computed on a fresh array copy of the line. The source overwrites the lists inside the dict that `lines()` returned, so after the call the caller's lists hold each line's last completion. The model does not keep that aliasing.
- A marker does not carry its letter. The source only ever asks whether a cell holds a string.
- `sum_payout` in `lines_payout` first holds lists of sums and is then rewritten to hold ints. The model uses two sequences, one per stage.
- Python dicts keyed 1..8 are sequences indexed 0..7. Key order is insertion order 1..8, which matches index order.
- The source scores two diagonals (lines 4 and 8: a-e-i and c-e-g, mini_cactpot.py:86,90). It completes each line with combinations of the pool, not permutations. That is harmless because a prize depends only on the sum.
- Cactpot.LinesCombinations: the first script's `lines_combinations` takes the lines dict and the pool as parameters (mini_cactpot.py:127); the other copies read `self.lines()` and `nums_left`. The model takes both as parameters, which covers all three.
