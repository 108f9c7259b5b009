/** The expected-payout engine (the `Calculate` class): the eight lines of a
    ticket, every way of completing each line from the pool of hidden
    digits, each line's floor-mean payout, and the recommended lines. Lines
    keyed 1..8 in the source sit at indices 0..7 here. */
module Cactpot {
  import opened Board
  import opened Payout
  import Combinatorics

  /** The letters of each line: rows g-h-i, d-e-f, a-b-c, the diagonal a-e-i,
      columns a-d-g, b-e-h, c-f-i, and the diagonal c-e-g. */
  const LinePositions: seq<seq<char>> := [
    ['g', 'h', 'i'], ['d', 'e', 'f'], ['a', 'b', 'c'], ['a', 'e', 'i'],
    ['a', 'd', 'g'], ['b', 'e', 'h'], ['c', 'f', 'i'], ['c', 'e', 'g']]

  /** Where the j-th cell of line l sits in the grid, counted in reading
      order from 0 (a) to 8 (i): three rows from the bottom up, the falling
      diagonal, three columns from the left, the rising diagonal. */
  function GridIndex(l: int, j: int): (g: int)
    requires 0 <= l < 8 && 0 <= j < 3
  {
    if l < 3 then 3 * (2 - l) + j
    else if l == 3 then 4 * j
    else if l < 7 then 3 * j + (l - 4)
    else 2 + 2 * j
  }

  /** The position table is the grid geometry, and no line visits a cell
      twice. */
  lemma LinePositionsGeometry()
    ensures |LinePositions| == 8
    ensures forall l :: 0 <= l < 8 ==> |LinePositions[l]| == 3
    ensures forall l, j :: 0 <= l < 8 && 0 <= j < 3 ==>
      0 <= GridIndex(l, j) < 9 && LinePositions[l][j] == Letters[GridIndex(l, j)]
    ensures forall l, j, j' :: 0 <= l < 8 && 0 <= j < j' < 3 ==> GridIndex(l, j) != GridIndex(l, j')
  {
  }

  /** `lines`: the cells of each of the eight lines. */
  function Lines(t: Ticket): (lines: seq<seq<Cell>>)
    requires forall p :: p in Letters ==> p in t
    ensures |lines| == 8
    ensures forall l :: 0 <= l < 8 ==> |lines[l]| == 3
    ensures forall l, j :: 0 <= l < 8 && 0 <= j < 3 ==>
      0 <= GridIndex(l, j) < 9 && lines[l][j] == t[Letters[GridIndex(l, j)]]
  {
    LinePositionsGeometry();
    seq(8, l requires 0 <= l < 8 =>
      seq(3, j requires 0 <= j < 3 => t[LinePositions[l][j]]))
  }

  /** `lines_id` from the web back end: the 1-based grid cell of each
      position of each line. */
  const LinesId: seq<seq<int>> := [
    [7, 8, 9], [4, 5, 6], [1, 2, 3], [1, 5, 9],
    [1, 4, 7], [2, 5, 8], [3, 6, 9], [3, 5, 7]]

  /** On the ticket numbered 1..9 in reading order, `lines` shows exactly the
      cell ids `lines_id` lists. */
  lemma LinesIdMatchesLines()
    ensures forall i :: 0 <= i < 9 ==> Letters[i] in FillTicket([1, 2, 3, 4, 5, 6, 7, 8, 9])
    ensures forall l, j :: 0 <= l < 8 && 0 <= j < 3 ==>
      Lines(FillTicket([1, 2, 3, 4, 5, 6, 7, 8, 9]))[l][j] == Revealed(LinesId[l][j])
  {
    var t := FillTicket([1, 2, 3, 4, 5, 6, 7, 8, 9]);
    InputsOfFillTicket([1, 2, 3, 4, 5, 6, 7, 8, 9]);
    assert forall i :: 0 <= i < 9 ==> t[Letters[i]] == Revealed(i + 1);
    LinesIdGeometry();
  }

  lemma LinesIdGeometry()
    ensures forall l, j :: 0 <= l < 8 && 0 <= j < 3 ==> LinesId[l][j] == GridIndex(l, j) + 1
  {
  }

  /** Number of unrevealed cells in a line. */
  function CountMarkers(line: seq<Cell>): (m: nat)
    ensures m <= |line|
  {
    if |line| == 0 then 0
    else CountMarkers(line[..|line| - 1]) + (if line[|line| - 1].Unrevealed? then 1 else 0)
  }

  /** `[i for i, x in enumerate(line) if isinstance(x, str)]`: the positions
      of the markers, in order. */
  function MarkerIndices(line: seq<Cell>): (idx: seq<int>)
    ensures |idx| == CountMarkers(line)
  {
    if |line| == 0 then []
    else MarkerIndices(line[..|line| - 1]) + (if line[|line| - 1].Unrevealed? then [|line| - 1] else [])
  }

  /** The j-th marker position holds a marker with exactly j markers before
      it, and every marker is among them. */
  lemma {:induction false} MarkerIndicesSpec(line: seq<Cell>)
    ensures forall j :: 0 <= j < |MarkerIndices(line)| ==>
      var p := MarkerIndices(line)[j];
      0 <= p < |line| && line[p].Unrevealed? && CountMarkers(line[..p]) == j
    ensures forall p :: 0 <= p < |line| && line[p].Unrevealed? ==>
      CountMarkers(line[..p]) < |MarkerIndices(line)| && MarkerIndices(line)[CountMarkers(line[..p])] == p
  {
    if |line| > 0 {
      var front := line[..|line| - 1];
      MarkerIndicesSpec(front);
      assert forall p :: 0 <= p < |front| ==> front[..p] == line[..p];
      assert line[..|line| - 1] == front;
    }
  }

  /** The line with its j-th marker replaced by combo[j]: the tuple
      `lists_combinations` yields for one combination. */
  function Filled(line: seq<Cell>, combo: seq<int>): (c: seq<int>)
    requires |combo| == CountMarkers(line)
    ensures |c| == |line|
  {
    MarkerIndicesSpec(line);
    seq(|line|, p requires 0 <= p < |line| =>
      if line[p].Revealed? then line[p].digit else combo[CountMarkers(line[..p])])
  }

  /** Every completion of a line from the pool, in the order the source
      yields them. */
  function Completions(line: seq<Cell>, pool: seq<int>): (cs: seq<seq<int>>)
    ensures |cs| == Combinatorics.Binomial(|pool|, CountMarkers(line))
  {
    var combos := Combinatorics.Choose(pool, CountMarkers(line));
    seq(|combos|, k requires 0 <= k < |combos| => Filled(line, combos[k]))
  }

  /** Each completion keeps the line's revealed digits where they are and
      puts the pool digits at pool indices idx[0] < idx[1] < ... at the
      markers, in order. */
  lemma CompletionShape(line: seq<Cell>, pool: seq<int>, k: nat)
    requires k < |Completions(line, pool)|
    ensures |Completions(line, pool)[k]| == |line|
    ensures forall p :: 0 <= p < |line| && line[p].Revealed? ==>
      Completions(line, pool)[k][p] == line[p].digit
    ensures
      var m := CountMarkers(line);
      var idx := Combinatorics.IndexCombos(0, |pool|, m)[k];
      && Combinatorics.IsCombo(idx, 0, |pool|, m)
      && Combinatorics.Increasing(idx)
      && forall j :: 0 <= j < m ==>
        0 <= MarkerIndices(line)[j] < |line| &&
        Completions(line, pool)[k][MarkerIndices(line)[j]] == pool[idx[j]]
  {
    var m := CountMarkers(line);
    MarkerIndicesSpec(line);
    Combinatorics.IndexCombosCount(0, |pool|, m);
    Combinatorics.ChooseAt(pool, m, k);
    Combinatorics.IndexCombosIncreasing(0, |pool|, m, k);
  }

  /** From an ascending pool no completion is listed twice: any two of them
      differ at the first marker where their combinations differ. */
  lemma CompletionsOrdered(line: seq<Cell>, pool: seq<int>, j: nat, k: nat)
    requires Combinatorics.Increasing(pool)
    requires j < k < |Completions(line, pool)|
    ensures Completions(line, pool)[j] != Completions(line, pool)[k]
  {
    var m := CountMarkers(line);
    var idx := Combinatorics.IndexCombos(0, |pool|, m);
    Combinatorics.ChooseAt(pool, m, j);
    Combinatorics.ChooseAt(pool, m, k);
    Combinatorics.IndexCombosOrdered(|pool|, m, j, k);
    Combinatorics.PickLex(pool, idx[j], idx[k]);
    var combos := Combinatorics.Choose(pool, m);
    var a, b := combos[j], combos[k];
    var i :| 0 <= i < |a| && 0 <= i < |b| && a[..i] == b[..i] && a[i] < b[i];
    MarkerIndicesSpec(line);
    var p := MarkerIndices(line)[i];
    assert Completions(line, pool)[j][p] == a[i];
    assert Completions(line, pool)[k][p] == b[i];
  }

  /** The cells that hold the digits of a completed line. */
  function Cells(digits: seq<int>): (cells: seq<Cell>)
    ensures |cells| == |digits|
    ensures forall p :: 0 <= p < |digits| ==> cells[p] == Revealed(digits[p])
  {
    seq(|digits|, p requires 0 <= p < |digits| => Revealed(digits[p]))
  }

  /** `tuple(line)` once no marker is left. */
  function Digits(cells: seq<Cell>): (digits: seq<int>)
    requires forall p :: 0 <= p < |cells| ==> cells[p].Revealed?
    ensures Cells(digits) == cells
  {
    seq(|cells|, p requires 0 <= p < |cells| => cells[p].digit)
  }

  /** The marker positions are pairwise distinct. */
  lemma MarkerIndicesDistinct(line: seq<Cell>)
    ensures forall i :: 0 <= i < |MarkerIndices(line)| ==> 0 <= MarkerIndices(line)[i] < |line|
    ensures forall i, j :: 0 <= i < j < |MarkerIndices(line)| ==>
      MarkerIndices(line)[i] != MarkerIndices(line)[j]
  {
    MarkerIndicesSpec(line);
  }

  /** Reading the digits back from their cells gives the digits. */
  lemma DigitsOfCells(digits: seq<int>)
    ensures Digits(Cells(digits)) == digits
  {
  }

  /** Once every marker has been overwritten with its combo digit, and the
      revealed cells are as in the line, the array holds the completion for
      that combo. */
  lemma FilledInPlace(cells: seq<Cell>, line: seq<Cell>, indices: seq<int>, combo: seq<int>)
    requires KeepsRevealed(cells, line) && indices == MarkerIndices(line) && |combo| == |indices|
    requires forall i :: 0 <= i < |indices| ==> 0 <= indices[i] < |cells| && cells[indices[i]] == Revealed(combo[i])
    ensures cells == Cells(Filled(line, combo))
  {
    MarkerIndicesSpec(line);
    forall p | 0 <= p < |line|
      ensures cells[p] == Cells(Filled(line, combo))[p]
    {
      if line[p].Unrevealed? {
        var i := CountMarkers(line[..p]);
        assert indices[i] == p;
      }
    }
  }

  /** The cells agree with the line at every revealed position. */
  predicate KeepsRevealed(cells: seq<Cell>, line: seq<Cell>)
  {
    |cells| == |line| && forall p :: 0 <= p < |line| && line[p].Revealed? ==> cells[p] == line[p]
  }

  /** Revealed cells are never among the positions overwritten. */
  lemma RevealedKept(before: seq<Cell>, after: seq<Cell>, line: seq<Cell>, indices: seq<int>)
    requires KeepsRevealed(before, line) && |after| == |before| && indices == MarkerIndices(line)
    requires forall p :: 0 <= p < |after| && p !in indices ==> after[p] == before[p]
    ensures KeepsRevealed(after, line)
  {
    MarkerIndicesSpec(line);
  }

  lemma CompletionAt(line: seq<Cell>, pool: seq<int>, k: nat, completions: seq<seq<int>>)
    requires k < |Combinatorics.Choose(pool, CountMarkers(line))|
    requires completions == Completions(line, pool)[..k]
    ensures completions + [Filled(line, Combinatorics.Choose(pool, CountMarkers(line))[k])]
      == Completions(line, pool)[..k + 1]
  {
  }

  /** The inner loop of `lists_combinations`: `line[index] = char` for each
      index and char zipped together. */
  method WriteCombo(line: array<Cell>, indices: seq<int>, combo: seq<int>)
    requires |combo| == |indices|
    requires forall i :: 0 <= i < |indices| ==> 0 <= indices[i] < line.Length
    requires forall i, j :: 0 <= i < j < |indices| ==> indices[i] != indices[j]
    modifies line
    ensures forall p :: 0 <= p < line.Length && p !in indices ==> line[p] == old(line[p])
    ensures forall i :: 0 <= i < |indices| ==> line[indices[i]] == Revealed(combo[i])
  {
    for j := 0 to |indices|
      invariant forall p :: 0 <= p < line.Length && p !in indices ==> line[p] == old(line[p])
      invariant forall i :: 0 <= i < j ==> line[indices[i]] == Revealed(combo[i])
    {
      line[indices[j]] := Revealed(combo[j]);
    }
  }

  /** `lists_combinations`: writes each combination of the pool over the
      markers of the line in place, and collects a snapshot of the line
      after each write. */
  method ListsCombinations(line: array<Cell>, pool: seq<int>) returns (completions: seq<seq<int>>)
    modifies line
    ensures completions == Completions(old(line[..]), pool)
    ensures |completions| == 0 ==> line[..] == old(line[..])
    ensures |completions| > 0 ==> line[..] == Cells(completions[|completions| - 1])
  {
    ghost var original := line[..];
    var indices := MarkerIndices(line[..]);
    MarkerIndicesDistinct(original);
    var combos := Combinatorics.Combinations(pool, |indices|);
    completions := [];
    var k := 0;
    while k < |combos|
      invariant 0 <= k <= |combos|
      invariant completions == Completions(original, pool)[..k]
      invariant KeepsRevealed(line[..], original)
      invariant k == 0 ==> line[..] == original
      invariant k > 0 ==> line[..] == Cells(completions[k - 1])
    {
      ghost var before := line[..];
      WriteCombo(line, indices, combos[k]);
      RevealedKept(before, line[..], original, indices);
      FilledInPlace(line[..], original, indices, combos[k]);
      CompletionAt(original, pool, k, completions);
      DigitsOfCells(Filled(original, combos[k]));
      completions := completions + [Digits(line[..])];
      k := k + 1;
    }
  }

  /** `lines_combinations`: the completions of every line, each worked out
      on a fresh copy of the line. */
  method LinesCombinations(lines: seq<seq<Cell>>, pool: seq<int>) returns (combos: seq<seq<seq<int>>>)
    ensures |combos| == |lines|
    ensures forall l :: 0 <= l < |lines| ==> combos[l] == Completions(lines[l], pool)
  {
    combos := [];
    for l := 0 to |lines|
      invariant |combos| == l
      invariant forall i :: 0 <= i < l ==> combos[i] == Completions(lines[i], pool)
    {
      var cells := new Cell[|lines[l]|](p requires 0 <= p < |lines[l]| => lines[l][p]);
      assert cells[..] == lines[l];
      var completions := ListsCombinations(cells, pool);
      combos := combos + [completions];
    }
  }

  /** At least one completion, and every completion's sum is a key of the
      payout table: what `lines_payout` needs to avoid a ZeroDivisionError
      or a KeyError. */
  predicate Payable(completions: seq<seq<int>>)
  {
    |completions| > 0 && forall k :: 0 <= k < |completions| ==> Sum(completions[k]) in PayoutTable
  }

  /** `[payout[value] for value in sums]`: the prize of each completion. */
  function Prizes(completions: seq<seq<int>>): (prizes: seq<int>)
    requires Payable(completions)
    ensures |prizes| == |completions|
  {
    seq(|completions|, k requires 0 <= k < |completions| => PayoutTable[Sum(completions[k])])
  }

  /** A line's expected payout: the floor mean of its completions' prizes. */
  function LinePayout(completions: seq<seq<int>>): int
    requires Payable(completions)
  {
    Mean(Prizes(completions))
  }

  /** The expected payout is the floor of the exact average prize, and lies
      between the smallest and the largest prize. */
  lemma LinePayoutBounds(completions: seq<seq<int>>)
    requires Payable(completions)
    ensures Lowest(Prizes(completions)) <= LinePayout(completions) <= Highest(Prizes(completions))
    ensures LinePayout(completions) * |completions| <= Sum(Prizes(completions))
      < (LinePayout(completions) + 1) * |completions|
  {
    MeanBounds(Prizes(completions));
    MeanIsFloor(Prizes(completions));
  }

  /** `lines_payout`: a first loop lists the sum of every completion of
      every line, a second replaces each list by the floor mean of the
      prizes of its sums. */
  method LinesPayout(combos: seq<seq<seq<int>>>) returns (payouts: seq<int>)
    requires forall l :: 0 <= l < |combos| ==> Payable(combos[l])
    ensures |payouts| == |combos|
    ensures forall l :: 0 <= l < |combos| ==> payouts[l] == LinePayout(combos[l])
  {
    var sumPayout: seq<seq<int>> := [];
    for l := 0 to |combos|
      invariant |sumPayout| == l
      invariant forall i :: 0 <= i < l ==> |sumPayout[i]| == |combos[i]|
      invariant forall i, k :: 0 <= i < l && 0 <= k < |combos[i]| ==> sumPayout[i][k] == Sum(combos[i][k])
    {
      var sums := seq(|combos[l]|, k requires 0 <= k < |combos[l]| => Sum(combos[l][k]));
      sumPayout := sumPayout + [sums];
    }
    payouts := [];
    for l := 0 to |sumPayout|
      invariant |payouts| == l
      invariant forall i :: 0 <= i < l ==> payouts[i] == LinePayout(combos[i])
    {
      var values := sumPayout[l];
      var prizes := seq(|values|, k requires 0 <= k < |values| && values[k] in PayoutTable => PayoutTable[values[k]]);
      assert prizes == Prizes(combos[l]);
      payouts := payouts + [Sum(prizes) / |values|];
    }
  }

  /** A recommendation message, reduced to the line and its payout. */
  datatype Message = Message(line: int, payout: int)

  /** The keys i+1 of the payouts from index i on that equal highest. */
  function RecommendFrom(payouts: seq<int>, highest: int, i: nat): (rec: seq<int>)
    requires i <= |payouts|
    ensures forall x :: 0 <= x < |rec| ==> i < rec[x] <= |payouts|
    ensures forall x, y :: 0 <= x < y < |rec| ==> rec[x] < rec[y]
    ensures forall line :: line in rec <==> i < line <= |payouts| && payouts[line - 1] == highest
    decreases |payouts| - i
  {
    if i == |payouts| then []
    else (if payouts[i] == highest then [i + 1] else []) + RecommendFrom(payouts, highest, i + 1)
  }

  /** `recommend`: the keys, in order, of every line whose payout equals the
      maximum. */
  function Recommend(payouts: seq<int>): (rec: seq<int>)
    requires |payouts| > 0
    ensures |rec| > 0
    ensures forall x, y :: 0 <= x < y < |rec| ==> rec[x] < rec[y]
    ensures forall line :: line in rec <==> 1 <= line <= |payouts| && payouts[line - 1] == Highest(payouts)
  {
    var highest := Highest(payouts);
    var rec := RecommendFrom(payouts, highest, 0);
    var i :| 0 <= i < |payouts| && payouts[i] == highest;
    assert i + 1 in rec;
    rec
  }

  /** The command-line `recommendation`: one message per recommended line. */
  function Recommendation(payouts: seq<int>): (messages: seq<Message>)
    requires |payouts| > 0
    ensures |messages| == |Recommend(payouts)|
    ensures forall x :: 0 <= x < |messages| ==>
      messages[x].line == Recommend(payouts)[x] && messages[x].payout == Highest(payouts)
  {
    var rec := Recommend(payouts);
    assert forall x :: 0 <= x < |rec| ==> rec[x] in rec;
    seq(|rec|, x requires 0 <= x < |rec| => Message(rec[x], payouts[rec[x] - 1]))
  }

  /** The web back end's suggestion: the cell ids of the best lines, then
      one message per best line. */
  datatype Suggestion = Suggestion(best: map<int, seq<int>>, messages: seq<Message>)

  /** The web back end's `recommendation`. */
  function AppRecommendation(payouts: seq<int>): (s: Suggestion)
    requires 0 < |payouts| <= 8
    ensures forall line :: line in s.best <==> line in Recommend(payouts)
    ensures forall line :: line in s.best ==> 1 <= line <= 8 && s.best[line] == LinesId[line - 1]
    ensures s.messages == Recommendation(payouts)
  {
    var rec := Recommend(payouts);
    Suggestion(map line | line in rec :: LinesId[line - 1], Recommendation(payouts))
  }

  /** What `calculate` returns: the payout of each line and the suggestion. */
  datatype Results = Results(payouts: seq<int>, suggestion: Suggestion)

  /** A line with no marker has one completion, the line itself. */
  lemma FullyRevealedLine(line: seq<Cell>, pool: seq<int>)
    requires CountMarkers(line) == 0
    ensures forall p :: 0 <= p < |line| ==> line[p].Revealed?
    ensures Completions(line, pool) == [Digits(line)]
  {
    MarkerIndicesSpec(line);
    Combinatorics.ChooseNone(pool);
    assert Filled(line, []) == Digits(line);
  }

  /** A line with a single completion pays exactly that completion's prize. */
  lemma SingleCompletion(c: seq<int>)
    requires Sum(c) in PayoutTable
    ensures Payable([c])
    ensures LinePayout([c]) == PayoutTable[Sum(c)]
  {
    assert Prizes([c]) == [PayoutTable[Sum(c)]];
    MeanOfOne(PayoutTable[Sum(c)]);
  }

  /** A value counted once sits at one index only. */
  lemma CountedOnce(s: seq<int>, i: nat, j: nat)
    requires i < j < |s| && s[i] == s[j]
    ensures Count(s, s[i]) >= 2
  {
    assert s == s[..j] + s[j..];
    assert s[i] in s[..j];
    assert s[j] in s[j..];
  }

  /** A revealed cell of a valid ticket shows a digit 1..9 that no other
      cell shows. */
  lemma RevealedCell(t: Ticket, g: int)
    requires ValidTicket(t) && 0 <= g < 9 && t[Letters[g]].Revealed?
    ensures 1 <= t[Letters[g]].digit <= 9
    ensures t[Letters[g]].digit in RevealedDigits(t)
    ensures forall h :: 0 <= h < 9 && h != g && t[Letters[h]].Revealed? ==>
      t[Letters[h]].digit != t[Letters[g]].digit
  {
    var ns := Inputs(t);
    assert ns[g] == t[Letters[g]].digit;
    assert t[Letters[g]] in t.Values;
    forall h | 0 <= h < 9 && h != g && t[Letters[h]].Revealed?
      ensures t[Letters[h]].digit != t[Letters[g]].digit
    {
      assert ns[h] == t[Letters[h]].digit;
      if ns[h] == ns[g] {
        if h < g { CountedOnce(ns, h, g); } else { CountedOnce(ns, g, h); }
      }
    }
  }

  /** On a valid ticket a line with k markers has C(5, k) completions:
      1, 5, 10 or 10 for k = 0..3. */
  lemma ValidLineCount(t: Ticket, l: int)
    requires ValidTicket(t) && 0 <= l < 8
    ensures CountMarkers(Lines(t)[l]) <= 3
    ensures |Completions(Lines(t)[l], NumsLeft(t))| == [1, 5, 10, 10][CountMarkers(Lines(t)[l])]
  {
    ValidTicketPool(t);
    Combinatorics.BinomialOfFive();
  }

  /** One cell of a completion of a valid ticket's line: a digit 1..9, the
      revealed one where the line shows one and a pool digit at a marker. */
  lemma CompletionCell(t: Ticket, l: int, k: nat, c: seq<int>, p: int)
    requires ValidTicket(t) && 0 <= l < 8 && 0 <= p < 3
    requires k < |Completions(Lines(t)[l], NumsLeft(t))|
    requires c == Completions(Lines(t)[l], NumsLeft(t))[k]
    ensures |c| == 3 && 1 <= c[p] <= 9
    ensures Lines(t)[l][p].Revealed? ==> c[p] == Lines(t)[l][p].digit && c[p] in RevealedDigits(t)
    ensures Lines(t)[l][p].Unrevealed? ==> c[p] !in RevealedDigits(t)
  {
    var line, pool := Lines(t)[l], NumsLeft(t);
    var m := CountMarkers(line);
    var combo := Combinatorics.Choose(pool, m)[k];
    assert c == Filled(line, combo);
    ValidTicketPool(t);
    if line[p].Revealed? {
      RevealedCell(t, GridIndex(l, p));
    } else {
      MarkerIndicesSpec(line);
      assert combo[CountMarkers(line[..p])] in pool;
    }
  }

  /** Two cells of a completion of a valid ticket's line differ. */
  lemma CompletionCellsDiffer(t: Ticket, l: int, k: nat, c: seq<int>, p: int, q: int)
    requires ValidTicket(t) && 0 <= l < 8 && 0 <= p < q < 3
    requires k < |Completions(Lines(t)[l], NumsLeft(t))|
    requires c == Completions(Lines(t)[l], NumsLeft(t))[k]
    ensures |c| == 3 && c[p] != c[q]
  {
    var line, pool := Lines(t)[l], NumsLeft(t);
    CompletionCell(t, l, k, c, p);
    CompletionCell(t, l, k, c, q);
    LinePositionsGeometry();
    if line[p].Revealed? && line[q].Revealed? {
      RevealedCell(t, GridIndex(l, p));
    } else if line[p].Unrevealed? && line[q].Unrevealed? {
      var m := CountMarkers(line);
      var combo := Combinatorics.Choose(pool, m)[k];
      assert c == Filled(line, combo);
      ValidTicketPool(t);
      Combinatorics.ChooseSorted(pool, m, k);
      MarkerIndicesSpec(line);
      var rp, rq := CountMarkers(line[..p]), CountMarkers(line[..q]);
      assert rp != rq;
      assert c[p] == combo[rp] && c[q] == combo[rq];
    }
  }

  /** Three pairwise distinct digits 1..9. */
  predicate DistinctDigits(c: seq<int>)
  {
    && |c| == 3
    && 1 <= c[0] <= 9 && 1 <= c[1] <= 9 && 1 <= c[2] <= 9
    && c[0] != c[1] && c[0] != c[2] && c[1] != c[2]
  }

  /** Three distinct digits 1..9 add up to 6..24. */
  lemma ThreeDigits(c: seq<int>)
    requires DistinctDigits(c)
    ensures 6 <= Sum(c) <= 24
  {
    SumOfThree(c);
  }

  /** Every completion of a line of a valid ticket holds three distinct
      digits 1..9, so its sum is in 6..24. */
  lemma ValidCompletion(t: Ticket, l: int, k: nat)
    requires ValidTicket(t) && 0 <= l < 8
    requires k < |Completions(Lines(t)[l], NumsLeft(t))|
    ensures DistinctDigits(Completions(Lines(t)[l], NumsLeft(t))[k])
    ensures 6 <= Sum(Completions(Lines(t)[l], NumsLeft(t))[k]) <= 24
  {
    var c := Completions(Lines(t)[l], NumsLeft(t))[k];
    CompletionCell(t, l, k, c, 0);
    CompletionCell(t, l, k, c, 1);
    CompletionCell(t, l, k, c, 2);
    CompletionCellsDiffer(t, l, k, c, 0, 1);
    CompletionCellsDiffer(t, l, k, c, 0, 2);
    CompletionCellsDiffer(t, l, k, c, 1, 2);
    assert DistinctDigits(c);
    ThreeDigits(c);
  }

  lemma InPayoutTable(total: int)
    requires 6 <= total <= 24
    ensures total in PayoutTable
  {
    PayoutTableDomain();
  }

  /** No line of a valid ticket divides by zero or misses the payout table. */
  lemma ValidLinePayable(t: Ticket, l: int)
    requires ValidTicket(t) && 0 <= l < 8
    ensures Payable(Completions(Lines(t)[l], NumsLeft(t)))
  {
    var cs := Completions(Lines(t)[l], NumsLeft(t));
    ValidTicketPool(t);
    Combinatorics.BinomialPositive(5, CountMarkers(Lines(t)[l]));
    forall k | 0 <= k < |cs|
      ensures Sum(cs[k]) in PayoutTable
    {
      ValidCompletion(t, l, k);
      InPayoutTable(Sum(cs[k]));
    }
  }

  /** The expected payout of line l (key l + 1) of a valid ticket. */
  function ExpectedPayout(t: Ticket, l: int): int
    requires ValidTicket(t) && 0 <= l < 8
  {
    ValidLinePayable(t, l);
    LinePayout(Completions(Lines(t)[l], NumsLeft(t)))
  }

  /** The web back end's `calculate`: fill the ticket from the nine inputs,
      complete every line from the pool, average the prizes and recommend. */
  method Calculate(userInputs: seq<int>) returns (results: Results)
    requires ValidInputs(userInputs)
    ensures ValidTicket(FillTicket(userInputs))
    ensures |results.payouts| == 8
    ensures forall l :: 0 <= l < 8 ==> results.payouts[l] == ExpectedPayout(FillTicket(userInputs), l)
    ensures results.suggestion == AppRecommendation(results.payouts)
  {
    var ticket := FillTicket(userInputs);
    ValidInputsGiveValidTicket(userInputs);
    var numsLeft := NumsLeft(ticket);
    var possibilities := LinesCombinations(Lines(ticket), numsLeft);
    forall l | 0 <= l < 8
      ensures Payable(possibilities[l])
    {
      ValidLinePayable(ticket, l);
    }
    var expectedValue := LinesPayout(possibilities);
    var recommendation := AppRecommendation(expectedValue);
    results := Results(expectedValue, recommendation);
  }

  /** The example board of the first script's documentation: a = 1, b = 3,
      e = 9, i = 7, read as the web form's nine inputs. */
  const DocBoard: seq<int> := [1, 3, 0, 0, 9, 0, 0, 0, 7]

  lemma DocBoardValid()
    ensures ValidInputs(DocBoard)
  {
    var s := DocBoard;
    DocBoardCounts();
    assert forall i :: 0 <= i < 9 && s[i] != 0 ==> s[i] in {1, 3, 9, 7};
  }

  lemma DocBoardCounts()
    ensures Count(DocBoard, 0) == 5
    ensures Count(DocBoard, 1) == 1 && Count(DocBoard, 3) == 1
    ensures Count(DocBoard, 9) == 1 && Count(DocBoard, 7) == 1
  {
  }

  /** A line whose cells are all revealed has no marker. */
  lemma {:induction false} NoMarkers(line: seq<Cell>)
    requires forall p :: 0 <= p < |line| ==> line[p].Revealed?
    ensures CountMarkers(line) == 0
  {
    if |line| > 0 {
      NoMarkers(line[..|line| - 1]);
    }
  }

  /** The lines of a ticket filled from nine inputs show the inputs at the
      line's grid cells. */
  lemma FilledLines(numbers: seq<int>, l: int, j: int)
    requires |numbers| == 9 && 0 <= l < 8 && 0 <= j < 3
    ensures forall p :: p in Letters ==> p in FillTicket(numbers)
    ensures Lines(FillTicket(numbers))[l][j] == CellOf(numbers[GridIndex(l, j)])
  {
    assert Letters[..9] == Letters;
  }

  /** On that board line 4 holds a, e, i: 1, 9, 7. */
  lemma DocLine()
    ensures forall p :: p in Letters ==> p in FillTicket(DocBoard)
    ensures Lines(FillTicket(DocBoard))[3] == [Revealed(1), Revealed(9), Revealed(7)]
  {
    FilledLines(DocBoard, 3, 0);
    FilledLines(DocBoard, 3, 1);
    FilledLines(DocBoard, 3, 2);
  }

  /** A fully revealed line of a valid ticket pays exactly the prize of
      its sum. */
  lemma FullyRevealedPayout(t: Ticket, l: int, a: int, b: int, c: int)
    requires ValidTicket(t) && 0 <= l < 8
    requires Lines(t)[l] == [Revealed(a), Revealed(b), Revealed(c)]
    ensures a + b + c in PayoutTable
    ensures ExpectedPayout(t, l) == PayoutTable[a + b + c]
  {
    RevealedLineSum(t, l, a, b, c);
    InPayoutTable(a + b + c);
    RevealedTriple(a, b, c);
    FullyRevealedLine(Lines(t)[l], NumsLeft(t));
    SingleCompletion([a, b, c]);
    assert ExpectedPayout(t, l) == LinePayout([[a, b, c]]);
  }

  /** The digits of a fully revealed line of a valid ticket add up to 6..24. */
  lemma RevealedLineSum(t: Ticket, l: int, a: int, b: int, c: int)
    requires ValidTicket(t) && 0 <= l < 8
    requires Lines(t)[l] == [Revealed(a), Revealed(b), Revealed(c)]
    ensures 6 <= a + b + c <= 24
  {
    RevealedTriple(a, b, c);
    FullyRevealedLine(Lines(t)[l], NumsLeft(t));
    ValidCompletion(t, l, 0);
  }

  lemma RevealedTriple(a: int, b: int, c: int)
    ensures CountMarkers([Revealed(a), Revealed(b), Revealed(c)]) == 0
    ensures Digits([Revealed(a), Revealed(b), Revealed(c)]) == [a, b, c]
    ensures Sum([a, b, c]) == a + b + c
  {
    NoMarkers([Revealed(a), Revealed(b), Revealed(c)]);
    SumOfThree([a, b, c]);
  }

  /** On that board line 4 is fully revealed, sums to 17 and pays 180. */
  lemma DocExample()
    ensures ValidTicket(FillTicket(DocBoard))
    ensures ExpectedPayout(FillTicket(DocBoard), 3) == 180
  {
    assert PayoutTable[17] == 180;
    DocBoardValid();
    ValidInputsGiveValidTicket(DocBoard);
    DocLine();
    var t := FillTicket(DocBoard);
    FullyRevealedPayout(t, 3, 1, 9, 7);
  }
}
