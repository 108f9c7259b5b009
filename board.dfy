/** The Mini Cactpot ticket: nine positions a..i in a 3x3 grid, each either
    revealed (holding the digit the player scratched) or unrevealed (holding
    its own letter as a marker). */
module Board {
  import Combinatorics

  /** A ticket position. The source stores the int digit, or the position's
      letter as a str marker; only "is it a str" is ever asked of a marker. */
  datatype Cell = Revealed(digit: int) | Unrevealed

  /** The ticket dict, from position letter to cell. */
  type Ticket = map<char, Cell>

  /** The positions in reading order: a b c / d e f / g h i. */
  const Letters: seq<char> := ['a', 'b', 'c', 'd', 'e', 'f', 'g', 'h', 'i']

  /** The blank ticket the command-line games start from: every position
      holds its own letter. */
  function BlankTicket(): (t: Ticket)
    ensures forall p :: p in t <==> p in Letters
    ensures forall p :: p in t ==> t[p] == Unrevealed
  {
    map p | p in Letters :: Unrevealed
  }

  lemma LettersDistinct()
    ensures forall i, j :: 0 <= i < j < 9 ==> Letters[i] != Letters[j]
  {
  }

  /** How often v occurs in s (Python's `list.count`). */
  function Count(s: seq<int>, v: int): nat
  {
    multiset(s)[v]
  }

  /** The web form's nine inputs are accepted when exactly five are 0
      (unrevealed) and every other value occurs once; the digits are
      assumed to lie in 1..9. */
  predicate ValidInputs(inputs: seq<int>)
  {
    && |inputs| == 9
    && Count(inputs, 0) == 5
    && (forall i :: 0 <= i < 9 ==> 0 <= inputs[i] <= 9)
    && (forall i :: 0 <= i < 9 && inputs[i] != 0 ==> Count(inputs, inputs[i]) == 1)
  }

  /** `number if number else letter`: 0 stands for an unrevealed position. */
  function CellOf(number: int): (c: Cell)
    ensures c == Unrevealed <==> number == 0
    ensures c.Revealed? ==> c.digit == number
  {
    if number != 0 then Revealed(number) else Unrevealed
  }

  /** The web back end's `fill_ticket`: the i-th letter maps to the i-th
      number, or to its marker when that number is 0; `zip` stops at the
      shorter list. */
  function FillTicket(numbers: seq<int>): (t: Ticket)
    ensures forall p :: p in t <==> p in Letters[..if |numbers| < 9 then |numbers| else 9]
    ensures forall i :: 0 <= i < |numbers| && i < 9 ==>
      t[Letters[i]] == (if numbers[i] != 0 then Revealed(numbers[i]) else Unrevealed)
  {
    LettersDistinct();
    map i | 0 <= i < |numbers| && i < 9 :: Letters[i] := CellOf(numbers[i])
  }

  /** Reads a ticket back as the web form's nine numbers, 0 for unrevealed. */
  function Inputs(t: Ticket): (inputs: seq<int>)
    requires forall i :: 0 <= i < 9 ==> Letters[i] in t
    ensures |inputs| == 9
  {
    seq(9, i requires 0 <= i < 9 => match t[Letters[i]]
      case Revealed(d) => d
      case Unrevealed => 0)
  }

  /** Reading back a filled ticket gives the numbers it was filled from. */
  lemma InputsOfFillTicket(numbers: seq<int>)
    requires |numbers| == 9
    ensures forall i :: 0 <= i < 9 ==> Letters[i] in FillTicket(numbers)
    ensures Inputs(FillTicket(numbers)) == numbers
  {
    var t := FillTicket(numbers);
    forall i | 0 <= i < 9
      ensures Letters[i] in t
    {
    }
    assert Inputs(t) == numbers;
  }

  /** A ticket as the engine expects it: all nine positions present, no
      revealed 0, and the nine numbers it reads as pass the web form's check
      (four distinct revealed digits in 1..9). */
  predicate ValidTicket(t: Ticket)
  {
    && (forall p :: p in t <==> p in Letters)
    && (forall p :: p in t ==> t[p] != Revealed(0))
    && ValidInputs(Inputs(t))
  }

  lemma ValidInputsGiveValidTicket(numbers: seq<int>)
    requires ValidInputs(numbers)
    ensures ValidTicket(FillTicket(numbers))
  {
    var t := FillTicket(numbers);
    InputsOfFillTicket(numbers);
    assert Letters[..9] == Letters;
  }

  /** The digits 1..9 that the ticket shows somewhere. */
  function RevealedDigits(t: Ticket): set<int>
  {
    set d | 1 <= d <= 9 && Revealed(d) in t.Values
  }

  /** `[x for x in range(x, 10) if x not in ticket.values()]`. */
  function NumsFrom(t: Ticket, x: int): (pool: seq<int>)
    requires 1 <= x <= 10
    ensures forall k :: 0 <= k < |pool| ==> x <= pool[k] <= 9
    ensures forall j, k :: 0 <= j < k < |pool| ==> pool[j] < pool[k]
    ensures forall y :: y in pool <==> x <= y <= 9 && Revealed(y) !in t.Values
    decreases 10 - x
  {
    if x == 10 then []
    else (if Revealed(x) in t.Values then [] else [x]) + NumsFrom(t, x + 1)
  }

  /** The pool of digits still hidden: `nums_left`, or `availables` in the
      first script. */
  function NumsLeft(t: Ticket): seq<int>
  {
    NumsFrom(t, 1)
  }

  lemma {:induction false} NumsFromSize(t: Ticket, x: int)
    requires 1 <= x <= 10
    ensures |NumsFrom(t, x)| + |set d | x <= d <= 9 && Revealed(d) in t.Values| == 10 - x
    decreases 10 - x
  {
    if x < 10 {
      NumsFromSize(t, x + 1);
      var later := set d | x + 1 <= d <= 9 && Revealed(d) in t.Values;
      var here := set d | x <= d <= 9 && Revealed(d) in t.Values;
      if Revealed(x) in t.Values {
        assert here == {x} + later;
      } else {
        assert here == later;
      }
    }
  }

  /** The pool holds nine minus the number of distinct digits shown. */
  lemma NumsLeftSize(t: Ticket)
    ensures |NumsLeft(t)| == 9 - |RevealedDigits(t)|
  {
    NumsFromSize(t, 1);
  }

  /** The nonzero values of s, when each of them occurs once, are as many as
      the entries of s that are not 0. */
  lemma {:induction false} NonzeroValues(s: seq<int>)
    requires forall i :: 0 <= i < |s| && s[i] != 0 ==> Count(s, s[i]) == 1
    ensures |set y | y in s && y != 0| == |s| - Count(s, 0)
  {
    if |s| > 0 {
      var rest := s[1..];
      assert s == [s[0]] + rest;
      forall i | 0 <= i < |rest| && rest[i] != 0
        ensures Count(rest, rest[i]) == 1
      {
        assert s[i + 1] == rest[i];
      }
      NonzeroValues(rest);
      var all := set y | y in s && y != 0;
      var later := set y | y in rest && y != 0;
      if s[0] == 0 {
        assert all == later;
      } else {
        assert Count(s, s[0]) == 1;
        assert s[0] !in rest;
        assert all == {s[0]} + later;
      }
    }
  }

  /** A valid ticket shows four digits and leaves an ascending pool of
      five, none of them shown. */
  lemma ValidTicketPool(t: Ticket)
    requires ValidTicket(t)
    ensures |RevealedDigits(t)| == 4
    ensures Combinatorics.Increasing(NumsLeft(t))
    ensures |NumsLeft(t)| == 5
    ensures forall y :: y in NumsLeft(t) ==> 1 <= y <= 9 && y !in RevealedDigits(t)
  {
    var ns := Inputs(t);
    NonzeroValues(ns);
    assert RevealedDigits(t) == set y | y in ns && y != 0 by {
      forall y | y in ns && y != 0
        ensures y in RevealedDigits(t)
      {
        var i :| 0 <= i < 9 && ns[i] == y;
        assert t[Letters[i]] == Revealed(y);
      }
      forall y | y in RevealedDigits(t)
        ensures y in ns
      {
        var p :| p in t && t[p] == Revealed(y);
        var i :| 0 <= i < 9 && Letters[i] == p;
        assert ns[i] == y;
      }
    }
    NumsLeftSize(t);
  }

  /** The command-line scripts' game state: the ticket dict, updated in
      place from the player's numbers. */
  class Game {
    var ticket: Ticket

    constructor (ticket: Ticket)
      ensures this.ticket == ticket
    {
      this.ticket := ticket;
    }

    /** `fill_numbers`: for every (key, value) the player gave, scan the
        ticket's letters and overwrite the one equal to key. */
    method FillNumbers(numbers: map<char, int>) returns (filled: Ticket)
      modifies this
      ensures ticket.Keys == old(ticket).Keys
      ensures forall p :: p in ticket ==>
        ticket[p] == if p in numbers then Revealed(numbers[p]) else old(ticket)[p]
      ensures filled == ticket
    {
      var pending := numbers.Keys;
      while pending != {}
        invariant pending <= numbers.Keys
        invariant ticket.Keys == old(ticket).Keys
        invariant forall p :: p in ticket ==>
          ticket[p] == if p in numbers && p !in pending then Revealed(numbers[p]) else old(ticket)[p]
        decreases pending
      {
        var key :| key in pending;
        var value := numbers[key];
        var letters := ticket.Keys;
        while letters != {}
          invariant letters <= ticket.Keys == old(ticket).Keys
          invariant forall p :: p in ticket && p != key ==>
            ticket[p] == if p in numbers && p !in pending then Revealed(numbers[p]) else old(ticket)[p]
          invariant key in ticket && key !in letters ==> ticket[key] == Revealed(value)
          invariant key in letters ==> ticket[key] == old(ticket)[key]
          decreases letters
        {
          var letter :| letter in letters;
          if letter == key {
            ticket := ticket[letter := Revealed(value)];
          }
          letters := letters - {letter};
        }
        pending := pending - {key};
      }
      filled := ticket;
    }

    /** The second script's `fill_ticket`, once the player's numbers have
        been read: overwrite every key already on the ticket. */
    method FillTicket(nums: map<char, int>) returns (filled: Ticket)
      modifies this
      ensures ticket.Keys == old(ticket).Keys
      ensures forall p :: p in ticket ==>
        ticket[p] == if p in nums then Revealed(nums[p]) else old(ticket)[p]
      ensures filled == ticket
    {
      var pending := nums.Keys;
      while pending != {}
        invariant pending <= nums.Keys
        invariant ticket.Keys == old(ticket).Keys
        invariant forall p :: p in ticket ==>
          ticket[p] == if p in nums && p !in pending then Revealed(nums[p]) else old(ticket)[p]
        decreases pending
      {
        var key :| key in pending;
        if key in ticket {
          ticket := ticket[key := Revealed(nums[key])];
        }
        pending := pending - {key};
      }
      filled := ticket;
    }
  }
}
