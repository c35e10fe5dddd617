/**
 The glob automaton: one bit per state, every live state advancing together.

 State `i` is live when the first `i` atoms match the text read so far, or when atom `i`
 is a star that has swallowed some of it. `Prefixes` says the former by recursion from
 the end, and `Live` both; `Run` computes exactly that set in words.
 */
module Automaton {
  import opened Glob
  import opened Words

  /** Whether the first `i` atoms match the first `j` characters. */
  predicate Prefixes(atoms: seq<Atom>, i: nat, text: string, j: nat)
    requires i <= |atoms| && j <= |text|
    decreases i + j
  {
    if i == 0 then
      j == 0
    else if atoms[i - 1].Star? then
      Prefixes(atoms, i - 1, text, j) || (j > 0 && Prefixes(atoms, i, text, j - 1))
    else
      j > 0 && atoms[i - 1].Accepts(text[j - 1]) && Prefixes(atoms, i - 1, text, j - 1)
  }

  lemma {:induction false} JoinForward(atoms: seq<Atom>, i: nat, text: string, j: nat)
    requires i <= |atoms| && j <= |text|
    requires Prefixes(atoms, i, text, j) && Matches(atoms[i..], text[j..])
    ensures Prefixes(atoms, |atoms|, text, |text|)
    decreases |atoms| - i + |text| - j
  {
    if i < |atoms| {
      assert atoms[i..][1..] == atoms[i + 1..];
      if j < |text| {
        assert text[j..][1..] == text[j + 1..];
      }
      if atoms[i].Star? {
        assert Prefixes(atoms, i + 1, text, j);
        if Matches(atoms[i + 1..], text[j..]) {
          JoinForward(atoms, i + 1, text, j);
        } else {
          StarSwallows(atoms, i, text, j);
        }
      } else {
        JoinForward(atoms, i + 1, text, j + 1);
      }
    }
  }

  /** A star that swallows a character goes on from the state after it. */
  lemma {:induction false} StarSwallows(atoms: seq<Atom>, i: nat, text: string, j: nat)
    requires i < |atoms| && atoms[i].Star? && j < |text|
    requires Prefixes(atoms, i + 1, text, j)
    requires Matches(atoms[i..], text[j + 1..])
    ensures Prefixes(atoms, |atoms|, text, |text|)
    decreases |atoms| - i + |text| - j, 0
  {
    assert Prefixes(atoms, i + 1, text, j + 1);
    assert atoms[i..][1..] == atoms[i + 1..];
    if Matches(atoms[i + 1..], text[j + 1..]) {
      JoinForward(atoms, i + 1, text, j + 1);
    } else {
      assert text[j + 1..][1..] == text[j + 2..];
      StarSwallows(atoms, i, text, j + 1);
    }
  }

  lemma {:induction false} JoinBackward(atoms: seq<Atom>, i: nat, text: string, j: nat)
    requires i <= |atoms| && j <= |text|
    requires Prefixes(atoms, i, text, j) && Matches(atoms[i..], text[j..])
    ensures Matches(atoms, text)
    decreases i + j
  {
    if i == 0 {
      assert atoms[0..] == atoms && text[0..] == text;
    } else {
      assert atoms[i - 1..][1..] == atoms[i..];
      if j > 0 {
        assert text[j - 1..][1..] == text[j..];
      }
      if atoms[i - 1].Star? {
        if Prefixes(atoms, i - 1, text, j) {
          JoinBackward(atoms, i - 1, text, j);
        } else {
          StarReleases(atoms, i, text, j);
        }
      } else {
        JoinBackward(atoms, i - 1, text, j - 1);
      }
    }
  }

  lemma {:induction false} StarReleases(atoms: seq<Atom>, i: nat, text: string, j: nat)
    requires 0 < i <= |atoms| && atoms[i - 1].Star? && 0 < j <= |text|
    requires Prefixes(atoms, i, text, j - 1)
    requires Matches(atoms[i..], text[j..]) || Matches(atoms[i - 1..], text[j..])
    ensures Matches(atoms, text)
    decreases i + j, 0
  {
    assert atoms[i - 1..][1..] == atoms[i..];
    assert text[j - 1..][1..] == text[j..];
    assert Matches(atoms[i - 1..], text[j - 1..]);
    if Prefixes(atoms, i - 1, text, j - 1) {
      JoinBackward(atoms, i - 1, text, j - 1);
    } else {
      StarReleases(atoms, i, text, j - 1);
    }
  }

  /** Reading from the end and from the front agree. */
  lemma {:induction false} PrefixesIsMatches(atoms: seq<Atom>, text: string)
    ensures Prefixes(atoms, |atoms|, text, |text|) <==> Matches(atoms, text)
  {
    assert atoms[0..] == atoms && text[0..] == text;
    if Matches(atoms, text) {
      JoinForward(atoms, 0, text, 0);
    }
    if Prefixes(atoms, |atoms|, text, |text|) {
      assert atoms[|atoms|..] == [] && text[|text|..] == [];
      JoinBackward(atoms, |atoms|, text, |text|);
    }
  }

  // ---- live states ----------------------------------------------------------

  predicate IsStar(atoms: seq<Atom>, i: nat)
  {
    i < |atoms| && atoms[i].Star?
  }

  /** Whether state `i` is live once `j` characters are read. */
  predicate Live(atoms: seq<Atom>, i: nat, text: string, j: nat)
    requires j <= |text|
  {
    i <= |atoms| && if IsStar(atoms, i) then Prefixes(atoms, i + 1, text, j) else Prefixes(atoms, i, text, j)
  }

  /** State `i` moves up to `i + 1` on `c`: its atom takes a character, and takes this one. */
  predicate Moves(atoms: seq<Atom>, i: nat, c: char)
  {
    i < |atoms| && !atoms[i].Star? && atoms[i].Accepts(c)
  }

  /** Whether a state is live after a character, before stars are let match nothing. */
  predicate Stepped(atoms: seq<Atom>, i: nat, text: string, j: nat)
    requires j < |text|
  {
    || (i > 0 && Live(atoms, i - 1, text, j) && Moves(atoms, i - 1, text[j]))
    || (Live(atoms, i, text, j) && IsStar(atoms, i))
  }

  /** One step and one closure reach every live state, stars being apart. */
  lemma {:induction false} StepThenClose(atoms: seq<Atom>, i: nat, text: string, j: nat)
    requires NoAdjacentStars(atoms) && j < |text|
    ensures Live(atoms, i, text, j + 1)
            <==> Stepped(atoms, i, text, j)
                 || (i > 0 && IsStar(atoms, i - 1) && Stepped(atoms, i - 1, text, j))
  {
    if i <= |atoms| {
      if i > 0 && IsStar(atoms, i - 1) {
        StepAtStar(atoms, i - 1, text, j);
        assert !IsStar(atoms, i);
      } else if IsStar(atoms, i) {
        StepAtStar(atoms, i, text, j);
      }
    }
  }

  lemma {:induction false} StepAtStar(atoms: seq<Atom>, i: nat, text: string, j: nat)
    requires NoAdjacentStars(atoms) && j < |text| && IsStar(atoms, i)
    ensures Live(atoms, i, text, j + 1) <==> Stepped(atoms, i, text, j)
    ensures Live(atoms, i, text, j + 1) ==> Live(atoms, i + 1, text, j + 1)
  {
    assert Live(atoms, i, text, j + 1)
           <==> Prefixes(atoms, i, text, j + 1) || Prefixes(atoms, i + 1, text, j);
    if i > 0 {
      assert !IsStar(atoms, i - 1);
    }
  }

  /** Before any text: the first state, and the one after a leading star. */
  lemma {:induction false} StartThenClose(atoms: seq<Atom>, i: nat, text: string)
    requires NoAdjacentStars(atoms)
    ensures Live(atoms, i, text, 0) <==> i == 0 || (i == 1 && IsStar(atoms, 0))
  {
    if 1 < i <= |atoms| {
      NothingBeyondOneStar(atoms, i, text);
      if IsStar(atoms, i) {
        NothingBeyondOneStar(atoms, i + 1, text);
      }
    } else if i == 1 <= |atoms| && IsStar(atoms, 1) {
      NothingBeyondOneStar(atoms, 2, text);
    }
  }

  lemma {:induction false} NothingBeyondOneStar(atoms: seq<Atom>, i: nat, text: string)
    requires NoAdjacentStars(atoms) && 1 < i <= |atoms|
    ensures !Prefixes(atoms, i, text, 0)
  {
    if atoms[i - 1].Star? {
      assert !atoms[i - 2].Star?;
    }
  }

  /** Once no state is live none ever is again. */
  lemma {:induction false} DeadStaysDead(atoms: seq<Atom>, text: string, j: nat)
    requires NoAdjacentStars(atoms) && j <= |text|
    requires forall i: nat :: !Live(atoms, i, text, j)
    ensures !Matches(atoms, text)
    decreases |text| - j
  {
    if j == |text| {
      assert !Live(atoms, |atoms|, text, j);
      PrefixesIsMatches(atoms, text);
    } else {
      forall i: nat {:trigger Live(atoms, i, text, j + 1)}
        ensures !Live(atoms, i, text, j + 1)
      {
        StepThenClose(atoms, i, text, j);
      }
      DeadStaysDead(atoms, text, j + 1);
    }
  }

  // ---- sets of states -------------------------------------------------------

  ghost function LiveSet(atoms: seq<Atom>, text: string, j: nat): set<nat>
    requires j <= |text|
  {
    set i: nat | i <= |atoms| && Live(atoms, i, text, j)
  }

  ghost function StarSet(atoms: seq<Atom>): set<nat>
  {
    set i: nat | i < |atoms| && IsStar(atoms, i)
  }

  ghost function MoveSet(atoms: seq<Atom>, c: char): set<nat>
  {
    set i: nat | i < |atoms| && Moves(atoms, i, c)
  }

  /** The states a character leads to, before stars are let match nothing. */
  ghost function StepSet(live: set<nat>, moves: set<nat>, stars: set<nat>): set<nat>
  {
    Up(live * moves) + live * stars
  }

  /** A set closed under passing a star for free. */
  ghost function CloseSet(s: set<nat>, stars: set<nat>): set<nat>
  {
    s + Up(s * stars)
  }

  lemma {:induction false} UpHas(s: set<nat>, i: nat)
    ensures i in Up(s) <==> i > 0 && i - 1 in s
  {}

  lemma {:induction false} StepSetIsStepped(atoms: seq<Atom>, text: string, j: nat, i: nat)
    requires j < |text|
    ensures i in StepSet(LiveSet(atoms, text, j), MoveSet(atoms, text[j]), StarSet(atoms))
            <==> Stepped(atoms, i, text, j)
  {
    UpHas(LiveSet(atoms, text, j) * MoveSet(atoms, text[j]), i);
  }

  /** Sets of live states, one character to the next. */
  lemma {:induction false} LiveStep(atoms: seq<Atom>, text: string, j: nat)
    requires NoAdjacentStars(atoms) && j < |text|
    ensures var stepped := StepSet(LiveSet(atoms, text, j), MoveSet(atoms, text[j]), StarSet(atoms));
            LiveSet(atoms, text, j + 1) == CloseSet(stepped, StarSet(atoms))
  {
    var stars := StarSet(atoms);
    var stepped := StepSet(LiveSet(atoms, text, j), MoveSet(atoms, text[j]), stars);
    forall i: nat
      ensures i in LiveSet(atoms, text, j + 1) <==> i in CloseSet(stepped, stars)
    {
      StepThenClose(atoms, i, text, j);
      StepSetIsStepped(atoms, text, j, i);
      UpHas(stepped * stars, i);
      if i > 0 {
        StepSetIsStepped(atoms, text, j, i - 1);
      }
    }
  }

  lemma {:induction false} LiveStart(atoms: seq<Atom>, text: string)
    requires NoAdjacentStars(atoms)
    ensures LiveSet(atoms, text, 0) == CloseSet({0}, StarSet(atoms))
  {
    forall i: nat
      ensures i in LiveSet(atoms, text, 0) <==> i in CloseSet({0}, StarSet(atoms))
    {
      StartThenClose(atoms, i, text);
      UpHas({0} * StarSet(atoms), i);
    }
  }

  /** No state after a character: the text is not matched, whatever comes after. */
  lemma {:induction false} NothingLive(atoms: seq<Atom>, text: string, j: nat)
    requires NoAdjacentStars(atoms) && j < |text|
    requires StepSet(LiveSet(atoms, text, j), MoveSet(atoms, text[j]), StarSet(atoms)) == {}
    ensures !Matches(atoms, text)
  {
    LiveStep(atoms, text, j);
    assert {} * StarSet(atoms) == {};
    assert Up({}) == {};
    forall i: nat {:trigger Live(atoms, i, text, j + 1)}
      ensures !Live(atoms, i, text, j + 1)
    {
      assert i !in LiveSet(atoms, text, j + 1);
    }
    DeadStaysDead(atoms, text, j + 1);
  }

  // ---- the automaton in words -----------------------------------------------

  /** The words for character `c`, among those of every ASCII character. */
  ghost function Row(ascii: seq<bv64>, words: nat, c: nat): seq<bv64>
    requires |ascii| == 128 * words && c < 128
  {
    RowInside(c, words);
    ascii[c * words..c * words + words]
  }

  lemma {:induction false} RowInside(c: nat, words: nat)
    requires c < 128
    ensures c * words + words <= 128 * words
  {
    RowsApart(c, 128, words);
  }

  /** Rows of different characters do not overlap. */
  lemma {:induction false} RowsApart(c: nat, d: nat, words: nat)
    requires c < d
    ensures c * words + words <= d * words
  {
    RowNext(d - 1, words);
    if c < d - 1 {
      RowsApart(c, d - 1, words);
    }
  }

  lemma {:induction false} RowNext(c: nat, words: nat)
    ensures (c + 1) * words == c * words + words
  {}

  /** Changing a word in the row of `c` changes no other row. */
  lemma {:induction false} RowUpdate(was: seq<bv64>, words: nat, c: nat, k: nat, at: nat, w: bv64, d: nat)
    requires |was| == 128 * words && c < 128 && d < 128 && k < words && at == c * words + k && at < |was|
    ensures Row(was[at := w], words, d) == if c == d then Row(was, words, c)[k := w] else Row(was, words, d)
  {
    RowInside(c, words);
    RowInside(d, words);
    if c < d {
      RowsApart(c, d, words);
    } else if d < c {
      RowsApart(d, c, words);
    }
    SliceUpdate(was, c * words, k, w, d * words, words);
  }

  lemma {:induction false} SliceUpdate(was: seq<bv64>, from: nat, k: nat, w: bv64, to: nat, length: nat)
    requires from + length <= |was| && to + length <= |was| && k < length
    requires from == to || from + length <= to || to + length <= from
    ensures was[from + k := w][to..to + length] ==
            if from == to then was[to..to + length][k := w] else was[to..to + length]
  {}

  /** The atoms as words of bits: `stars` marks which atoms are stars, and the row of `ascii` for a character
      marks which other atoms take it. */
  datatype Automaton = Automaton(atoms: seq<Atom>, words: nat, stars: seq<bv64>, ascii: seq<bv64>)
  {
    ghost predicate Valid()
    {
      && NoAdjacentStars(atoms)
      && words == |atoms| / 64 + 1
      && |stars| == words
      && HoldAll(stars, StarSet(atoms))
      && |ascii| == 128 * words
      && (forall c: nat {:trigger Row(ascii, words, c)} :: c < 128 ==> HoldAll(Row(ascii, words, c), MoveSet(atoms, c as char)))
    }
  }

  /** Sets bit `i` of a bitset, whose words start at `from`. */
  method SetBit(ws: array<bv64>, from: nat, i: nat, ghost s: set<nat>)
    requires from + i / 64 < ws.Length
    requires Holds(ws[from + i / 64], s, 64 * (i / 64))
    modifies ws
    ensures Holds(ws[from + i / 64], s + {i}, 64 * (i / 64))
    ensures forall n :: 0 <= n < ws.Length && n != from + i / 64 ==> ws[n] == old(ws[n])
  {
    var word := ws[from + i / 64];
    var one := Words.One(i % 64);
    var sum := word | one;
    HoldsOne(word, one, i % 64, sum, s, 64 * (i / 64));
    ws[from + i / 64] := sum;
  }

  /** A bit of another word changes nothing here. */
  lemma {:induction false} HoldsElsewhere(w: bv64, s: set<nat>, i: nat, k: nat)
    requires Holds(w, s, 64 * k) && i / 64 != k
    ensures Holds(w, s + {i}, 64 * k)
  {
  }

  /** Closes the set that `state` holds under passing a star for free. */
  method Close(stars: seq<bv64>, state: array<bv64>, ghost s: set<nat>, ghost t: set<nat>)
    requires |stars| == state.Length
    requires HoldAll(stars, t) && HoldAll(state[..], s)
    modifies state
    ensures HoldAll(state[..], CloseSet(s, t))
  {
    var carry: bv64 := 0;
    HoldsZero(Up(s * t) * {0}, 0, carry);
    for k := 0 to state.Length
      invariant forall n: nat {:trigger state[n]} :: k <= n < state.Length ==> Holds(state[n], s, 64 * n)
      invariant forall n: nat {:trigger state[n]} :: n < k ==> Holds(state[n], CloseSet(s, t), 64 * n)
      invariant Holds(carry, Up(s * t) * {64 * k}, 64 * k)
    {
      var word := state[k];
      var starred := word & stars[k];
      HoldsAnd(word, stars[k], starred, s, t, 64 * k);
      var shifted := starred << 1;
      HoldsUp(starred, shifted, s * t, 64 * k);
      var reached := shifted | carry;
      HoldsOr(shifted, carry, reached, Up(s * t) - {64 * k}, Up(s * t) * {64 * k}, 64 * k);
      assert Up(s * t) - {64 * k} + Up(s * t) * {64 * k} == Up(s * t);
      var closed := word | reached;
      HoldsOr(word, reached, closed, s, Up(s * t), 64 * k);
      state[k] := closed;
      carry := starred >> 63;
      HoldsCarry(starred, carry, s * t, 64 * k);
    }
  }

  /** One word of a step: live states moved up, the carry of the word below, and stars that stay. */
  method StepWord(word: bv64, accepts: bv64, stars: bv64, carryIn: bv64,
                  ghost s: set<nat>, ghost m: set<nat>, ghost t: set<nat>, ghost base: nat)
    returns (next: bv64, carry: bv64)
    requires Holds(word, s, base) && Holds(accepts, m, base) && Holds(stars, t, base)
    requires Holds(carryIn, Up(s * m) * {base}, base)
    ensures Holds(next, StepSet(s, m, t), base)
    ensures Holds(carry, Up(s * m) * {base + 64}, base + 64)
  {
    var advanced := word & accepts;
    HoldsAnd(word, accepts, advanced, s, m, base);
    var shifted := advanced << 1;
    HoldsUp(advanced, shifted, s * m, base);
    var moved := shifted | carryIn;
    HoldsOr(shifted, carryIn, moved, Up(s * m) - {base}, Up(s * m) * {base}, base);
    assert Up(s * m) - {base} + Up(s * m) * {base} == Up(s * m);
    var kept := word & stars;
    HoldsAnd(word, stars, kept, s, t, base);
    next := moved | kept;
    HoldsOr(moved, kept, next, Up(s * m), s * t, base);
    carry := advanced >> 63;
    HoldsCarry(advanced, carry, s * m, base);
  }

  /** Moves every live state along one character. `empty` says that none was left. */
  method Step(a: Automaton, state: array<bv64>, accepts: seq<bv64>, next: array<bv64>, ghost s: set<nat>, ghost m: set<nat>)
    returns (empty: bool)
    requires |a.stars| == |accepts| == state.Length == next.Length && state != next
    requires HoldAll(a.stars, StarSet(a.atoms)) && HoldAll(accepts, m) && HoldAll(state[..], s)
    modifies next
    ensures HoldAll(next[..], StepSet(s, m, StarSet(a.atoms)))
    ensures empty ==> forall k: nat :: k < next.Length ==> next[k] == 0
  {
    ghost var t := StarSet(a.atoms);
    ghost var was := state[..];
    var carry: bv64 := 0;
    var live: bv64 := 0;
    HoldsZero(Up(s * m) * {0}, 0, carry);
    for k := 0 to state.Length
      invariant state[..] == was
      invariant forall n: nat {:trigger next[n]} :: n < k ==> Holds(next[n], StepSet(s, m, t), 64 * n)
      invariant Holds(carry, Up(s * m) * {64 * k}, 64 * k)
      invariant live == 0 ==> forall n: nat {:trigger next[n]} :: n < k ==> next[n] == 0
    {
      assert state[k] == was[k];
      var word, carried := StepWord(state[k], accepts[k], a.stars[k], carry, s, m, t, 64 * k);
      next[k] := word;
      carry := carried;
      ghost var before := live;
      live := live | word;
      if live == 0 {
        OrZero(before, word);
      }
    }
    empty := live == 0;
  }

  /** States that fill no word do not exist. */
  lemma {:induction false} NoWordsNoStates(ws: seq<bv64>, s: set<nat>, top: nat)
    requires HoldAll(ws, s) && |ws| == top / 64 + 1
    requires forall i :: i in s ==> i <= top
    requires forall k: nat {:trigger ws[k]} :: k < |ws| ==> ws[k] == 0
    ensures s == {}
  {
    if s != {} {
      var i :| i in s;
      var k := i / 64;
      assert k < |ws| && ws[k] == 0 && Holds(ws[k], s, 64 * k);
      HoldsZero(s, 64 * k, ws[k]);
      assert false;
    }
  }

  /** The words of the atoms that character `c` moves, worked out atom by atom. */
  method Mask(atoms: seq<Atom>, c: char, mask: array<bv64>)
    requires mask.Length == |atoms| / 64 + 1
    modifies mask
    ensures HoldAll(mask[..], MoveSet(atoms, c))
  {
    for k := 0 to mask.Length
      invariant forall n: nat {:trigger mask[n]} :: n < k ==> mask[n] == 0
    {
      mask[k] := 0;
    }
    ghost var s: set<nat> := {};
    forall k: nat | k < mask.Length
      ensures Holds(mask[k], s, 64 * k)
    {
      HoldsZero(s, 64 * k, mask[k]);
    }
    for i := 0 to |atoms|
      invariant s == set n: nat | n < i && Moves(atoms, n, c)
      invariant forall k: nat {:trigger mask[k]} :: k < mask.Length ==> Holds(mask[k], s, 64 * k)
    {
      if atoms[i] != Star && atoms[i].Accepts(c) {
        label before:
        SetBit(mask, 0, i, s);
        forall k: nat | k < mask.Length
          ensures Holds(mask[k], s + {i}, 64 * k)
        {
          if k != i / 64 {
            assert mask[k] == old@before(mask[k]);
            HoldsElsewhere(mask[k], s, i, k);
          }
        }
        s := s + {i};
      }
    }
  }

  ghost function StarsBelow(atoms: seq<Atom>, i: nat): set<nat>
  {
    set n: nat | n < i && IsStar(atoms, n)
  }

  ghost function MovesBelow(atoms: seq<Atom>, c: char, i: nat): set<nat>
  {
    set n: nat | n < i && Moves(atoms, n, c)
  }

  /** Rows below `c` hold the moves of the first `i + 1` atoms, the others those of the first `i`. */
  ghost predicate Filled(ascii: seq<bv64>, words: nat, atoms: seq<Atom>, i: nat, c: nat)
  {
    && |ascii| == 128 * words
    && forall d: nat {:trigger Row(ascii, words, d)} :: d < 128 ==>
         HoldAll(Row(ascii, words, d), MovesBelow(atoms, d as char, if d < c then i + 1 else i))
  }

  lemma {:induction false} HoldNothing(ws: seq<bv64>)
    requires forall n :: 0 <= n < |ws| ==> ws[n] == 0
    ensures HoldAll(ws, {})
  {
    forall k: nat | k < |ws|
      ensures Holds(ws[k], {}, 64 * k)
    {
      HoldsZero({}, 64 * k, ws[k]);
    }
  }

  lemma {:induction false} FilledEmpty(ascii: seq<bv64>, words: nat, atoms: seq<Atom>)
    requires |ascii| == 128 * words
    requires forall n :: 0 <= n < |ascii| ==> ascii[n] == 0
    ensures Filled(ascii, words, atoms, 0, 0)
  {
    forall d: nat | d < 128
      ensures HoldAll(Row(ascii, words, d), MovesBelow(atoms, d as char, 0))
    {
      RowInside(d, words);
      HoldNothing(Row(ascii, words, d));
      assert MovesBelow(atoms, d as char, 0) == {};
    }
  }

  /** A star is in no row. */
  lemma {:induction false} FilledSkip(ascii: seq<bv64>, words: nat, atoms: seq<Atom>, i: nat)
    requires IsStar(atoms, i) && Filled(ascii, words, atoms, i, 0)
    ensures Filled(ascii, words, atoms, i, 128)
  {
    forall d: nat | d < 128
      ensures HoldAll(Row(ascii, words, d), MovesBelow(atoms, d as char, i + 1))
    {
      assert MovesBelow(atoms, d as char, i + 1) == MovesBelow(atoms, d as char, i);
    }
  }

  /** `now` is `was` once atom `i` has been entered in the row of character `c`. */
  ghost predicate Entered(was: seq<bv64>, now: seq<bv64>, words: nat, atoms: seq<Atom>, i: nat, c: char)
  {
    if Moves(atoms, i, c) then
      var at := c as nat * words + i / 64;
      && at < |was| == |now|
      && now == was[at := now[at]]
      && Holds(now[at], MovesBelow(atoms, c, i) + {i}, 64 * (i / 64))
    else
      now == was
  }

  lemma {:induction false} EnteredRow(was: seq<bv64>, now: seq<bv64>, words: nat, atoms: seq<Atom>, i: nat, c: nat, d: nat)
    requires c < 128 && d < 128 && i / 64 < words && |was| == 128 * words
    requires Entered(was, now, words, atoms, i, c as char)
    requires c == d ==> HoldAll(Row(was, words, c), MovesBelow(atoms, c as char, i))
    ensures |now| == |was|
    ensures if c == d then HoldAll(Row(now, words, c), MovesBelow(atoms, c as char, i + 1))
            else Row(now, words, d) == Row(was, words, d)
  {
    var below, upTo := MovesBelow(atoms, c as char, i), MovesBelow(atoms, c as char, i + 1);
    if Moves(atoms, i, c as char) {
      assert upTo == below + {i};
      RowWritten(was, now, words, c, i, d, below, now[c * words + i / 64]);
    } else {
      assert upTo == below;
    }
  }

  lemma {:induction false} RowWritten(was: seq<bv64>, now: seq<bv64>, words: nat, c: nat, i: nat, d: nat, s: set<nat>, w: bv64)
    requires c < 128 && d < 128 && i / 64 < words && |was| == 128 * words
    requires c * words + i / 64 < |was| && now == was[c * words + i / 64 := w]
    requires Holds(w, s + {i}, 64 * (i / 64))
    requires c == d ==> HoldAll(Row(was, words, c), s)
    ensures if c == d then HoldAll(Row(now, words, c), s + {i}) else Row(now, words, d) == Row(was, words, d)
  {
    RowUpdate(was, words, c, i / 64, c * words + i / 64, w, d);
    if c == d {
      RowSet(Row(was, words, c), Row(now, words, c), i, s, w);
    }
  }

  lemma {:induction false} RowSet(was: seq<bv64>, now: seq<bv64>, i: nat, s: set<nat>, w: bv64)
    requires i / 64 < |was| && now == was[i / 64 := w]
    requires Holds(w, s + {i}, 64 * (i / 64)) && HoldAll(was, s)
    ensures HoldAll(now, s + {i})
  {
    HoldAllSet(was, s, i, w);
  }

  lemma {:induction false} FilledOne(was: seq<bv64>, now: seq<bv64>, words: nat, atoms: seq<Atom>, i: nat, c: nat)
    requires c < 128 && i / 64 < words && Filled(was, words, atoms, i, c)
    requires Entered(was, now, words, atoms, i, c as char)
    ensures Filled(now, words, atoms, i, c + 1)
  {
    EnteredRow(was, now, words, atoms, i, c, c);
    forall d: nat | d < 128
      ensures HoldAll(Row(now, words, d), MovesBelow(atoms, d as char, if d < c + 1 then i + 1 else i))
    {
      if c != d {
        EnteredRow(was, now, words, atoms, i, c, d);
      }
    }
  }

  lemma {:induction false} HoldAllSet(ws: seq<bv64>, s: set<nat>, i: nat, w: bv64)
    requires HoldAll(ws, s) && i / 64 < |ws| && Holds(w, s + {i}, 64 * (i / 64))
    ensures HoldAll(ws[i / 64 := w], s + {i})
  {
    forall k: nat | k < |ws|
      ensures Holds(ws[i / 64 := w][k], s + {i}, 64 * k)
    {
      if k != i / 64 {
        assert Holds(ws[k], s, 64 * k);
        HoldsElsewhere(ws[k], s, i, k);
      }
    }
  }

  /** Enters atom `i` in the row of every character it accepts. */
  method FillAtom(atoms: seq<Atom>, words: nat, ascii: array<bv64>, i: nat)
    requires i < |atoms| && !atoms[i].Star? && i / 64 < words
    requires Filled(ascii[..], words, atoms, i, 0)
    modifies ascii
    ensures Filled(ascii[..], words, atoms, i, 128)
  {
    for c := 0 to 128
      invariant Filled(ascii[..], words, atoms, i, c)
    {
      ghost var was := ascii[..];
      RowInside(c, words);
      assert HoldAll(Row(was, words, c), MovesBelow(atoms, c as char, i));
      assert ascii[c * words..c * words + words] == Row(was, words, c);
      EnterAtom(atoms, words, ascii, i, c, c * words);
      FilledOne(was, ascii[..], words, atoms, i, c);
    }
  }

  /** Enters atom `i` in the row of a character, which starts at `from`. */
  method EnterAtom(atoms: seq<Atom>, words: nat, ascii: array<bv64>, i: nat, c: nat, from: nat)
    requires i < |atoms| && !atoms[i].Star? && i / 64 < words && c < 128
    requires from == c * words && from + words <= ascii.Length
    requires HoldAll(ascii[from..from + words], MovesBelow(atoms, c as char, i))
    modifies ascii
    ensures Entered(old(ascii[..]), ascii[..], words, atoms, i, c as char)
  {
    if atoms[i].Accepts(c as char) {
      ghost var was := ascii[..];
      assert ascii[from..from + words][i / 64] == ascii[from + i / 64];
      SetBit(ascii, from, i, MovesBelow(atoms, c as char, i));
      assert ascii[..] == was[from + i / 64 := ascii[from + i / 64]];
    }
  }

  /** Enters atom `i` among the stars. */
  method FillStar(atoms: seq<Atom>, stars: array<bv64>, i: nat)
    requires i < |atoms| && atoms[i].Star? && i / 64 < stars.Length
    requires HoldAll(stars[..], StarsBelow(atoms, i))
    modifies stars
    ensures HoldAll(stars[..], StarsBelow(atoms, i + 1))
  {
    ghost var was := stars[..];
    assert was[i / 64] == stars[i / 64];
    SetBit(stars, 0, i, StarsBelow(atoms, i));
    assert stars[..] == was[i / 64 := stars[i / 64]];
    HoldAllSet(was, StarsBelow(atoms, i), i, stars[i / 64]);
    assert StarsBelow(atoms, i + 1) == StarsBelow(atoms, i) + {i};
  }

  /** The automaton's words, from its atoms. */
  method Build(atoms: seq<Atom>) returns (a: Automaton)
    requires NoAdjacentStars(atoms)
    ensures a.atoms == atoms && a.Valid()
  {
    var words := |atoms| / 64 + 1;
    var stars := new bv64[words](_ => 0);
    var ascii := new bv64[128 * words](_ => 0);
    HoldNothing(stars[..]);
    assert StarsBelow(atoms, 0) == {};
    FilledEmpty(ascii[..], words, atoms);
    for i := 0 to |atoms|
      invariant HoldAll(stars[..], StarsBelow(atoms, i))
      invariant Filled(ascii[..], words, atoms, i, 0)
    {
      if atoms[i] == Star {
        FillStar(atoms, stars, i);
        FilledSkip(ascii[..], words, atoms, i);
      } else {
        assert StarsBelow(atoms, i + 1) == StarsBelow(atoms, i);
        FillAtom(atoms, words, ascii, i);
      }
      FilledNext(ascii[..], words, atoms, i);
    }
    a := Automaton(atoms, words, stars[..], ascii[..]);
    assert StarsBelow(atoms, |atoms|) == StarSet(atoms);
    FilledAll(ascii[..], words, atoms);
  }

  lemma {:induction false} FilledNext(ascii: seq<bv64>, words: nat, atoms: seq<Atom>, i: nat)
    requires Filled(ascii, words, atoms, i, 128)
    ensures Filled(ascii, words, atoms, i + 1, 0)
  {}

  lemma {:induction false} FilledAll(ascii: seq<bv64>, words: nat, atoms: seq<Atom>)
    requires Filled(ascii, words, atoms, |atoms|, 0)
    ensures forall c: nat {:trigger Row(ascii, words, c)} :: c < 128 ==> HoldAll(Row(ascii, words, c), MoveSet(atoms, c as char))
  {
    forall c: nat | c < 128
      ensures HoldAll(Row(ascii, words, c), MoveSet(atoms, c as char))
    {
      assert MovesBelow(atoms, c as char, |atoms|) == MoveSet(atoms, c as char);
    }
  }

  /** Runs the automaton over the text, in the words given it for its states. */
  method Run(a: Automaton, text: string, state: array<bv64>, next: array<bv64>, mask: array<bv64>) returns (matched: bool)
    requires a.Valid()
    requires state.Length == next.Length == mask.Length == a.words
    requires state != next && state != mask && next != mask
    requires forall k :: 0 <= k < state.Length ==> state[k] == 0
    modifies state, next, mask
    ensures matched <==> Matches(a.atoms, text)
  {
    var w := a.words;
    Start(a, state);
    LiveStart(a.atoms, text);
    for j := 0 to |text|
      invariant HoldAll(state[..], LiveSet(a.atoms, text, j))
    {
      var c := text[j];
      var accepts;
      if c as int < 128 {
        RowInside(c as nat, w);
        accepts := a.ascii[c as nat * w..c as nat * w + w];
        assert accepts == Row(a.ascii, w, c as nat);
      } else {
        Mask(a.atoms, c, mask);
        accepts := mask[..];
      }
      ghost var live := LiveSet(a.atoms, text, j);
      ghost var stepped := StepSet(live, MoveSet(a.atoms, c), StarSet(a.atoms));
      var empty := Step(a, state, accepts, next, live, MoveSet(a.atoms, c));
      if empty {
        NoWordsNoStates(next[..], stepped, |a.atoms|);
        NothingLive(a.atoms, text, j);
        return false;
      }
      CopyWords(state, next);
      Close(a.stars, state, stepped, StarSet(a.atoms));
      LiveStep(a.atoms, text, j);
    }
    matched := Test(state, |a.atoms|, LiveSet(a.atoms, text, |text|));
    assert |a.atoms| in LiveSet(a.atoms, text, |text|) <==> Live(a.atoms, |a.atoms|, text, |text|);
    PrefixesIsMatches(a.atoms, text);
  }

  /** The words before any text: the first state, and what a leading star reaches. */
  method Start(a: Automaton, state: array<bv64>)
    requires a.Valid() && state.Length == a.words
    requires forall k :: 0 <= k < state.Length ==> state[k] == 0
    modifies state
    ensures HoldAll(state[..], CloseSet({0}, StarSet(a.atoms)))
  {
    HoldNothing(state[..]);
    ghost var was := state[..];
    var one := Words.One(0);
    assert Pos(0) == 0;
    assert was[0] == 0 && Holds(was[0], {}, 0);
    FirstBit(one);
    var word := state[0] | one;
    HoldsOne(state[0], one, 0, word, {}, 0);
    state[0] := 1;
    assert word == 1;
    assert {} + {0} == {0};
    assert state[..] == was[0 := 1];
    HoldAllSet(was, {}, 0, 1);
    Close(a.stars, state, {0}, StarSet(a.atoms));
  }

  lemma {:induction false} FirstBit(one: bv64)
    requires one == Words.One(0)
    ensures one == 1 && 0 | one == 1
  {
    assert Pos(0) == 0;
  }

  method CopyWords(to: array<bv64>, from: array<bv64>)
    requires to.Length == from.Length && to != from
    modifies to
    ensures to[..] == from[..]
  {
    for k := 0 to to.Length
      invariant to[..k] == from[..k]
    {
      to[k] := from[k];
    }
  }

  /** Whether state `i` is live. */
  method Test(state: array<bv64>, i: nat, ghost s: set<nat>) returns (live: bool)
    requires i / 64 < state.Length && HoldAll(state[..], s)
    ensures live <==> i in s
  {
    assert state[i / 64] == state[..][i / 64];
    live := TestWord(state[i / 64], i % 64, s, 64 * (i / 64));
  }

  method TestWord(word: bv64, b: nat, ghost s: set<nat>, ghost base: nat) returns (live: bool)
    requires b < 64 && Holds(word, s, base)
    ensures live <==> base + b in s
  {
    HoldsTest(word, b, s, base);
    live := word & Words.One(b) != 0;
  }

  /** Matches a text with words of its own. */
  method AutomatonMatches(a: Automaton, text: string) returns (matched: bool)
    requires a.Valid()
    ensures matched <==> Matches(a.atoms, text)
  {
    var state := new bv64[a.words](_ => 0);
    var next := new bv64[a.words](_ => 0);
    var mask := new bv64[a.words](_ => 0);
    matched := Run(a, text, state, next, mask);
  }
}
