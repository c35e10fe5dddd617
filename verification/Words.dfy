/**
 Bitsets kept in 64-bit words.

 The glob automaton keeps one bit per state in an array of words. `Holds` reads one word
 as the part of a set of state numbers that starts at a given one, and the lemmas say
 what each word operation of the automaton does to that set.
 */
module Words {

  /** A bit's number as six bits, the low bits of a shift amount. */
  function Pos(i: nat): bv6
  {
    if i == 0 then 0 else Pos(i - 1) + 1
  }

  predicate BitAt(w: bv64, p: bv6)
  {
    (w >> p) & 1 == 1
  }

  /** Bit `i` of a word, counted from the least significant one. */
  predicate Bit(w: bv64, i: nat)
    requires i < 64
  {
    BitAt(w, Pos(i))
  }

  /** `1u64 << i`. */
  function One(i: nat): bv64
    requires i < 64
  {
    1 << Pos(i)
  }

  /** The word `w` holds the states of `s` from `base` on, one bit each. */
  ghost predicate Holds(w: bv64, s: set<nat>, base: nat)
  {
    forall b: nat {:trigger Bit(w, b)} :: b < 64 ==> (Bit(w, b) <==> base + b in s)
  }

  /** The words hold exactly the states of `s`. */
  ghost predicate HoldAll(ws: seq<bv64>, s: set<nat>)
  {
    forall k: nat {:trigger ws[k]} :: k < |ws| ==> Holds(ws[k], s, 64 * k)
  }

  /** Every state of `s`, one further. */
  ghost function Up(s: set<nat>): set<nat>
  {
    set x | x in s :: x + 1
  }

  // ---- positions ------------------------------------------------------------

  lemma {:induction false} Succ(p: bv6)
    requires p as int < 63
    ensures (p + 1) as int == p as int + 1
  {}

  lemma {:induction false} Position(i: nat)
    requires i < 64
    ensures Pos(i) as int == i
  {
    if i > 0 {
      Position(i - 1);
      Succ(Pos(i - 1));
    }
  }

  lemma {:induction false} PositionEdges(i: nat)
    requires i < 64
    ensures Pos(i) == 0 <==> i == 0
    ensures Pos(63) == 63
    ensures i > 0 ==> Pos(i) - 1 == Pos(i - 1)
  {
    Position(i);
    Position(63);
  }

  lemma {:induction false} PositionInjective(i: nat, j: nat)
    requires i < 64 && j < 64
    ensures Pos(i) == Pos(j) <==> i == j
  {
    Position(i);
    Position(j);
  }

  // ---- one bit of one operation ---------------------------------------------

  lemma {:induction false} OneAt(p: bv6, q: bv6)
    ensures BitAt(1 << p, q) <==> p == q
  {}

  lemma {:induction false} OrAt(a: bv64, b: bv64, p: bv6)
    ensures BitAt(a | b, p) <==> BitAt(a, p) || BitAt(b, p)
  {}

  lemma {:induction false} AndAt(a: bv64, b: bv64, p: bv6)
    ensures BitAt(a & b, p) <==> BitAt(a, p) && BitAt(b, p)
  {}

  lemma {:induction false} UpAt(a: bv64, p: bv6)
    ensures BitAt(a << 1, p) <==> p > 0 && BitAt(a, p - 1)
  {}

  lemma {:induction false} TopAt(a: bv64, p: bv6)
    ensures BitAt(a >> 63, p) <==> p == 0 && BitAt(a, 63)
  {}

  lemma {:induction false} TestAt(w: bv64, p: bv6)
    ensures w & (1 << p) != 0 <==> BitAt(w, p)
  {}

  lemma {:induction false} ZeroAt(p: bv6)
    ensures !BitAt(0, p)
  {}

  // ---- one word ---------------------------------------------------------------

  /** No state of `s` falls in the word starting at `base`. */
  ghost predicate Missing(s: set<nat>, base: nat)
  {
    forall x :: x in s ==> x < base || base + 64 <= x
  }

  lemma {:induction false} HoldsZero(s: set<nat>, base: nat, w: bv64)
    requires w == 0
    ensures Holds(w, s, base) <==> Missing(s, base)
  {
    forall b: nat {:trigger Bit(w, b)} | b < 64
      ensures !Bit(w, b)
    {
      ZeroAt(Pos(b));
    }
    if !Missing(s, base) {
      var x :| x in s && base <= x < base + 64;
      assert !Bit(w, x - base) && base + (x - base) in s;
    }
  }

  lemma {:induction false} HoldsAnd(a: bv64, b: bv64, w: bv64, s: set<nat>, t: set<nat>, base: nat)
    requires Holds(a, s, base) && Holds(b, t, base) && w == a & b
    ensures Holds(w, s * t, base)
  {
    forall i: nat {:trigger Bit(w, i)} | i < 64
      ensures Bit(w, i) <==> Bit(a, i) && Bit(b, i)
    {
      AndAt(a, b, Pos(i));
    }
  }

  lemma {:induction false} HoldsOr(a: bv64, b: bv64, w: bv64, s: set<nat>, t: set<nat>, base: nat)
    requires Holds(a, s, base) && Holds(b, t, base) && w == a | b
    ensures Holds(w, s + t, base)
  {
    forall i: nat {:trigger Bit(w, i)} | i < 64
      ensures Bit(w, i) <==> Bit(a, i) || Bit(b, i)
    {
      OrAt(a, b, Pos(i));
    }
  }

  /** Moving a word up by one leaves out what the word below carries. */
  lemma {:induction false} HoldsUp(a: bv64, w: bv64, s: set<nat>, base: nat)
    requires Holds(a, s, base) && w == a << 1
    ensures Holds(w, Up(s) - {base}, base)
  {
    forall i: nat {:trigger Bit(w, i)} | i < 64
      ensures Bit(w, i) <==> i > 0 && Bit(a, i - 1)
      ensures i > 0 ==> (Bit(a, i - 1) <==> base + i in Up(s))
    {
      PositionEdges(i);
      UpAt(a, Pos(i));
      if i > 0 && base + i in Up(s) {
        assert base + (i - 1) in s;
      }
    }
  }

  /** What a word carries into the next one is its top bit. */
  lemma {:induction false} HoldsCarry(a: bv64, w: bv64, s: set<nat>, base: nat)
    requires Holds(a, s, base) && w == a >> 63
    ensures Holds(w, Up(s) * {base + 64}, base + 64)
  {
    forall i: nat {:trigger Bit(w, i)} | i < 64
      ensures Bit(w, i) <==> i == 0 && Bit(a, 63)
    {
      PositionEdges(i);
      TopAt(a, Pos(i));
    }
    assert Bit(a, 63) <==> base + 63 in s;
    assert base + 63 in s <==> base + 64 in Up(s);
  }

  lemma {:induction false} HoldsOne(w: bv64, one: bv64, i: nat, sum: bv64, s: set<nat>, base: nat)
    requires Holds(w, s, base) && i < 64 && one == One(i) && sum == w | one
    ensures Holds(sum, s + {base + i}, base)
  {
    forall j: nat {:trigger Bit(one, j)} | j < 64
      ensures Bit(one, j) <==> i == j
    {
      PositionInjective(i, j);
      OneAt(Pos(i), Pos(j));
    }
    assert Holds(one, {base + i}, base);
    HoldsOr(w, one, sum, s, {base + i}, base);
  }

  lemma {:induction false} HoldsTest(w: bv64, i: nat, s: set<nat>, base: nat)
    requires Holds(w, s, base) && i < 64
    ensures w & One(i) != 0 <==> base + i in s
  {
    TestBit(w, i);
    assert Bit(w, i) <==> base + i in s;
  }

  lemma {:induction false} TestBit(w: bv64, i: nat)
    requires i < 64
    ensures w & One(i) != 0 <==> Bit(w, i)
  {
    TestAt(w, Pos(i));
  }

  lemma {:induction false} OrZero(a: bv64, b: bv64)
    requires a | b == 0
    ensures a == 0 && b == 0
  {}
}
