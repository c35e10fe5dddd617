/**
 Glob patterns: what a pattern means, and how it is compiled.

 A pattern is read into atoms, runs of `*` merged. `Parse` and `Matches` say what a
 pattern means: the first reads it front to back without merging anything, the second
 tries every way a star can match. `Atoms` and `Class` are the compiler's own loops.
 */
module Glob {

  import opened Common

  datatype Atom =
    | Star
    | One
    | Lit(c: char)
    | Set(negate: bool, ranges: seq<(char, char)>)
  {
    predicate Accepts(c: char)
    {
      match this
      case Star => true
      case One => true
      case Lit(x) => x == c
      case Set(negate, ranges) => InSome(ranges, c) != negate
    }
  }

  predicate InSome(ranges: seq<(char, char)>, c: char)
  {
    exists k :: 0 <= k < |ranges| && ranges[k].0 <= c <= ranges[k].1
  }

  /** Whether the atoms match the whole text: a star matches any run, other atoms one character. */
  predicate Matches(atoms: seq<Atom>, text: string)
    decreases |atoms| + |text|
  {
    if atoms == [] then
      text == []
    else if atoms[0].Star? then
      Matches(atoms[1..], text) || (text != [] && Matches(atoms, text[1..]))
    else
      text != [] && atoms[0].Accepts(text[0]) && Matches(atoms[1..], text[1..])
  }

  // ---- the meaning of a pattern's text -------------------------------------

  datatype Body = Body(ranges: seq<(char, char)>, rest: string)

  function Range(lo: char, hi: char): (char, char)
  {
    if lo <= hi then (lo, hi) else (hi, lo)
  }

  /** The first range of a class, written as one character or as `lo-hi`, and what follows it. */
  function Item(p: string): (r: ((char, char), string))
    requires p != []
    ensures |r.1| < |p|
  {
    ItemFrom(if p[0] == '\\' && |p| > 1 then p[1..] else p)
  }

  /** A range, or a character by itself, and what follows it. */
  function ItemFrom(q: string): (r: ((char, char), string))
    requires q != []
    ensures |r.1| < |q|
  {
    if |q| > 2 && q[1] == '-' && q[2] != ']' then (Range(q[0], q[2]), q[3..])
    else ((q[0], q[0]), q[1..])
  }

  /** The ranges of a class up to its `]`, which belongs to the class when it comes `first`,
      and the pattern after it; nothing when the class is never closed. */
  function ClassBody(p: string, first: bool): (r: Option<Body>)
    ensures r.Some? ==> |r.value.rest| < |p|
    decreases |p|
  {
    if p == [] then None
    else if p[0] == ']' && !first then Some(Body([], p[1..]))
    else
      match ClassBody(Item(p).1, false)
      case None => None
      case Some(body) => Some(Body([Item(p).0] + body.ranges, body.rest))
  }

  /** What a pattern says, one star for each `*`, or nothing if some class has no end. */
  function Parse(p: string): Option<seq<Atom>>
    decreases |p|
  {
    if p == [] then Some([])
    else if p[0] == '*' then Then(Star, Parse(p[1..]))
    else if p[0] == '?' then Then(One, Parse(p[1..]))
    else if p[0] == '[' then
      var negate := |p| > 1 && p[1] == '^';
      var inside := if negate then p[2..] else p[1..];
      match ClassBody(inside, true)
      case None => None
      case Some(body) => Then(Set(negate, body.ranges), Parse(body.rest))
    else if p[0] == '\\' && |p| > 1 then Then(Lit(p[1]), Parse(p[2..]))
    else Then(Lit(p[0]), Parse(p[1..]))
  }

  function Then(atom: Atom, rest: Option<seq<Atom>>): Option<seq<Atom>>
  {
    match rest
    case None => None
    case Some(atoms) => Some([atom] + atoms)
  }

  /** What a pattern means: it matches `text` when it reads as atoms, and those do. */
  predicate Means(pattern: string, text: string)
  {
    Parse(pattern).Some? && Matches(Parse(pattern).value, text)
  }

  // ---- stars merged ---------------------------------------------------------

  predicate NoAdjacentStars(atoms: seq<Atom>)
  {
    forall i :: 0 < i < |atoms| && atoms[i].Star? ==> !atoms[i - 1].Star?
  }

  /** `atoms` after what has been read: a star right after a star is dropped. */
  function Push(read: seq<Atom>, atom: Atom): seq<Atom>
  {
    if atom.Star? && read != [] && read[|read| - 1].Star? then read else read + [atom]
  }

  function Merge(read: seq<Atom>, atoms: seq<Atom>): seq<Atom>
    decreases |atoms|
  {
    if atoms == [] then read else Merge(Push(read, atoms[0]), atoms[1..])
  }

  lemma {:induction false} MergeSeparates(read: seq<Atom>, atoms: seq<Atom>)
    requires NoAdjacentStars(read)
    ensures NoAdjacentStars(Merge(read, atoms))
    decreases |atoms|
  {
    if atoms != [] {
      MergeSeparates(Push(read, atoms[0]), atoms[1..]);
    }
  }

  /** Two stars in a row match what one does. */
  lemma {:induction false} DoubleStar(rest: seq<Atom>, text: string)
    ensures Matches([Star, Star] + rest, text) <==> Matches([Star] + rest, text)
    decreases |text|
  {
    assert ([Star, Star] + rest)[1..] == [Star] + rest;
    if text != [] {
      DoubleStar(rest, text[1..]);
    }
  }

  /** Matching after a common start depends only on what the rest matches. */
  lemma {:induction false} SameAfter(front: seq<Atom>, a: seq<Atom>, b: seq<Atom>, text: string)
    requires forall t :: Matches(a, t) <==> Matches(b, t)
    ensures Matches(front + a, text) <==> Matches(front + b, text)
    decreases |front| + |text|
  {
    if front == [] {
      assert front + a == a && front + b == b;
    } else {
      assert (front + a)[1..] == front[1..] + a && (front + b)[1..] == front[1..] + b;
      if front[0].Star? {
        SameAfter(front[1..], a, b, text);
        if text != [] {
          SameAfter(front, a, b, text[1..]);
        }
      } else if text != [] {
        SameAfter(front[1..], a, b, text[1..]);
      }
    }
  }

  /** Merging runs of stars changes nothing a pattern matches. */
  lemma {:induction false} MergeMatches(read: seq<Atom>, atoms: seq<Atom>, text: string)
    ensures Matches(Merge(read, atoms), text) <==> Matches(read + atoms, text)
    decreases |atoms|
  {
    if atoms == [] {
      assert read + atoms == read;
    } else {
      var rest := atoms[1..];
      MergeMatches(Push(read, atoms[0]), rest, text);
      if Push(read, atoms[0]) == read {
        var front := read[..|read| - 1];
        assert read + rest == front + ([Star] + rest);
        assert read + atoms == front + ([Star, Star] + rest);
        forall t {
          DoubleStar(rest, t);
        }
        SameAfter(front, [Star] + rest, [Star, Star] + rest, text);
      } else {
        assert read + [atoms[0]] + rest == read + atoms;
      }
    }
  }

  // ---- the compiler's loops -------------------------------------------------

  /** Where a class stands once `ranges` of it are read, with `rest` of the pattern to come. */
  ghost predicate Reading(whole: Option<Body>, ranges: seq<(char, char)>, rest: Option<Body>)
  {
    match rest
    case None => whole.None?
    case Some(body) => whole == Some(Body(ranges + body.ranges, body.rest))
  }

  lemma {:induction false} ReadingOn(whole: Option<Body>, ranges: seq<(char, char)>, p: string, first: bool)
    requires p != [] && (p[0] != ']' || first)
    requires Reading(whole, ranges, ClassBody(p, first))
    ensures Reading(whole, ranges + [Item(p).0], ClassBody(Item(p).1, false))
  {
    var next := ClassBody(Item(p).1, false);
    if next.Some? {
      assert ranges + ([Item(p).0] + next.value.ranges) == ranges + [Item(p).0] + next.value.ranges;
    }
  }

  /** The class ends with its `]`, or is never closed. */
  lemma {:induction false} ReadingEnds(whole: Option<Body>, ranges: seq<(char, char)>, p: string, first: bool)
    requires Reading(whole, ranges, ClassBody(p, first)) && (p == [] || (p[0] == ']' && !first))
    ensures if p == [] then whole.None? else whole == Some(Body(ranges, p[1..]))
  {
    assert ranges + [] == ranges;
  }

  lemma {:induction false} ItemAt(p: string, i: nat)
    requires i < |p|
    ensures var j := if p[i] == '\\' && i + 1 < |p| then i + 1 else i;
            Item(p[i..]) == if j + 2 < |p| && p[j + 1] == '-' && p[j + 2] != ']' then (Range(p[j], p[j + 2]), p[j + 3..])
                            else ((p[j], p[j]), p[j + 1..])
  {
    var q := p[i..];
    if q[0] == '\\' && |q| > 1 {
      SuffixOf(p, i, 1);
      ItemUnescaped(p, i + 1);
    } else {
      assert q[0..] == q;
      ItemUnescaped(p, i);
    }
  }

  lemma {:induction false} SuffixOf(p: string, i: nat, n: nat)
    requires i + n <= |p|
    ensures p[i..][n..] == p[i + n..]
  {}

  /** The range that starts at `p[j]`, and what follows it, once an escape is past. */
  lemma {:induction false} ItemUnescaped(p: string, j: nat)
    requires j < |p|
    ensures ItemFrom(p[j..]) == if j + 2 < |p| && p[j + 1] == '-' && p[j + 2] != ']' then (Range(p[j], p[j + 2]), p[j + 3..])
                                else ((p[j], p[j]), p[j + 1..])
  {
    SuffixOf(p, j, 1);
    if j + 2 < |p| {
      SuffixOf(p, j, 3);
    }
  }

  /** The range of a class that starts at `p[i]`, and where the class goes on after it. */
  method NextRange(p: string, at: nat) returns (range: (char, char), next: nat)
    requires at < |p|
    ensures at < next <= |p|
    ensures Item(p[at..]) == (range, p[next..])
  {
    ItemAt(p, at);
    var i := at;
    var lo := p[i];
    if lo == '\\' && i + 1 < |p| {
      i := i + 1;
      lo := p[i];
    }
    if i + 2 < |p| && p[i + 1] == '-' && p[i + 2] != ']' {
      var hi := p[i + 2];
      return if lo <= hi then (lo, hi) else (hi, lo), i + 3;
    }
    return (lo, lo), i + 1;
  }

  /** Reads one class as `ClassBody` says, and tells where its `]` ends; nothing if it has none. */
  method Class(p: string, start: nat) returns (r: Option<(Atom, nat)>)
    requires start < |p| && p[start] == '['
    ensures var negate := start + 1 < |p| && p[start + 1] == '^';
            var body := ClassBody(p[if negate then start + 2 else start + 1..], true);
            match r
            case None => body.None?
            case Some((atom, next)) =>
              && body.Some?
              && start < next <= |p|
              && atom == Set(negate, body.value.ranges)
              && p[next..] == body.value.rest
  {
    var i := start + 1;
    var negate := i < |p| && p[i] == '^';
    if negate {
      i := i + 1;
    }
    var ranges: seq<(char, char)> := [];
    var first := true;
    ghost var whole := ClassBody(p[i..], true);
    assert whole.Some? ==> ranges + whole.value.ranges == whole.value.ranges;
    while i < |p| && (p[i] != ']' || first)
      invariant start < i <= |p|
      invariant Reading(whole, ranges, ClassBody(p[i..], first))
      decreases |p| - i
    {
      ReadingOn(whole, ranges, p[i..], first);
      first := false;
      var range, next := NextRange(p, i);
      ranges, i := ranges + [range], next;
    }
    ReadingEnds(whole, ranges, p[i..], first);
    if i < |p| {
      SuffixOf(p, i, 1);
      return Some((Set(negate, ranges), i + 1));
    }
    return None;
  }

  /** The pattern's atoms, runs of `*` merged. */
  method Atoms(p: string) returns (r: Option<seq<Atom>>)
    ensures r.None? <==> Parse(p).None?
    ensures r.Some? ==> r.value == Merge([], Parse(p).value)
  {
    var out: seq<Atom> := [];
    var i := 0;
    assert p[0..] == p;
    while i < |p|
      invariant 0 <= i <= |p|
      invariant Parse(p).None? <==> Parse(p[i..]).None?
      invariant Parse(p).Some? ==> Merge([], Parse(p).value) == Merge(out, Parse(p[i..]).value)
      decreases |p| - i
    {
      ghost var was := i;
      var atom;
      if p[i] == '*' {
        i := i + 1;
        assert p[was..][1..] == p[i..];
        if out != [] && out[|out| - 1] == Star {
          MergeStep(out, Star, Parse(p[i..]));
          continue;
        }
        atom := Star;
      } else if p[i] == '?' {
        i := i + 1;
        assert p[was..][1..] == p[i..];
        atom := One;
      } else if p[i] == '[' {
        ghost var negate := i + 1 < |p| && p[i + 1] == '^';
        assert (if negate then p[was..][2..] else p[was..][1..]) == p[if negate then i + 2 else i + 1..];
        var found := Class(p, i);
        if found.None? {
          return None;
        }
        atom, i := found.value.0, found.value.1;
      } else if p[i] == '\\' && i + 1 < |p| {
        i := i + 2;
        assert p[was..][2..] == p[i..];
        atom := Lit(p[i - 1]);
      } else {
        i := i + 1;
        assert p[was..][1..] == p[i..];
        atom := Lit(p[i - 1]);
      }
      assert Parse(p[was..]) == Then(atom, Parse(p[i..]));
      MergeStep(out, atom, Parse(p[i..]));
      out := out + [atom];
    }
    return Some(out);
  }

  lemma {:induction false} MergeStep(read: seq<Atom>, atom: Atom, rest: Option<seq<Atom>>)
    ensures rest.Some? ==> Merge(read, Then(atom, rest).value) == Merge(Push(read, atom), rest.value)
  {
    if rest.Some? {
      assert ([atom] + rest.value)[1..] == rest.value;
    }
  }

  // ---- the text every match starts with -------------------------------------

  predicate Special(c: char)
  {
    c == '*' || c == '?' || c == '[' || c == '\\'
  }

  /** Everything before the first wildcard or escape. */
  function LiteralPrefix(pattern: string): (r: string)
    ensures r <= pattern
    ensures forall c :: c in r ==> !Special(c)
    ensures r == pattern || (|r| < |pattern| && Special(pattern[|r|]))
    decreases |pattern|
  {
    if pattern == [] || Special(pattern[0]) then []
    else [pattern[0]] + LiteralPrefix(pattern[1..])
  }

  /** Every text a pattern matches starts with the pattern's literal prefix. */
  lemma {:induction false} LiteralPrefixLeads(pattern: string, text: string)
    requires Means(pattern, text)
    ensures LiteralPrefix(pattern) <= text
    decreases |pattern|
  {
    if pattern != [] && !Special(pattern[0]) {
      var rest := Parse(pattern[1..]);
      assert Parse(pattern) == Then(Lit(pattern[0]), rest);
      assert Parse(pattern).value[1..] == rest.value;
      LiteralPrefixLeads(pattern[1..], text[1..]);
    }
  }

  lemma {:induction false} CommonPrefix(a: string, b: string, whole: string)
    requires a <= whole && b <= whole
    ensures a <= b || b <= a
  {
    if |a| <= |b| {
      assert a == whole[..|a|] == b[..|a|];
    } else {
      assert b == whole[..|b|] == a[..|b|];
    }
  }
}
