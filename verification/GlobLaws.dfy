/**
 What patterns match, said of their own text: each law takes a pattern apart at its first wildcard,
 escape, class or plain character.
 */
module GlobLaws {
  import opened Common
  import opened Glob
  import GlobMatcher

  lemma {:induction false} NothingMeans(text: string)
    ensures Means("", text) <==> text == ""
  {}

  lemma {:induction false} StarMeans(pattern: string, text: string)
    ensures Means("*" + pattern, text) <==> exists k :: 0 <= k <= |text| && Means(pattern, text[k..])
  {
    assert ("*" + pattern)[1..] == pattern;
    if Parse(pattern).Some? {
      GlobMatcher.StarThen(Parse(pattern).value, text);
    }
  }

  /** An atom other than a star takes one character, and the rest goes on after it. */
  lemma {:induction false} OneTaken(atom: Atom, rest: Option<seq<Atom>>, text: string)
    requires !atom.Star?
    ensures var atoms := Then(atom, rest);
            (atoms.Some? && Matches(atoms.value, text)) <==>
            (text != [] && atom.Accepts(text[0]) && rest.Some? && Matches(rest.value, text[1..]))
  {
    if rest.Some? {
      assert ([atom] + rest.value)[1..] == rest.value;
    }
  }

  lemma {:induction false} AnyMeans(pattern: string, text: string)
    ensures Means("?" + pattern, text) <==> text != "" && Means(pattern, text[1..])
  {
    assert ("?" + pattern)[1..] == pattern;
    OneTaken(One, Parse(pattern), text);
  }

  lemma {:induction false} PlainMeans(c: char, pattern: string, text: string)
    requires c != '*' && c != '?' && c != '[' && c != '\\'
    ensures Means([c] + pattern, text) <==> text != "" && text[0] == c && Means(pattern, text[1..])
  {
    assert ([c] + pattern)[1..] == pattern;
    OneTaken(Lit(c), Parse(pattern), text);
  }

  lemma {:induction false} EscapeMeans(c: char, pattern: string, text: string)
    ensures Means(['\\', c] + pattern, text) <==> text != "" && text[0] == c && Means(pattern, text[1..])
  {
    assert (['\\', c] + pattern)[2..] == pattern;
    OneTaken(Lit(c), Parse(pattern), text);
  }

  /** A backslash that ends a pattern stands for itself. */
  lemma {:induction false} LastBackslashMeans(text: string)
    ensures Means("\\", text) <==> text == "\\"
  {
    assert "\\"[1..] == "";
    OneTaken(Lit('\\'), Some([]), text);
  }

  // ---- classes -----------------------------------------------------------------------------

  /** What a class may list: a character, one after a backslash, or all between two. */
  datatype Listed = Single(c: char) | Escaped(c: char) | Span(lo: char, hi: char)
  {
    function Text(): string
    {
      match this
      case Single(c) => [c]
      case Escaped(c) => ['\\', c]
      case Span(lo, hi) => [lo, '-', hi]
    }

    predicate Holds(x: char)
    {
      match this
      case Single(c) => x == c
      case Escaped(c) => x == c
      case Span(lo, hi) => lo <= x <= hi || hi <= x <= lo
    }

    /** From what it holds to what it holds, in order. */
    function Ends(): (char, char)
    {
      match this
      case Single(c) => (c, c)
      case Escaped(c) => (c, c)
      case Span(lo, hi) => if lo <= hi then (lo, hi) else (hi, lo)
    }

    /** It reads as what it is, wherever in a class it stands; a `]` only as the first. */
    predicate Plain(first: bool)
    {
      match this
      case Single(c) => c != '-' && c != '\\' && (first || c != ']')
      case Escaped(c) => true
      case Span(lo, hi) => lo != '-' && lo != '\\' && (first || lo != ']') && hi != ']'
    }
  }

  function TextOf(items: seq<Listed>): string
  {
    if items == [] then "" else items[0].Text() + TextOf(items[1..])
  }

  ghost function RangesOf(items: seq<Listed>): seq<(char, char)>
  {
    if items == [] then [] else [items[0].Ends()] + RangesOf(items[1..])
  }

  ghost predicate PlainAll(items: seq<Listed>, first: bool)
  {
    forall i :: 0 <= i < |items| ==> items[i].Plain(first && i == 0)
  }

  predicate HoldsOne(items: seq<Listed>, x: char)
  {
    exists i :: 0 <= i < |items| && items[i].Holds(x)
  }

  lemma {:induction false} RangesHold(items: seq<Listed>, x: char)
    ensures InSome(RangesOf(items), x) <==> HoldsOne(items, x)
  {
    if items != [] {
      var ranges, later := RangesOf(items), RangesOf(items[1..]);
      RangesHold(items[1..], x);
      assert ranges[1..] == later;
      if InSome(later, x) {
        var k :| 0 <= k < |later| && later[k].0 <= x <= later[k].1;
        assert ranges[k + 1] == later[k];
      }
      if HoldsOne(items[1..], x) {
        var i :| 0 <= i < |items[1..]| && items[1..][i].Holds(x);
        assert items[i + 1].Holds(x);
      }
      if items[0].Holds(x) {
        assert ranges[0].0 <= x <= ranges[0].1;
      }
    }
  }

  /** What follows the first thing listed starts with no `-`. */
  lemma {:induction false} FollowsNoDash(items: seq<Listed>, after: string)
    requires PlainAll(items, false)
    ensures var text := TextOf(items) + "]" + after; text != [] && text[0] != '-'
  {
    if items != [] {
      assert items[0].Plain(false);
    }
  }

  lemma {:induction false} ItemRead(item: Listed, first: bool, after: string)
    requires item.Plain(first) && after != [] && after[0] != '-'
    ensures Item(item.Text() + after) == (item.Ends(), after)
  {
    var p := item.Text() + after;
    match item {
      case Single(c) => assert p[1..] == after;
      case Escaped(c) =>
        assert p[1..] == [c] + after;
        assert ([c] + after)[1..] == after;
      case Span(lo, hi) => assert p[3..] == after;
    }
  }

  lemma {:induction false} BodyRead(items: seq<Listed>, first: bool, after: string)
    requires PlainAll(items, first) && (first ==> items != [])
    ensures ClassBody(TextOf(items) + "]" + after, first) == Some(Body(RangesOf(items), after))
    decreases |items|
  {
    var p := TextOf(items) + "]" + after;
    if items == [] {
      assert p == "]" + after && p[1..] == after;
    } else {
      var later := TextOf(items[1..]) + "]" + after;
      assert items[0].Plain(first);
      forall i | 0 <= i < |items[1..]| ensures items[1..][i].Plain(false) {
        assert items[i + 1].Plain(first && i + 1 == 0);
      }
      FollowsNoDash(items[1..], after);
      assert p == items[0].Text() + later;
      ItemRead(items[0], first, later);
      BodyRead(items[1..], false, after);
    }
  }

  /** A class takes one character: one of those listed, or none of them after a `^`. */
  lemma {:induction false} ClassMeans(negate: bool, items: seq<Listed>, pattern: string, text: string)
    requires items != [] && PlainAll(items, true) && (negate || items[0].Text()[0] != '^')
    ensures Means((if negate then "[^" else "[") + TextOf(items) + "]" + pattern, text) <==>
            text != "" && HoldsOne(items, text[0]) != negate && Means(pattern, text[1..])
  {
    var inside := TextOf(items) + "]" + pattern;
    var p := (if negate then "[^" else "[") + TextOf(items) + "]" + pattern;
    assert p == (if negate then "[^" else "[") + inside;
    assert inside[0] == items[0].Text()[0];
    assert p[if negate then 2 else 1..] == inside;
    BodyRead(items, true, pattern);
    OneTaken(Set(negate, RangesOf(items)), Parse(pattern), text);
    if text != "" {
      RangesHold(items, text[0]);
    }
  }

  function Singles(s: string): (items: seq<Listed>)
    ensures |items| == |s| && forall i :: 0 <= i < |s| ==> items[i] == Single(s[i])
  {
    seq(|s|, i requires 0 <= i < |s| => Single(s[i]))
  }

  lemma {:induction false} SinglesText(s: string)
    ensures TextOf(Singles(s)) == s
  {
    if s != [] {
      assert Singles(s)[1..] == Singles(s[1..]);
      SinglesText(s[1..]);
    }
  }

  lemma {:induction false} SinglesMean(negate: bool, s: string, c: char)
    requires s != "" && ']' !in s && '\\' !in s && '-' !in s && (negate || s[0] != '^')
    ensures Means((if negate then "[^" else "[") + s + "]", [c]) <==> (c in s) != negate
  {
    var p := (if negate then "[^" else "[") + s + "]";
    SinglesText(s);
    NothingMeans([]);
    ClassMeans(negate, Singles(s), "", [c]);
    assert p + "" == p;
    if c in s {
      var i :| 0 <= i < |s| && s[i] == c;
      assert Singles(s)[i].Holds(c);
    }
  }

  /** A class of characters matches those, and with a `^` all others. */
  lemma {:induction false} ListMeans(s: string, c: char)
    requires s != "" && ']' !in s && '\\' !in s && '-' !in s
    ensures s[0] != '^' ==> (Means("[" + s + "]", [c]) <==> c in s)
    ensures Means("[^" + s + "]", [c]) <==> c !in s
  {
    SinglesMean(true, s, c);
    if s[0] != '^' {
      SinglesMean(false, s, c);
    }
  }

  /** A range matches what lies between its ends, whichever comes first. */
  lemma {:induction false} SpanMeans(lo: char, hi: char, c: char)
    requires lo != ']' && lo != '\\' && lo != '-' && hi != ']'
    ensures lo != '^' ==> (Means(['[', lo, '-', hi, ']'], [c]) <==> lo <= c <= hi || hi <= c <= lo)
    ensures Means(['[', '^', lo, '-', hi, ']'], [c]) <==> !(lo <= c <= hi || hi <= c <= lo)
  {
    var items := [Span(lo, hi)];
    assert items[1..] == [] && TextOf(items) == [lo, '-', hi];
    assert items[0].Holds(c) <==> HoldsOne(items, c);
    NothingMeans([]);
    assert "[" + [lo, '-', hi] + "]" + "" == ['[', lo, '-', hi, ']'];
    assert "[^" + [lo, '-', hi] + "]" + "" == ['[', '^', lo, '-', hi, ']'];
    if lo != '^' {
      ClassMeans(false, items, "", [c]);
    }
    ClassMeans(true, items, "", [c]);
  }

  // ---- classes that never close ---------------------------------------------------------------

  lemma {:induction false} NeverClosed(p: string, first: bool)
    requires ']' !in p
    ensures ClassBody(p, first).None?
    decreases |p|
  {
    if p != [] {
      var rest := Item(p).1;
      assert rest == p[|p| - |rest|..];
      NeverClosed(rest, false);
    }
  }

  /** A pattern with a `[` and no `]` after it matches nothing. */
  lemma {:induction false} UnclosedMeans(pattern: string, text: string)
    requires ']' !in pattern
    ensures !Means("[" + pattern, text)
  {
    var negate := pattern != "" && pattern[0] == '^';
    assert ("[" + pattern)[1..] == pattern;
    if negate {
      assert ("[" + pattern)[2..] == pattern[1..];
    }
    NeverClosed(if negate then pattern[1..] else pattern, true);
  }
}
