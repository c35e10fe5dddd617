/**
 Compiled patterns: the cheapest way to match a pattern's atoms, and that every way
 means what the pattern means.
 */
module GlobMatcher {
  import opened Common
  import opened Glob
  import opened Automaton

  datatype Kind =
    | Any
    | Exact(s: string)
    | Prefix(s: string)
    | Suffix(s: string)
    | Contains(s: string)
    | Never
    | Auto(a: Automaton)

  predicate EndsWith(text: string, s: string)
  {
    |s| <= |text| && text[|text| - |s|..] == s
  }

  predicate Within(text: string, s: string)
  {
    exists k :: 0 <= k <= |text| && s <= text[k..]
  }

  /** The texts a kind stands for. */
  ghost predicate KindMeans(kind: Kind, text: string)
  {
    match kind
    case Any => true
    case Exact(s) => text == s
    case Prefix(s) => s <= text
    case Suffix(s) => EndsWith(text, s)
    case Contains(s) => Within(text, s)
    case Never => false
    case Auto(a) => Matches(a.atoms, text)
  }

  ghost predicate ValidKind(kind: Kind)
  {
    kind.Auto? ==> kind.a.Valid()
  }

  /** The text these atoms spell, when each is a character. */
  function Literal(atoms: seq<Atom>): Option<string>
  {
    if atoms == [] then Some([])
    else if !atoms[0].Lit? then None
    else
      match Literal(atoms[1..])
      case None => None
      case Some(s) => Some([atoms[0].c] + s)
  }

  // ---- what the special forms match ------------------------------------------

  /** Characters are matched one for one, and the rest goes on after them. */
  lemma {:induction false} LiteralThen(atoms: seq<Atom>, rest: seq<Atom>, text: string)
    requires Literal(atoms).Some?
    ensures var s := Literal(atoms).value;
            Matches(atoms + rest, text) <==> s <= text && Matches(rest, text[|s|..])
    decreases |atoms|
  {
    var s := Literal(atoms).value;
    if atoms == [] {
      assert atoms + rest == rest && text[0..] == text;
    } else {
      assert (atoms + rest)[1..] == atoms[1..] + rest;
      if text != [] {
        LiteralThen(atoms[1..], rest, text[1..]);
        if s <= text || s[1..] <= text[1..] {
          assert text[1..][|s| - 1..] == text[|s|..];
        }
      }
    }
  }

  /** A star matches any run of characters, and the rest goes on after it. */
  lemma {:induction false} StarThen(rest: seq<Atom>, text: string)
    ensures Matches([Star] + rest, text) <==> exists k :: 0 <= k <= |text| && Matches(rest, text[k..])
    decreases |text|
  {
    assert ([Star] + rest)[1..] == rest;
    assert text[0..] == text;
    if text != [] {
      StarThen(rest, text[1..]);
      if Matches([Star] + rest, text[1..]) {
        var k :| 0 <= k <= |text[1..]| && Matches(rest, text[1..][k..]);
        assert text[1..][k..] == text[k + 1..];
      }
      forall k | 0 < k <= |text| && Matches(rest, text[k..])
        ensures Matches([Star] + rest, text)
      {
        assert text[1..][k - 1..] == text[k..];
      }
    }
  }

  lemma {:induction false} StarAlone(text: string)
    ensures Matches([Star], text)
  {
    StarThen([], text);
    assert [Star] + [] == [Star];
    assert text[|text|..] == [];
  }

  lemma {:induction false} ExactMeans(atoms: seq<Atom>, text: string)
    requires Literal(atoms).Some?
    ensures Matches(atoms, text) <==> text == Literal(atoms).value
  {
    LiteralThen(atoms, [], text);
    assert atoms + [] == atoms;
  }

  lemma {:induction false} PrefixMeans(inner: seq<Atom>, text: string)
    requires Literal(inner).Some?
    ensures Matches(inner + [Star], text) <==> Literal(inner).value <= text
  {
    LiteralThen(inner, [Star], text);
    if Literal(inner).value <= text {
      StarAlone(text[|Literal(inner).value|..]);
    }
  }

  lemma {:induction false} SuffixMeans(inner: seq<Atom>, text: string)
    requires Literal(inner).Some?
    ensures Matches([Star] + inner, text) <==> EndsWith(text, Literal(inner).value)
  {
    var s := Literal(inner).value;
    StarThen(inner, text);
    forall k | 0 <= k <= |text|
      ensures Matches(inner, text[k..]) <==> text[k..] == s
    {
      ExactMeans(inner, text[k..]);
    }
    if EndsWith(text, s) {
      assert text[|text| - |s|..] == s;
    }
  }

  lemma {:induction false} ContainsMeans(inner: seq<Atom>, text: string)
    requires Literal(inner).Some?
    ensures Matches([Star] + inner + [Star], text) <==> Within(text, Literal(inner).value)
  {
    assert [Star] + inner + [Star] == [Star] + (inner + [Star]);
    StarThen(inner + [Star], text);
    forall k | 0 <= k <= |text|
      ensures Matches(inner + [Star], text[k..]) <==> Literal(inner).value <= text[k..]
    {
      PrefixMeans(inner, text[k..]);
    }
  }

  // ---- compiling and matching ------------------------------------------------

  predicate IsLast(atoms: seq<Atom>)
  {
    atoms != [] && atoms[|atoms| - 1] == Star
  }

  predicate IsFirst(atoms: seq<Atom>)
  {
    atoms != [] && atoms[0] == Star
  }

  /** A form that means what the atoms mean, without the automaton wherever there is one. */
  method Classify(atoms: seq<Atom>) returns (kind: Kind)
    requires NoAdjacentStars(atoms)
    ensures ValidKind(kind)
    ensures forall text :: KindMeans(kind, text) <==> Matches(atoms, text)
  {
    var n := |atoms|;
    if n == 1 && IsFirst(atoms) {
      forall text ensures Matches(atoms, text) {
        StarAlone(text);
        assert atoms == [Star];
      }
      return Any;
    }
    var whole := Literal(atoms);
    if whole.Some? {
      forall text ensures Matches(atoms, text) <==> text == whole.value {
        ExactMeans(atoms, text);
      }
      return Exact(whole.value);
    }
    if n >= 2 {
      var head, tail := IsFirst(atoms), IsLast(atoms);
      var inner := atoms[if head then 1 else 0..if tail then n - 1 else n];
      var literal := Literal(inner);
      if literal.Some? {
        if !head && tail {
          assert atoms == inner + [Star];
          forall text ensures Matches(atoms, text) <==> literal.value <= text {
            PrefixMeans(inner, text);
          }
          return Prefix(literal.value);
        } else if head && !tail {
          assert atoms == [Star] + inner;
          forall text ensures Matches(atoms, text) <==> EndsWith(text, literal.value) {
            SuffixMeans(inner, text);
          }
          return Suffix(literal.value);
        } else if head && tail {
          assert atoms == [Star] + inner + [Star];
          forall text ensures Matches(atoms, text) <==> Within(text, literal.value) {
            ContainsMeans(inner, text);
          }
          return Contains(literal.value);
        }
      }
    }
    var a := Build(atoms);
    return Auto(a);
  }

  /** A pattern compiled. */
  method Compile(pattern: string) returns (kind: Kind)
    ensures ValidKind(kind)
    ensures forall text :: KindMeans(kind, text) <==> Means(pattern, text)
  {
    var atoms := Atoms(pattern);
    if atoms.None? {
      return Never;
    }
    MergeSeparates([], Parse(pattern).value);
    kind := Classify(atoms.value);
    forall text
      ensures Matches(atoms.value, text) <==> Matches(Parse(pattern).value, text)
    {
      MergeMatches([], Parse(pattern).value, text);
      assert [] + Parse(pattern).value == Parse(pattern).value;
    }
  }

  method KindMatches(kind: Kind, text: string) returns (matched: bool)
    requires ValidKind(kind)
    ensures matched <==> KindMeans(kind, text)
  {
    match kind
    case Any => matched := true;
    case Exact(s) => matched := text == s;
    case Prefix(s) => matched := s <= text;
    case Suffix(s) => matched := EndsWith(text, s);
    case Contains(s) => matched := Within(text, s);
    case Never => matched := false;
    case Auto(a) => matched := AutomatonMatches(a, text);
  }

  /** Whether a pattern matches a text: compiled, then run. */
  method GlobMatches(pattern: string, text: string) returns (matched: bool)
    ensures matched <==> Means(pattern, text)
  {
    var kind := Compile(pattern);
    matched := KindMatches(kind, text);
  }

  // ---- key-change subscriptions ----------------------------------------------

  const KEY_CHANNELS := "__key"

  /** True unless no channel that tells of a key change can match. */
  predicate HearsKeys(channels: seq<string>, patterns: seq<string>)
  {
    || (exists i :: 0 <= i < |channels| && KEY_CHANNELS <= channels[i])
    || (exists i :: 0 <= i < |patterns| &&
          (LiteralPrefix(patterns[i]) <= KEY_CHANNELS || KEY_CHANNELS <= LiteralPrefix(patterns[i])))
  }

  /** A subscription that is not told of key changes would match no key-change channel. */
  lemma {:induction false} HearsKeysMissesNone(channels: seq<string>, patterns: seq<string>, channel: string)
    requires KEY_CHANNELS <= channel
    requires channel in channels || exists i :: 0 <= i < |patterns| && Means(patterns[i], channel)
    ensures HearsKeys(channels, patterns)
  {
    if channel in channels {
      var i :| 0 <= i < |channels| && channels[i] == channel;
    } else {
      var i :| 0 <= i < |patterns| && Means(patterns[i], channel);
      LiteralPrefixLeads(patterns[i], channel);
      CommonPrefix(LiteralPrefix(patterns[i]), KEY_CHANNELS, channel);
    }
  }
}
