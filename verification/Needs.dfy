/**
 The limits commands are held to: how many keys there may be, and how many elements in one
 collection; and what each command needs of them.
 */
module Needing {
  import opened Common
  import opened Database
  import opened Commands

  /** The clock a command runs by, and the limits it is held to unless it is replayed. */
  datatype Ctx = Ctx(now: nat, replay: bool, maxKeys: nat, maxElements: nat)

  /** What a command needs: `adds` elements in the one collection it adds to, if there is one, and
      the names it stores under, which may be as many more keys, less those it uses up. */
  datatype Needs = Needs(adds: Option<nat>, writes: set<string>, frees: nat)

  const NOTHING := Needs(None, {}, 0)

  /** What the arity of commands guarantees. */
  predicate WellFormed(c: Command)
  {
    && (c.CPush? ==> c.items != [])
    && (c.CSAdd? ==> c.elements != [])
    && (c.CMSet? ==> c.pairs != [])
  }

  /** No key holds an empty collection. */
  ghost predicate Full(keys: Keys)
  {
    forall k :: k in keys ==> !IsEmptyCollection(keys[k].value)
  }

  function Max(a: nat, b: nat): nat
  {
    if a < b then b else a
  }

  function HeldElements(keys: Keys, key: string): nat
  {
    if key in keys then Elements(keys[key].value) else 0
  }

  /** The names no key holds yet. */
  function Unheld(keys: Keys, names: set<string>): set<string>
  {
    set k | k in names && k !in keys
  }

  /** The keys some pairs name. */
  function Names(pairs: seq<(string, string)>): set<string>
  {
    if pairs == [] then {} else Names(pairs[..|pairs| - 1]) + {pairs[|pairs| - 1].0}
  }

  // ---- what each command needs -----------------------------------------------------------

  function SetNeeds(view: Keys, key: string, when: When): Needs
  {
    var held := if key in view && view[key].value.Str? then Some(view[key].value.s) else None;
    if Allows(when, key in view, held) then Needs(None, {key}, 0) else NOTHING
  }

  function SetNxNeeds(view: Keys, key: string): Needs
  {
    if key in view then NOTHING else Needs(None, {key}, 0)
  }

  function MSetNeeds(view: Keys, pairs: seq<(string, string)>, nx: bool): Needs
  {
    if nx && exists i :: 0 <= i < |pairs| && pairs[i].0 in view then NOTHING else Needs(None, Names(pairs), 0)
  }

  function PushNeeds(view: Keys, key: string, items: seq<string>, onlyExisting: bool): Needs
  {
    if onlyExisting && key !in view then NOTHING else Needs(Some(|ItemsOf(view, key)| + |items|), {key}, 0)
  }

  function InsertNeeds(view: Keys, key: string, pivot: string): Needs
  {
    if pivot in ItemsOf(view, key) then Needs(Some(|ItemsOf(view, key)| + 1), {}, 0) else NOTHING
  }

  /** A list that gives its only item away goes. */
  function MoveNeeds(view: Keys, from: string, to: string): Needs
  {
    var items := ItemsOf(view, from);
    if from == to || items == [] then NOTHING
    else Needs(Some(|ItemsOf(view, to)| + 1), {to}, if |items| == 1 then 1 else 0)
  }

  function SAddNeeds(view: Keys, key: string, elements: seq<string>): Needs
  {
    Needs(Some(|MembersOf(view, key) + All(elements)|), {key}, 0)
  }

  /** An element that is there already takes no room. */
  function SMoveNeeds(view: Keys, from: string, to: string, element: string): Needs
  {
    var members, into := MembersOf(view, from), MembersOf(view, to);
    if from == to || element !in members || element in into then NOTHING
    else Needs(Some(|into| + 1), {to}, if |members| == 1 then 1 else 0)
  }

  function NeedsOf(view: Keys, c: Command): Needs
  {
    match c
    case CSet(key, _, when, _, _) => SetNeeds(view, key, when)
    case CSetNx(key, _) => SetNxNeeds(view, key)
    case CGetSet(key, _) => Needs(None, {key}, 0)
    case CAppend(key, _) => Needs(None, {key}, 0)
    case CMSet(pairs, nx) => MSetNeeds(view, pairs, nx)
    case CPush(key, items, _, onlyExisting) => PushNeeds(view, key, items, onlyExisting)
    case CInsert(key, _, pivot, _) => InsertNeeds(view, key, pivot)
    case CMove(from, to, _, _) => MoveNeeds(view, from, to)
    case CBMove(from, to, _, _) => MoveNeeds(view, from, to)
    case CSAdd(key, elements) => SAddNeeds(view, key, elements)
    case CSMove(from, to, element) => SMoveNeeds(view, from, to, element)
    case _ => NOTHING
  }

  /** The limit that refuses a command, if one does: it means to succeed, and its collection would
      pass the limit, or there would be more keys than the limit and than there are. Expired keys
      still in memory count as keys. */
  function LimitError(before: Keys, ctx: Ctx, meant: Applied, needs: Needs): Option<Error>
  {
    if ctx.replay || meant.reply.Err? then None
    else if needs.adds.Some? && needs.adds.value > ctx.maxElements then Some(ElementLimit)
    else if |before| + |Unheld(before, needs.writes)| - needs.frees > Max(|before|, ctx.maxKeys) then Some(KeyLimit)
    else None
  }

  lemma {:induction false} NothingNeeded(before: Keys, ctx: Ctx, meant: Applied)
    ensures LimitError(before, ctx, meant, NOTHING) == None
  {
    assert Unheld(before, {}) == {};
  }

  /** For a command that makes no key. */
  lemma {:induction false} NoKeyNeeded(before: Keys, ctx: Ctx, meant: Applied, adds: nat)
    ensures LimitError(before, ctx, meant, Needs(Some(adds), {}, 0)) ==
            if !ctx.replay && meant.reply.Ok? && adds > ctx.maxElements then Some(ElementLimit) else None
  {
    assert Unheld(before, {}) == {};
  }

  /** For a command that stores under one name. */
  lemma {:induction false} OneNeeded(before: Keys, ctx: Ctx, meant: Applied, needs: Needs, key: string)
    requires needs.writes == {key} && needs.frees <= 1
    ensures LimitError(before, ctx, meant, needs) ==
            if ctx.replay || meant.reply.Err? then None
            else if needs.adds.Some? && needs.adds.value > ctx.maxElements then Some(ElementLimit)
            else if needs.frees == 0 && key !in before && |before| + 1 > ctx.maxKeys then Some(KeyLimit)
            else None
  {
    assert key in before ==> Unheld(before, {key}) == {};
    assert key !in before ==> Unheld(before, {key}) == {key};
  }

  // ---- what is needed is what is meant ---------------------------------------------------

  /** No collection grew, but for `target`'s. */
  ghost predicate NoneGrew(view: Keys, after: Keys, target: Option<string>)
  {
    forall k :: k in after && target != Some(k) ==> Elements(after[k].value) <= HeldElements(view, k)
  }

  /** No keys are made but those stored under, and those said to be used up are gone; the collection added to comes to
      hold what was said, and no other grows. */
  ghost predicate Meant(view: Keys, after: Keys, needs: Needs, target: Option<string>)
  {
    && after.Keys <= view.Keys + needs.writes
    && NoneGrew(view, after, target)
    && (target.None? ==> needs.adds.None?)
    && (needs.adds.Some? ==>
          && needs.writes <= after.Keys && target.value in after && Elements(after[target.value].value) == needs.adds.value
          && needs.frees == |view.Keys - after.Keys|)
  }

  lemma {:induction false} SameNeeded(view: Keys, target: Option<string>)
    ensures Meant(view, view, NOTHING, target)
  {}

  /** Another value under one key. */
  lemma {:induction false} ValueNeeded(view: Keys, key: string, value: Value, needs: Needs)
    requires !IsEmptyCollection(value) && needs.writes <= {key} && (key in view || needs.writes == {key}) && needs.frees == 0
    requires needs.adds.Some? ==> needs.adds.value == Elements(value)
    ensures Meant(view, WithValue(view, key, value), needs, Some(key))
  {
    assert view.Keys - WithValue(view, key, value).Keys == {};
  }

  /** A value taken from and one added to. */
  lemma {:induction false} BothNeeded(view: Keys, from: string, rest: Value, to: string, value: Value, needs: Needs)
    requires from != to && from in view && !IsEmptyCollection(value)
    requires Elements(rest) <= Elements(view[from].value)
    requires needs.adds.None? ==> to in view && needs.writes == {}
    requires needs.adds.Some? ==>
               needs.adds.value == Elements(value) && needs.writes == {to} && needs.frees == if IsEmptyCollection(rest) then 1 else 0
    ensures Meant(view, WithValue(WithValue(view, from, rest), to, value), needs, Some(to))
  {
    var between := WithValue(view, from, rest);
    var after := WithValue(between, to, value);
    assert view.Keys - after.Keys == if IsEmptyCollection(rest) then {from} else {};
    assert after[to].value == value;
  }

  /** A move says and does what is needed for it. */
  lemma {:induction false} MoveNeeded(view: Keys, from: string, to: string, fromLeft: bool, toLeft: bool)
    requires Full(view) && ApplyMove(view, from, to, fromLeft, toLeft).reply.Ok?
    ensures Meant(view, ApplyMove(view, from, to, fromLeft, toLeft).view, MoveNeeds(view, from, to), Some(to))
  {
    var items := ItemsOf(view, from);
    SameNeeded(view, Some(to));
    if items != [] {
      var (popped, rest) := PoppedItems(items, 1, fromLeft);
      if from == to {
        ValueNeeded(view, to, List(Pushed(rest, popped, toLeft)), NOTHING);
      } else {
        BothNeeded(view, from, List(rest), to, List(Pushed(ItemsOf(view, to), popped, toLeft)), MoveNeeds(view, from, to));
      }
    }
  }

  lemma {:induction false} SMoveNeeded(view: Keys, from: string, to: string, element: string)
    requires Full(view) && ApplySMove(view, from, to, element).reply.Ok?
    ensures Meant(view, ApplySMove(view, from, to, element).view, SMoveNeeds(view, from, to, element), Some(to))
  {
    var members, into := MembersOf(view, from), MembersOf(view, to);
    SameNeeded(view, Some(to));
    if from != to && element in members {
      assert members == (members - {element}) + {element};
      if element in into {
        assert into + {element} == into;
      }
      assert element in into + {element};
      BothNeeded(view, from, Set(members - {element}), to, Set(into + {element}), SMoveNeeds(view, from, to, element));
    }
  }

  lemma {:induction false} PushNeeded(view: Keys, key: string, items: seq<string>, left: bool, onlyExisting: bool)
    requires items != [] && ApplyPush(view, key, items, left, onlyExisting).reply.Ok?
    ensures Meant(view, ApplyPush(view, key, items, left, onlyExisting).view, PushNeeds(view, key, items, onlyExisting), Some(key))
  {
    SameNeeded(view, Some(key));
    if !(onlyExisting && key !in view) {
      ValueNeeded(view, key, List(Pushed(ItemsOf(view, key), items, left)), PushNeeds(view, key, items, onlyExisting));
    }
  }

  lemma {:induction false} InsertNeeded(view: Keys, key: string, before: bool, pivot: string, value: string)
    requires ApplyInsert(view, key, before, pivot, value).reply.Ok?
    ensures Meant(view, ApplyInsert(view, key, before, pivot, value).view, InsertNeeds(view, key, pivot), Some(key))
  {
    SameNeeded(view, Some(key));
    var list := ItemsOf(view, key);
    if pivot in list {
      var i := FirstOf(list, pivot).value + if before then 0 else 1;
      ValueNeeded(view, key, List(list[..i] + [value] + list[i..]), InsertNeeds(view, key, pivot));
    }
  }

  lemma {:induction false} SAddNeeded(view: Keys, key: string, elements: seq<string>)
    requires elements != [] && ApplySAdd(view, key, elements).reply.Ok?
    ensures Meant(view, ApplySAdd(view, key, elements).view, SAddNeeds(view, key, elements), Some(key))
  {
    assert elements[0] in All(elements);
    ValueNeeded(view, key, Set(MembersOf(view, key) + All(elements)), SAddNeeds(view, key, elements));
  }

  lemma {:induction false} PairsStored(view: Keys, pairs: seq<(string, string)>, now: nat)
    ensures var after := StorePairs(view, pairs, now); after.Keys == view.Keys + Names(pairs) && NoneGrew(view, after, None)
  {
    if pairs != [] {
      PairsStored(view, pairs[..|pairs| - 1], now);
    }
  }

  lemma {:induction false} DropsOnly(view: Keys, names: seq<string>)
    ensures var after := DropAll(view, names).0; after.Keys <= view.Keys && NoneGrew(view, after, None)
  {
    if names != [] {
      DropsOnly(view, names[..|names| - 1]);
    }
  }

  lemma {:induction false} BPopsOnly(view: Keys, names: seq<string>, left: bool)
    ensures var after := ApplyBPop(view, names, left).view; after.Keys <= view.Keys && NoneGrew(view, after, None)
  {
    if names != [] {
      BPopsOnly(view, names[1..], left);
    }
  }

  /** The collection a command adds to, if it is one that adds. */
  function Target(c: Command): Option<string>
  {
    match c
    case CPush(key, _, _, _) => Some(key)
    case CInsert(key, _, _, _) => Some(key)
    case CMove(_, to, _, _) => Some(to)
    case CBMove(_, to, _, _) => Some(to)
    case CSAdd(key, _) => Some(key)
    case CSMove(_, to, _) => Some(to)
    case _ => None
  }

  lemma {:induction false} AddsNeeded(view: Keys, c: Command, now: nat)
    requires WellFormed(c) && Full(view) && Target(c).Some? && Apply(view, c, now).reply.Ok?
    ensures Meant(view, Apply(view, c, now).view, NeedsOf(view, c), Target(c))
  {
    match c {
      case CPush(key, items, left, onlyExisting) => PushNeeded(view, key, items, left, onlyExisting);
      case CInsert(key, before, pivot, value) => InsertNeeded(view, key, before, pivot, value);
      case CMove(from, to, fromLeft, toLeft) => MoveNeeded(view, from, to, fromLeft, toLeft);
      case CBMove(from, to, fromLeft, toLeft) => MoveNeeded(view, from, to, fromLeft, toLeft);
      case CSAdd(key, elements) => SAddNeeded(view, key, elements);
      case CSMove(from, to, element) => SMoveNeeded(view, from, to, element);
    }
  }

  lemma {:induction false} SetNeeded(view: Keys, key: string, value: string, when: When, get: bool, expiry: Expiry, now: nat)
    requires ApplySet(view, key, value, when, get, expiry, now).reply.Ok?
    ensures var after := ApplySet(view, key, value, when, get, expiry, now).view; var needs := SetNeeds(view, key, when);
            Meant(view, after, needs, None) && (expiry.Forever? ==> needs.writes <= after.Keys)
  {}

  lemma {:induction false} StringsNeeded(view: Keys, c: Command, now: nat)
    requires c.CMSet? || c.CSet? || c.CSetNx? || c.CGetSet? || c.CAppend?
    requires Apply(view, c, now).reply.Ok?
    ensures Meant(view, Apply(view, c, now).view, NeedsOf(view, c), None)
    ensures NeedsOf(view, c).writes <= Apply(view, c, now).view.Keys || (c.CSet? && !c.expiry.Forever?)
  {
    match c
    case CMSet(pairs, _) => PairsStored(view, pairs, now);
    case CSet(key, value, when, get, expiry) => SetNeeded(view, key, value, when, get, expiry, now);
    case CSetNx(_, _) =>
    case CGetSet(_, _) =>
    case CAppend(_, _) =>
  }

  predicate Inside(c: Command)
  {
    c.CPop? || c.CTrim? || c.CRem? || c.CSetAt? || c.CSRem?
  }

  lemma {:induction false} LessNeeded(view: Keys, key: string, value: Value)
    requires key in view && Elements(value) <= Elements(view[key].value)
    ensures Meant(view, WithValue(view, key, value), NOTHING, None)
  {}

  lemma {:induction false} PopNeeded(view: Keys, key: string, count: Option<nat>, left: bool)
    requires ApplyPop(view, key, count, left).reply.Ok?
    ensures Meant(view, ApplyPop(view, key, count, left).view, NOTHING, None)
  {
    if key in view {
      LessNeeded(view, key, List(PoppedItems(ItemsOf(view, key), if count.Some? then count.value else 1, left).1));
    }
  }

  lemma {:induction false} TrimNeeded(view: Keys, key: string, start: int, stop: int)
    requires ApplyTrim(view, key, start, stop).reply.Ok?
    ensures Meant(view, ApplyTrim(view, key, start, stop).view, NOTHING, None)
  {
    if key in view {
      var list := ItemsOf(view, key);
      var bounds := RangeBounds(start, stop, |list|);
      LessNeeded(view, key, List(if bounds.Some? then list[bounds.value.0..bounds.value.1 + 1] else []));
    }
  }

  lemma {:induction false} RemNeeded(view: Keys, key: string, limit: int, value: string)
    requires ApplyRem(view, key, limit, value).reply.Ok?
    ensures Meant(view, ApplyRem(view, key, limit, value).view, NOTHING, None)
  {
    if key in view {
      LessNeeded(view, key, List(Removed(ItemsOf(view, key), limit, value)));
    }
  }

  lemma {:induction false} SetAtNeeded(view: Keys, key: string, index: int, value: string)
    requires ApplySetAt(view, key, index, value).reply.Ok?
    ensures Meant(view, ApplySetAt(view, key, index, value).view, NOTHING, None)
  {
    var list := ItemsOf(view, key);
    var i := if index < 0 then |list| + index else index;
    LessNeeded(view, key, List(list[i := value]));
  }

  lemma {:induction false} SRemNeeded(view: Keys, key: string, elements: seq<string>)
    requires ApplySRem(view, key, elements).reply.Ok?
    ensures Meant(view, ApplySRem(view, key, elements).view, NOTHING, None)
  {
    if key in view {
      Smaller(MembersOf(view, key) - All(elements), MembersOf(view, key));
      LessNeeded(view, key, Set(MembersOf(view, key) - All(elements)));
    }
  }

  /** No command of these makes a collection larger. */
  lemma {:induction false} InsideNeeded(view: Keys, c: Command, now: nat)
    requires Inside(c) && Apply(view, c, now).reply.Ok?
    ensures Meant(view, Apply(view, c, now).view, NOTHING, None)
  {
    match c
    case CPop(key, count, left) => PopNeeded(view, key, count, left);
    case CTrim(key, start, stop) => TrimNeeded(view, key, start, stop);
    case CRem(key, limit, value) => RemNeeded(view, key, limit, value);
    case CSetAt(key, index, value) => SetAtNeeded(view, key, index, value);
    case CSRem(key, elements) => SRemNeeded(view, key, elements);
  }

  lemma {:induction false} OthersNeeded(view: Keys, c: Command, now: nat)
    requires Target(c).None? && !Inside(c) && !c.CRename? && !c.CMSet? && !c.CSet? && !c.CSetNx? && !c.CGetSet? && !c.CAppend?
    requires Apply(view, c, now).reply.Ok?
    ensures Meant(view, Apply(view, c, now).view, NOTHING, None)
  {
    match c
    case CDel(names) => DropsOnly(view, names);
    case CBPop(names, left) => BPopsOnly(view, names, left);
    case CExpire(_, _, _, _, _) =>
    case CPersist(_) =>
    case CGetEx(_, _) =>
    case CGetDel(_) =>
    case CDelIfEq(_, _) =>
    case CFlush =>
  }

  /** A command that succeeds, other than RENAME, is what it was said to need. The keys it stores under are there,
      unless it is a SET with an expiry, which may have passed. */
  lemma {:induction false} NeedsAreMeant(view: Keys, c: Command, now: nat)
    requires WellFormed(c) && Full(view) && !c.CRename? && Apply(view, c, now).reply.Ok?
    ensures Meant(view, Apply(view, c, now).view, NeedsOf(view, c), Target(c))
    ensures NeedsOf(view, c).writes <= Apply(view, c, now).view.Keys || (c.CSet? && !c.expiry.Forever?)
  {
    if Target(c).Some? {
      AddsNeeded(view, c, now);
    } else if c.CMSet? || c.CSet? || c.CSetNx? || c.CGetSet? || c.CAppend? {
      StringsNeeded(view, c, now);
    } else if Inside(c) {
      InsideNeeded(view, c, now);
    } else {
      OthersNeeded(view, c, now);
    }
  }
}
