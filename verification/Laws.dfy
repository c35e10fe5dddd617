/**
 What the meaning of commands is for: nothing is lost, made up or half done.

 `Commands` says what each command does to the live keys. The laws here relate commands to each other
 and to what a client may rely on, without looking at how a result is worked out.
 */
module Laws {
  import opened Common
  import opened Database
  import opened Commands

  // ---- lists ----------------------------------------------------------------------------

  lemma {:induction false} ReversedOnto<T>(a: seq<T>, b: seq<T>)
    ensures Reversed(a + b) == Reversed(b) + Reversed(a)
  {
    if a == [] {
      assert a + b == b;
      assert Reversed(a) == [];
    } else {
      assert (a + b)[0] == a[0] && (a + b)[1..] == a[1..] + b;
      ReversedOnto(a[1..], b);
    }
  }

  lemma {:induction false} ReversedTwice<T>(a: seq<T>)
    ensures Reversed(Reversed(a)) == a
  {
    if a != [] {
      ReversedOnto(Reversed(a[1..]), [a[0]]);
      ReversedTwice(a[1..]);
      assert Reversed([a[0]]) == [a[0]];
      assert a == [a[0]] + a[1..];
    }
  }

  lemma {:induction false} ReversedHolds<T>(a: seq<T>)
    ensures multiset(Reversed(a)) == multiset(a)
  {
    if a != [] {
      ReversedHolds(a[1..]);
      assert a == [a[0]] + a[1..];
    }
  }

  /** What comes off an end and what stays make up the list, nothing out of its place. */
  lemma {:induction false} PoppedWhole(list: seq<string>, n: nat, left: bool)
    ensures var (popped, rest) := PoppedItems(list, n, left);
            && |popped| == (if n < |list| then n else |list|)
            && list == if left then popped + rest else rest + Reversed(popped)
  {
    if !left {
      var k := Least(n, |list|);
      ReversedTwice(list[|list| - k..]);
    }
  }

  /** Pushing items and popping as many off the same end gives them back, last pushed first, and leaves the
      list as it was. */
  lemma {:induction false} PushThenPop(list: seq<string>, items: seq<string>, left: bool)
    ensures PoppedItems(Pushed(list, items, left), |items|, left) == (Reversed(items), list)
  {
    var pushed := Pushed(list, items, left);
    if left {
      assert pushed[..|items|] == Reversed(items) && pushed[|items|..] == list;
    } else {
      assert pushed[|pushed| - |items|..] == items && pushed[..|pushed| - |items|] == list;
    }
  }

  lemma {:induction false} KeptBack(view: Keys, key: string, list: seq<string>, more: seq<string>)
    requires more != [] && !NotList(view, key) && list == ItemsOf(view, key) && (key in view ==> list != [])
    ensures WithValue(WithValue(view, key, List(more)), key, List(list)) == view
  {
    var there := WithValue(view, key, List(more));
    if key in view {
      assert there[key].(value := List(list)) == view[key];
      assert there[key := view[key]] == view;
    } else {
      assert there - {key} == view;
    }
  }

  /** LPUSH then LPOP of as many, or RPUSH then RPOP, gives the items back and leaves the keys as they were. */
  lemma {:induction false} PushPopRestores(view: Keys, key: string, items: seq<string>, left: bool)
    requires items != [] && !NotList(view, key) && (key in view ==> ItemsOf(view, key) != [])
    ensures var pushed := ApplyPush(view, key, items, left, false);
            && pushed.reply == Ok(Int(|ItemsOf(view, key)| + |items|))
            && ApplyPop(pushed.view, key, Some(|items|), left) == Applied(view, Ok(Bulks(Reversed(items))))
  {
    var list := ItemsOf(view, key);
    PushThenPop(list, items, left);
    var pushed := ApplyPush(view, key, items, left, false).view;
    var more := Pushed(list, items, left);
    assert more != [];
    KeptBack(view, key, list, more);
    assert ItemsOf(pushed, key) == more;
  }

  /** What two lists hold, counted once if they are one. */
  ghost function Held(view: Keys, a: string, b: string): multiset<string>
  {
    if a == b then multiset(ItemsOf(view, a)) else multiset(ItemsOf(view, a)) + multiset(ItemsOf(view, b))
  }

  /** No key but two has changed. */
  ghost predicate Elsewhere(before: Keys, after: Keys, a: string, b: string)
  {
    forall k :: k != a && k != b ==> (k in after <==> k in before) && (k in before ==> after[k] == before[k])
  }

  /** LMOVE moves one item: between them the two lists keep what they hold, and no other key changes. */
  lemma {:induction false} MoveConserves(view: Keys, from: string, to: string, fromLeft: bool, toLeft: bool)
    requires !NotList(view, from) && !NotList(view, to)
    ensures var after := ApplyMove(view, from, to, fromLeft, toLeft).view;
            Held(after, from, to) == Held(view, from, to) && Elsewhere(view, after, from, to)
  {
    if from in view && ItemsOf(view, from) != [] {
      var (popped, rest) := PoppedItems(ItemsOf(view, from), 1, fromLeft);
      PoppedHolds(ItemsOf(view, from), 1, fromLeft);
      var list := if from == to then rest else ItemsOf(view, to);
      PushedHolds(list, popped, toLeft);
      MovedItems(view, from, to, rest, Pushed(list, popped, toLeft));
    }
  }

  lemma {:induction false} PoppedHolds(list: seq<string>, n: nat, left: bool)
    ensures var (popped, rest) := PoppedItems(list, n, left);
            multiset(list) == multiset(popped) + multiset(rest)
  {
    var (popped, rest) := PoppedItems(list, n, left);
    PoppedWhole(list, n, left);
    ReversedHolds(popped);
  }

  lemma {:induction false} PushedHolds(list: seq<string>, items: seq<string>, left: bool)
    ensures multiset(Pushed(list, items, left)) == multiset(list) + multiset(items)
  {
    ReversedHolds(items);
  }

  lemma {:induction false} MovedItems(view: Keys, from: string, to: string, rest: seq<string>, pushed: seq<string>)
    requires !NotList(view, from) && !NotList(view, to)
    ensures from == to ==> ItemsOf(WithValue(view, to, List(pushed)), to) == pushed
    ensures from != to ==>
              && ItemsOf(WithValue(WithValue(view, from, List(rest)), to, List(pushed)), to) == pushed
              && ItemsOf(WithValue(WithValue(view, from, List(rest)), to, List(pushed)), from) == rest
    ensures from == to ==> Elsewhere(view, WithValue(view, to, List(pushed)), from, to)
    ensures from != to ==> Elsewhere(view, WithValue(WithValue(view, from, List(rest)), to, List(pushed)), from, to)
  {}

  /** How often an item is in a list. */
  function Occurrences(list: seq<string>, item: string): nat
  {
    if list == [] then 0 else (if list[0] == item then 1 else 0) + Occurrences(list[1..], item)
  }

  /** The items of a list that are not a given one, in order. */
  function Without(list: seq<string>, item: string): seq<string>
  {
    if list == [] then [] else (if list[0] == item then [] else [list[0]]) + Without(list[1..], item)
  }

  lemma {:induction false} WithoutAcross(a: seq<string>, b: seq<string>, item: string)
    ensures Without(a + b, item) == Without(a, item) + Without(b, item)
  {
    if a == [] {
      assert a + b == b;
    } else {
      assert (a + b)[1..] == a[1..] + b;
      WithoutAcross(a[1..], b, item);
    }
  }

  /** `rest` is `list` without the occurrences of an item before `k`, `taken` in number. */
  ghost predicate GoneBefore(list: seq<string>, rest: seq<string>, item: string, taken: nat, k: nat)
  {
    k <= |list| && Occurrences(list[..k], item) == taken && rest == Without(list[..k], item) + list[k..]
  }

  /** `rest` is `list` without the occurrences of an item from `k` on, `taken` in number. */
  ghost predicate GoneFrom(list: seq<string>, rest: seq<string>, item: string, taken: nat, k: nat)
  {
    k <= |list| && Occurrences(list[k..], item) == taken && rest == list[..k] + Without(list[k..], item)
  }

  /** `rest` is `list` without its first `taken` occurrences of an item. */
  ghost predicate FirstGone(list: seq<string>, rest: seq<string>, item: string, taken: nat)
  {
    exists k :: GoneBefore(list, rest, item, taken, k)
  }

  /** `rest` is `list` without its last `taken` occurrences of an item. */
  ghost predicate LastGone(list: seq<string>, rest: seq<string>, item: string, taken: nat)
  {
    exists k :: GoneFrom(list, rest, item, taken, k)
  }

  lemma {:induction false} OccurrencesAcross(a: seq<string>, b: seq<string>, item: string)
    ensures Occurrences(a + b, item) == Occurrences(a, item) + Occurrences(b, item)
  {
    if a == [] {
      assert a + b == b;
    } else {
      assert (a + b)[1..] == a[1..] + b;
      OccurrencesAcross(a[1..], b, item);
    }
  }

  lemma {:induction false} OccurrencesOn(a: string, list: seq<string>, item: string)
    ensures Occurrences([a] + list, item) == Occurrences(list, item) + if a == item then 1 else 0
    ensures Occurrences(list + [a], item) == Occurrences(list, item) + if a == item then 1 else 0
  {
    assert ([a] + list)[1..] == list;
    OccurrencesAcross(list, [a], item);
  }

  lemma {:induction false} WithoutOn(a: string, list: seq<string>, item: string)
    ensures Without([a] + list, item) == (if a == item then [] else [a]) + Without(list, item)
    ensures Without(list + [a], item) == Without(list, item) + if a == item then [] else [a]
  {
    assert ([a] + list)[1..] == list;
    WithoutAcross(list, [a], item);
  }

  lemma {:induction false} FrontSplit(first: string, tail: seq<string>, k: nat)
    requires k <= |tail|
    ensures ([first] + tail)[..k + 1] == [first] + tail[..k] && ([first] + tail)[k + 1..] == tail[k..]
  {}

  lemma {:induction false} BackSplit(last: string, front: seq<string>, k: nat)
    requires k <= |front|
    ensures (front + [last])[..k] == front[..k] && (front + [last])[k..] == front[k..] + [last]
  {}

  lemma {:induction false} GoneBeforeOn(first: string, tail: seq<string>, rest: seq<string>, item: string, taken: nat, k: nat)
    requires GoneBefore(tail, rest, item, taken, k)
    ensures GoneBefore([first] + tail, (if first == item then [] else [first]) + rest, item, taken + if first == item then 1 else 0, k + 1)
  {
    var kept := if first == item then [] else [first];
    FrontSplit(first, tail, k);
    OccurrencesOn(first, tail[..k], item);
    WithoutOn(first, tail[..k], item);
    Regrouped(kept, Without(tail[..k], item), tail[k..]);
  }

  lemma {:induction false} GoneBeforeNone(list: seq<string>, item: string)
    ensures GoneBefore(list, list, item, 0, 0)
  {
    assert list[..0] == [] && list[0..] == list && [] + list == list;
  }

  lemma {:induction false} RemovedFirstStep(first: string, tail: seq<string>, item: string, max: nat)
    requires max > 0
    ensures var later := if first == item then max - 1 else max;
            && RemovedFirst([first] + tail, item, max) == (if first == item then [] else [first]) + RemovedFirst(tail, item, later)
            && Least(max, Occurrences([first] + tail, item)) == Least(later, Occurrences(tail, item)) + if first == item then 1 else 0
  {
    OccurrencesOn(first, tail, item);
    assert ([first] + tail)[1..] == tail;
    var rest := RemovedFirst(tail, item, max - 1);
    assert [] + rest == rest;
  }

  /** Removing from the front takes the first ones, as many as asked for or all there are. */
  lemma {:induction false} RemovedFirstExactly(list: seq<string>, item: string, max: nat) returns (k: nat)
    ensures GoneBefore(list, RemovedFirst(list, item, max), item, Least(max, Occurrences(list, item)), k)
  {
    if max == 0 || list == [] {
      RemovedNone(list, item);
      GoneBeforeNone(list, item);
      k := 0;
    } else {
      var first, tail := list[0], list[1..];
      var later := if first == item then max - 1 else max;
      assert list == [first] + tail;
      var rest, taken := RemovedFirst(tail, item, later), Least(later, Occurrences(tail, item));
      var before := RemovedFirstExactly(tail, item, later);
      GoneBeforeOn(first, tail, rest, item, taken, before);
      RemovedFirstStep(first, tail, item, max);
      k := before + 1;
    }
  }

  lemma {:induction false} GoneFromOn(last: string, front: seq<string>, rest: seq<string>, item: string, taken: nat, k: nat)
    requires GoneFrom(front, rest, item, taken, k)
    ensures GoneFrom(front + [last], rest + (if last == item then [] else [last]), item, taken + if last == item then 1 else 0, k)
  {
    var kept := if last == item then [] else [last];
    BackSplit(last, front, k);
    OccurrencesOn(last, front[k..], item);
    WithoutOn(last, front[k..], item);
    Regrouped(front[..k], Without(front[k..], item), kept);
  }

  lemma {:induction false} GoneFromNone(list: seq<string>, item: string)
    ensures GoneFrom(list, list, item, 0, |list|)
  {
    assert list[|list|..] == [] && list[..|list|] == list && list + [] == list;
  }

  /** Removing from the back takes the last ones. */
  lemma {:induction false} RemovedLastExactly(list: seq<string>, item: string, max: nat) returns (k: nat)
    ensures GoneFrom(list, RemovedLast(list, item, max), item, Least(max, Occurrences(list, item)), k)
  {
    if max == 0 || list == [] {
      RemovedNone(list, item);
      GoneFromNone(list, item);
      k := |list|;
    } else {
      var front, last := list[..|list| - 1], list[|list| - 1];
      var later := if last == item then max - 1 else max;
      assert list == front + [last];
      OccurrencesOn(last, front, item);
      var rest, taken := RemovedLast(front, item, later), Least(later, Occurrences(front, item));
      assert RemovedLast(list, item, max) == rest + (if last == item then [] else [last]);
      assert Least(max, Occurrences(list, item)) == taken + if last == item then 1 else 0;
      k := RemovedLastExactly(front, item, later);
      GoneFromOn(last, front, rest, item, taken, k);
    }
  }

  lemma {:induction false} WithoutSize(list: seq<string>, item: string)
    ensures |Without(list, item)| == |list| - Occurrences(list, item)
  {
    if list != [] {
      assert list == [list[0]] + list[1..];
      OccurrencesOn(list[0], list[1..], item);
      WithoutSize(list[1..], item);
    }
  }

  lemma {:induction false} GoneSize(list: seq<string>, rest: seq<string>, item: string, taken: nat, k: nat)
    requires GoneBefore(list, rest, item, taken, k) || GoneFrom(list, rest, item, taken, k)
    ensures |rest| + taken == |list|
  {
    WithoutSize(list[..k], item);
    WithoutSize(list[k..], item);
  }

  /** How many occurrences LREM takes: as many as are asked for, or as there are. */
  function TakenBy(list: seq<string>, limit: int, item: string): nat
  {
    Least(if limit == 0 then |list| else if limit < 0 then -limit else limit, Occurrences(list, item))
  }

  /** The first occurrences are gone, or the last ones when the limit is negative. */
  ghost predicate GoneBy(list: seq<string>, rest: seq<string>, limit: int, item: string)
  {
    if limit < 0 then LastGone(list, rest, item, TakenBy(list, limit, item))
    else FirstGone(list, rest, item, TakenBy(list, limit, item))
  }

  lemma {:induction false} RemovedExactly(list: seq<string>, limit: int, value: string)
    ensures GoneBy(list, Removed(list, limit, value), limit, value)
    ensures |list| - |Removed(list, limit, value)| == TakenBy(list, limit, value)
  {
    var taken, rest := TakenBy(list, limit, value), Removed(list, limit, value);
    var k;
    if limit < 0 {
      k := RemovedLastExactly(list, value, -limit);
    } else {
      k := RemovedFirstExactly(list, value, if limit == 0 then |list| else limit);
    }
    GoneSize(list, rest, value, taken, k);
  }

  lemma {:induction false} RemLeaves(view: Keys, key: string, limit: int, value: string)
    requires !NotList(view, key)
    ensures var applied, list := ApplyRem(view, key, limit, value), ItemsOf(view, key);
            && ItemsOf(applied.view, key) == Removed(list, limit, value)
            && applied.reply == Ok(Int(|list| - |Removed(list, limit, value)|))
            && Elsewhere(view, applied.view, key, key)
  {}

  /** LREM takes away, and replies, as many as are asked for or there are, the first or the last ones; the other items
      keep their places, and no other key changes. */
  lemma {:induction false} RemExactly(view: Keys, key: string, limit: int, value: string)
    requires !NotList(view, key)
    ensures var applied, list := ApplyRem(view, key, limit, value), ItemsOf(view, key);
            && applied.reply == Ok(Int(TakenBy(list, limit, value)))
            && GoneBy(list, ItemsOf(applied.view, key), limit, value)
            && Elsewhere(view, applied.view, key, key)
  {
    RemovedExactly(ItemsOf(view, key), limit, value);
    RemLeaves(view, key, limit, value);
  }

  // ---- sets ---------------------------------------------------------------------------------

  /** SMOVE moves one member: it leaves the one set as it joins the other, and no other member or key changes. */
  lemma {:induction false} SMoveConserves(view: Keys, from: string, to: string, element: string)
    requires !NotSet(view, from) && !NotSet(view, to)
    ensures var applied := ApplySMove(view, from, to, element);
            var moved := element in MembersOf(view, from);
            && applied.reply == Ok(Int(if moved then 1 else 0))
            && MembersOf(applied.view, from) == (if moved && from != to then MembersOf(view, from) - {element} else MembersOf(view, from))
            && MembersOf(applied.view, to) == (if moved && from != to then MembersOf(view, to) + {element} else MembersOf(view, to))
            && Elsewhere(view, applied.view, from, to)
  {}

  /** SADD then SREM of the same new members leaves the keys as they were, each replying how many it changed. A key
      made for them goes again. */
  lemma {:induction false} AddRemove(view: Keys, key: string, elements: seq<string>)
    requires !NotSet(view, key) && (key in view ==> MembersOf(view, key) != {})
    requires MembersOf(view, key) !! All(elements)
    ensures var added := ApplySAdd(view, key, elements);
            var removed := ApplySRem(added.view, key, elements);
            && added.reply == removed.reply == Ok(Int(|All(elements)|)) && removed.view == view
  {
    var before, more := MembersOf(view, key), All(elements);
    assert (before + more) - more == before;
    assert |before + more| == |before| + |more|;
    var added := ApplySAdd(view, key, elements);
    if key in view {
      assert added.view[key].(value := Set(before)) == view[key];
    }
  }

  // ---- strings and keys ------------------------------------------------------------------------

  /** The last value given for a key. */
  function LastValue(pairs: seq<(string, string)>, key: string): Option<string>
  {
    if pairs == [] then None
    else if pairs[|pairs| - 1].0 == key then Some(pairs[|pairs| - 1].1)
    else LastValue(pairs[..|pairs| - 1], key)
  }

  lemma {:induction false} StoredPairs(view: Keys, pairs: seq<(string, string)>, now: nat, key: string)
    ensures var after := StorePairs(view, pairs, now);
            match LastValue(pairs, key) {
              case Some(value) => key in after && after[key] == Entry(Str(value), None)
              case None => (key in after <==> key in view) && (key in view ==> after[key] == view[key])
            }
  {
    if pairs != [] {
      StoredPairs(view, pairs[..|pairs| - 1], now, key);
    }
  }

  lemma {:induction false} LastValueThere(pairs: seq<(string, string)>, key: string)
    ensures LastValue(pairs, key).Some? <==> exists i :: 0 <= i < |pairs| && pairs[i].0 == key
  {
    if pairs != [] {
      var front := pairs[..|pairs| - 1];
      LastValueThere(front, key);
      assert forall i :: 0 <= i < |front| ==> front[i] == pairs[i];
      if LastValue(front, key).Some? {
        var i :| 0 <= i < |front| && front[i].0 == key;
        assert pairs[i].0 == key;
      }
    }
  }

  /** MSET and MSETNX write all of their pairs or none: a key ends up with the last value given for it, and
      every other key as it was. */
  lemma {:induction false} MSetAllOrNone(view: Keys, pairs: seq<(string, string)>, nx: bool, now: nat, key: string)
    ensures var applied := ApplyMSet(view, pairs, nx, now);
            if applied.reply == Ok(if nx then Int(1) else Okay) then
              && (LastValue(pairs, key).Some? ==> key in applied.view && applied.view[key] == Entry(Str(LastValue(pairs, key).value), None))
              && (LastValue(pairs, key).None? ==> (key in applied.view <==> key in view) && (key in view ==> applied.view[key] == view[key]))
              && (nx ==> (LastValue(pairs, key).Some? ==> key !in view))
            else applied.view == view
  {
    StoredPairs(view, pairs, now, key);
    LastValueThere(pairs, key);
  }

  /** Renaming a key to a free name and back changes nothing. */
  lemma {:induction false} RenameBack(view: Keys, from: string, to: string, now: nat)
    requires from in view && (to !in view || to == from)
    ensures Apply(Apply(view, CRename(from, to, false), now).view, CRename(to, from, false), now) == Applied(view, Ok(Okay))
  {
    var there := ApplyRename(view, from, to, false).view;
    if from != to {
      assert (there - {to})[from := there[to]] == view;
    }
  }

  /** A blocking pop does and replies what a plain one does, and says which key it was. */
  ghost predicate PopsAs(blocking: Applied, plain: Applied, key: string)
  {
    plain.reply.Ok? && blocking.view == plain.view && blocking.reply == Ok(Array([Bulk(key), plain.reply.value]))
  }

  lemma {:induction false} PopsFirst(view: Keys, names: seq<string>, left: bool)
    requires names != [] && !NotList(view, names[0]) && ItemsOf(view, names[0]) != []
    ensures PopsAs(ApplyBPop(view, names, left), ApplyPop(view, names[0], None, left), names[0])
  {
    var (popped, rest) := PoppedItems(ItemsOf(view, names[0]), 1, left);
    PoppedWhole(ItemsOf(view, names[0]), 1, left);
    BulksTwo(names[0], popped[0]);
  }

  lemma {:induction false} BulksTwo(a: string, b: string)
    ensures Bulks([a, b]) == Array([Bulk(a), Bulk(b)])
  {
    assert Bulks([a, b]).items == [Bulk(a), Bulk(b)];
  }

  /** BLPOP takes from the first of its keys that holds anything, as LPOP of that key would. */
  lemma {:induction false} BPopIsPop(view: Keys, names: seq<string>, left: bool, at: nat)
    requires at < |names| && !NotList(view, names[at]) && ItemsOf(view, names[at]) != []
    requires forall i :: 0 <= i < at ==> !NotList(view, names[i]) && ItemsOf(view, names[i]) == []
    ensures PopsAs(ApplyBPop(view, names, left), ApplyPop(view, names[at], None, left), names[at])
  {
    if at == 0 {
      PopsFirst(view, names, left);
    } else {
      var rest := names[1..];
      assert forall i :: 0 <= i < |rest| ==> rest[i] == names[i + 1];
      BPopIsPop(view, rest, left, at - 1);
      assert ApplyBPop(view, names, left) == ApplyBPop(view, rest, left);
    }
  }
}
