/**
 What keyspace commands mean.

 `Apply` says what a command does to the keys a client can see: those that are live. It knows
 nothing of limits, of expired keys still in memory, or of how a value is changed in place;
 `Execution` does, and is proved to do this.
 */
module Commands {
  import opened Common
  import opened Database

  datatype Value = Str(s: string) | List(items: seq<string>) | Set(members: set<string>)

  type Held = Entry<Value>
  type Keys = map<string, Held>

  datatype Reply = Okay | Int(n: int) | Bulk(s: string) | Nil | Array(items: seq<Reply>)

  datatype Error =
    | WrongType | NoSuchKey | OutOfRange | Negative | TooLong | BadExpiry | Incompatible
    | KeyLimit | ElementLimit | NotReplayable

  type R = Result<Reply, Error>

  datatype When = Always | Nx | Xx | IfEq(current: string)

  /** What a command says of a key's expiry: none, the one it has, or a number of units of so many
      milliseconds, counted from the clock or from the epoch. */
  datatype Expiry = Forever | Keep | At(amount: int, unit: int, absolute: bool)

  datatype Flags = Flags(nx: bool, xx: bool, gt: bool, lt: bool)

  /** Commands with their arguments read. */
  datatype Command =
    | CSet(key: string, value: string, when: When, get: bool, expiry: Expiry)
    | CSetNx(key: string, value: string)
    | CGetSet(key: string, value: string)
    | CGetDel(key: string)
    | CGetEx(key: string, change: Option<Expiry>)
    | CDelIfEq(key: string, value: string)
    | CAppend(key: string, value: string)
    | CMSet(pairs: seq<(string, string)>, nx: bool)
    | CDel(names: seq<string>)
    | CExpire(key: string, amount: int, unit: int, absolute: bool, flags: Flags)
    | CPersist(key: string)
    | CRename(from: string, to: string, nx: bool)
    | CFlush
    | CPush(key: string, items: seq<string>, left: bool, onlyExisting: bool)
    | CPop(key: string, count: Option<nat>, left: bool)
    | CTrim(key: string, start: int, stop: int)
    | CRem(key: string, limit: int, value: string)
    | CSetAt(key: string, index: int, value: string)
    | CInsert(key: string, before: bool, pivot: string, value: string)
    | CMove(from: string, to: string, fromLeft: bool, toLeft: bool)
    | CBPop(names: seq<string>, left: bool)
    | CBMove(from: string, to: string, fromLeft: bool, toLeft: bool)
    | CSAdd(key: string, elements: seq<string>)
    | CSRem(key: string, elements: seq<string>)
    | CSMove(from: string, to: string, element: string)
    | CSPop(key: string, wanted: Option<int>)

  const MAX_STRING := 0x100_0000
  const I64_MAX := 0x7FFF_FFFF_FFFF_FFFF
  const I64_MIN := -0x8000_0000_0000_0000

  // ---- the live keys -------------------------------------------------------------

  /** A key stored: it is not seen when it has expired already. */
  function Put(view: Keys, key: string, entry: Held, now: nat): Keys
  {
    if entry.Expired(now) then view - {key} else view[key := entry]
  }

  lemma {:induction false} LivePut(keys: Keys, key: string, entry: Held, now: nat)
    ensures Live(keys[key := entry], now) == Put(Live(keys, now), key, entry, now)
  {}

  lemma {:induction false} LiveDrop(keys: Keys, key: string, now: nat)
    ensures Live(keys - {key}, now) == Live(keys, now) - {key}
  {}

  lemma {:induction false} LiveLater(keys: Keys, sooner: nat, later: nat)
    requires sooner <= later
    ensures Live(Live(keys, sooner), later) == Live(keys, later)
  {}

  // ---- values ----------------------------------------------------------------------

  predicate IsEmptyCollection(v: Value)
  {
    match v
    case Str(_) => false
    case List(items) => items == []
    case Set(members) => members == {}
  }

  /** Elements of a collection. */
  function Elements(v: Value): nat
  {
    match v
    case Str(_) => 0
    case List(items) => |items|
    case Set(members) => |members|
  }

  /** A collection key with another value, keeping its expiry; an empty one goes away. */
  function WithValue(view: Keys, key: string, value: Value): Keys
  {
    if IsEmptyCollection(value) then view - {key}
    else view[key := if key in view then view[key].(value := value) else Entry(value, None)]
  }

  function Reversed<T>(s: seq<T>): (r: seq<T>)
    ensures |r| == |s|
  {
    if s == [] then [] else Reversed(s[1..]) + [s[0]]
  }

  function Bulks(items: seq<string>): Reply
  {
    Array(seq(|items|, i requires 0 <= i < |items| => Bulk(items[i])))
  }

  function Least(a: int, b: int): int
  {
    if a < b then a else b
  }

  // ---- reading arguments ---------------------------------------------------------------

  function I64(n: int): Option<int>
  {
    if I64_MIN <= n <= I64_MAX then Some(n) else None
  }

  /** The expiry that an amount of units comes to; nothing when it leaves the 64-bit range or is negative. */
  function ExpiryAt(now: nat, amount: int, unit: int, absolute: bool): Option<nat>
  {
    match I64(amount * unit)
    case None => None
    case Some(ms) =>
      match if absolute then Some(ms) else if now <= I64_MAX then I64(ms + now) else None
      case None => None
      case Some(at) => if at >= 0 then Some(at) else None
  }

  /** The stretch of a list that two indexes name, each counted from the front or, below zero, from the back. */
  function RangeBounds(start: int, stop: int, len: nat): Option<(nat, nat)>
  {
    var from := if start < 0 then (if len + start > 0 then len + start else 0) else start;
    var to := if stop < 0 then len + stop else Least(stop, len - 1);
    if from <= to && from < len then Some((from, to)) else None
  }

  // ---- what commands do ----------------------------------------------------------------

  datatype Applied = Applied(view: Keys, reply: R)

  function Fail(view: Keys, error: Error): Applied
  {
    Applied(view, Err(error))
  }

  function Say(view: Keys, reply: Reply): Applied
  {
    Applied(view, Ok(reply))
  }

  /** Storing a string under a key, whatever it held. */
  function StoreString(view: Keys, key: string, value: string, expires: Option<nat>, now: nat): Keys
  {
    Put(view, key, Entry(Str(value), expires), now)
  }

  /** Whether SET's condition lets it write. */
  predicate Allows(when: When, present: bool, held: Option<string>)
  {
    match when
    case Always => true
    case Nx => !present
    case Xx => present
    case IfEq(current) => held == Some(current)
  }

  function ApplySet(view: Keys, key: string, value: string, when: When, get: bool, expiry: Expiry, now: nat): Applied
  {
    var expires := match expiry
      case At(amount, unit, absolute) => ExpiryAt(now, amount, unit, absolute)
      case Keep => if key in view then view[key].expires else None
      case Forever => None;
    var held := if key in view && view[key].value.Str? then Some(view[key].value.s) else None;
    var allowed := Allows(when, key in view, held);
    if expiry.At? && (expiry.amount <= 0 || expires.None?) then Fail(view, BadExpiry)
    else if key in view && !view[key].value.Str? && (get || when.IfEq?) then Fail(view, WrongType)
    else if allowed && |value| > MAX_STRING then Fail(view, TooLong)
    else
      Say(if allowed then StoreString(view, key, value, expires, now) else view,
          if get then (if held.Some? then Bulk(held.value) else Nil) else if allowed then Okay else Nil)
  }

  function ApplySetNx(view: Keys, key: string, value: string, now: nat): Applied
  {
    if key in view then Say(view, Int(0))
    else if |value| > MAX_STRING then Fail(view, TooLong)
    else Say(StoreString(view, key, value, None, now), Int(1))
  }

  predicate NotString(view: Keys, key: string)
  {
    key in view && !view[key].value.Str?
  }

  /** The string a key holds, as a reply. */
  function StringReply(view: Keys, key: string): Reply
    requires !NotString(view, key)
  {
    if key in view then Bulk(view[key].value.s) else Nil
  }

  function ApplyGetSet(view: Keys, key: string, value: string, now: nat): Applied
  {
    if NotString(view, key) then Fail(view, WrongType)
    else if |value| > MAX_STRING then Fail(view, TooLong)
    else Say(StoreString(view, key, value, None, now), StringReply(view, key))
  }

  function ApplyGetDel(view: Keys, key: string): Applied
  {
    if NotString(view, key) then Fail(view, WrongType) else Say(view - {key}, StringReply(view, key))
  }

  function ApplyDelIfEq(view: Keys, key: string, value: string): Applied
  {
    if NotString(view, key) then Fail(view, WrongType)
    else if key in view && view[key].value.s == value then Say(view - {key}, Int(1))
    else Say(view, Int(0))
  }

  function ApplyAppend(view: Keys, key: string, value: string): Applied
  {
    if NotString(view, key) then Fail(view, WrongType)
    else
      var s := (if key in view then view[key].value.s else "") + value;
      if |s| > MAX_STRING then Fail(view, TooLong) else Say(WithValue(view, key, Str(s)), Int(|s|))
  }

  function ApplyPersist(view: Keys, key: string): Applied
  {
    if key in view && view[key].expires.Some? then Say(view[key := view[key].(expires := None)], Int(1))
    else Say(view, Int(0))
  }

  function ApplyGetEx(view: Keys, key: string, change: Option<Expiry>, now: nat): Applied
  {
    if key in view && !view[key].value.Str? then Fail(view, WrongType)
    else
      var reply := if key in view then Bulk(view[key].value.s) else Nil;
      match change
      case None => Say(view, reply)
      case Some(At(amount, unit, absolute)) =>
        var at := ExpiryAt(now, amount, unit, absolute);
        if amount <= 0 || at.None? then Fail(view, BadExpiry)
        else Say(if key in view then Put(view, key, view[key].(expires := at), now) else view, reply)
      case Some(_) => Say(if key in view then Put(view, key, view[key].(expires := None), now) else view, reply)
  }

  function StorePairs(view: Keys, pairs: seq<(string, string)>, now: nat): Keys
  {
    if pairs == [] then view
    else StoreString(StorePairs(view, pairs[..|pairs| - 1], now), pairs[|pairs| - 1].0, pairs[|pairs| - 1].1, None, now)
  }

  function ApplyMSet(view: Keys, pairs: seq<(string, string)>, nx: bool, now: nat): Applied
  {
    if nx && exists i :: 0 <= i < |pairs| && pairs[i].0 in view then Say(view, Int(0))
    else if exists i :: 0 <= i < |pairs| && |pairs[i].1| > MAX_STRING then Fail(view, TooLong)
    else Say(StorePairs(view, pairs, now), if nx then Int(1) else Okay)
  }

  function DropAll(view: Keys, keys: seq<string>): (Keys, nat)
  {
    if keys == [] then (view, 0)
    else
      var (before, n) := DropAll(view, keys[..|keys| - 1]);
      var key := keys[|keys| - 1];
      (before - {key}, if key in before then n + 1 else n)
  }

  function ExpireTime(now: nat, amount: int, unit: int, absolute: bool): Option<int>
  {
    match I64(amount * unit)
    case None => None
    case Some(ms) => if absolute then Some(ms) else I64(ms + now)
  }

  function ApplyExpire(view: Keys, key: string, at: Option<int>, flags: Flags, now: nat): Applied
  {
    if at.None? then Fail(view, BadExpiry)
    else if (flags.nx && (flags.xx || flags.gt || flags.lt)) || (flags.gt && flags.lt) then Fail(view, Incompatible)
    else if key !in view then Say(view, Int(0))
    else
      var existing := view[key].expires;
      var allowed := match existing
        case None => !flags.xx && !flags.gt
        case Some(was) =>
          !flags.nx && (!flags.gt || at.value > Least(was, I64_MAX)) && (!flags.lt || at.value < Least(was, I64_MAX));
      if !allowed then Say(view, Int(0))
      else if at.value <= now then Say(view - {key}, Int(1))
      else Say(view[key := view[key].(expires := Some(at.value))], Int(1))
  }

  function ApplyRename(view: Keys, from: string, to: string, nx: bool): Applied
  {
    if from !in view then Fail(view, NoSuchKey)
    else if from == to then Say(view, if nx then Int(0) else Okay)
    else if nx && to in view then Say(view, Int(0))
    else Say((view - {from})[to := view[from]], if nx then Int(1) else Okay)
  }

  /** The list a key holds, empty when it holds nothing. */
  function ItemsOf(view: Keys, key: string): seq<string>
  {
    if key in view && view[key].value.List? then view[key].value.items else []
  }

  predicate NotList(view: Keys, key: string)
  {
    key in view && !view[key].value.List?
  }

  function Pushed(list: seq<string>, items: seq<string>, left: bool): seq<string>
  {
    if left then Reversed(items) + list else list + items
  }

  function ApplyPush(view: Keys, key: string, items: seq<string>, left: bool, onlyExisting: bool): Applied
  {
    if NotList(view, key) then Fail(view, WrongType)
    else if onlyExisting && key !in view then Say(view, Int(0))
    else
      var list := Pushed(ItemsOf(view, key), items, left);
      Say(WithValue(view, key, List(list)), Int(|list|))
  }

  /** `n` items off one end of a list, in the order they come off, and what stays. */
  function PoppedItems(list: seq<string>, n: nat, left: bool): (seq<string>, seq<string>)
  {
    var k := Least(n, |list|);
    if left then (list[..k], list[k..]) else (Reversed(list[|list| - k..]), list[..|list| - k])
  }

  function ApplyPop(view: Keys, key: string, count: Option<nat>, left: bool): Applied
  {
    if NotList(view, key) then Fail(view, WrongType)
    else if key !in view then Say(view, Nil)
    else
      var (popped, rest) := PoppedItems(ItemsOf(view, key), if count.Some? then count.value else 1, left);
      Say(WithValue(view, key, List(rest)),
          if count.Some? then Bulks(popped) else if popped != [] then Bulk(popped[0]) else Nil)
  }

  function ApplyTrim(view: Keys, key: string, start: int, stop: int): Applied
  {
    if NotList(view, key) then Fail(view, WrongType)
    else if key !in view then Say(view, Okay)
    else
      var list := ItemsOf(view, key);
      var bounds := RangeBounds(start, stop, |list|);
      var rest := if bounds.Some? then list[bounds.value.0..bounds.value.1 + 1] else [];
      Say(WithValue(view, key, List(rest)), Okay)
  }

  /** A list without the first `max` items equal to `value`. */
  function RemovedFirst(list: seq<string>, value: string, max: nat): (r: seq<string>)
    ensures |r| <= |list|
  {
    if list == [] then []
    else if list[0] == value && max > 0 then RemovedFirst(list[1..], value, max - 1)
    else [list[0]] + RemovedFirst(list[1..], value, max)
  }

  /** A list without the last `max` items equal to `value`. */
  function RemovedLast(list: seq<string>, value: string, max: nat): (r: seq<string>)
    ensures |r| <= |list|
  {
    if list == [] then []
    else
      var front, last := list[..|list| - 1], list[|list| - 1];
      if last == value && max > 0 then RemovedLast(front, value, max - 1)
      else RemovedLast(front, value, max) + [last]
  }

  function Removed(list: seq<string>, limit: int, value: string): (r: seq<string>)
    ensures |r| <= |list|
  {
    if limit > 0 then RemovedFirst(list, value, limit)
    else if limit < 0 then RemovedLast(list, value, -limit)
    else RemovedFirst(list, value, |list|)
  }

  lemma {:induction false} RemovedNone(list: seq<string>, value: string)
    ensures RemovedFirst(list, value, 0) == list && RemovedLast(list, value, 0) == list
  {
    if list != [] {
      RemovedNone(list[1..], value);
      RemovedNone(list[..|list| - 1], value);
    }
  }

  function ApplyRem(view: Keys, key: string, limit: int, value: string): Applied
  {
    if NotList(view, key) then Fail(view, WrongType)
    else if key !in view then Say(view, Int(0))
    else
      var list := ItemsOf(view, key);
      var rest := Removed(list, limit, value);
      Say(WithValue(view, key, List(rest)), Int(|list| - |rest|))
  }

  function ApplySetAt(view: Keys, key: string, index: int, value: string): Applied
  {
    if NotList(view, key) then Fail(view, WrongType)
    else if key !in view then Fail(view, NoSuchKey)
    else
      var list := ItemsOf(view, key);
      var i := if index < 0 then |list| + index else index;
      if 0 <= i < |list| then Say(WithValue(view, key, List(list[i := value])), Okay)
      else Fail(view, OutOfRange)
  }

  /** Where an item first is in a list. */
  function FirstOf(list: seq<string>, item: string): (r: Option<nat>)
    ensures r.None? <==> item !in list
    ensures r.Some? ==> r.value < |list| && list[r.value] == item && item !in list[..r.value]
  {
    if list == [] then None
    else if list[0] == item then Some(0)
    else
      match FirstOf(list[1..], item)
      case None => None
      case Some(i) => Some(i + 1)
  }

  function ApplyInsert(view: Keys, key: string, before: bool, pivot: string, value: string): Applied
  {
    if NotList(view, key) then Fail(view, WrongType)
    else if key !in view then Say(view, Int(0))
    else
      var list := ItemsOf(view, key);
      match FirstOf(list, pivot)
      case None => Say(view, Int(-1))
      case Some(at) =>
        var i := if before then at else at + 1;
        Say(WithValue(view, key, List(list[..i] + [value] + list[i..])), Int(|list| + 1))
  }

  function ApplyMove(view: Keys, from: string, to: string, fromLeft: bool, toLeft: bool): Applied
  {
    if NotList(view, from) then Fail(view, WrongType)
    else if from !in view then Say(view, Nil)
    else if NotList(view, to) then Fail(view, WrongType)
    else if ItemsOf(view, from) == [] then Say(view, Nil)
    else
      var (popped, rest) := PoppedItems(ItemsOf(view, from), 1, fromLeft);
      var list := if from == to then rest else ItemsOf(view, to);
      var pushed := Pushed(list, popped, toLeft);
      Say(if from == to then WithValue(view, to, List(pushed))
          else WithValue(WithValue(view, from, List(rest)), to, List(pushed)),
          Bulk(popped[0]))
  }

  function ApplyBPop(view: Keys, keys: seq<string>, left: bool): Applied
  {
    if keys == [] then Say(view, Nil)
    else if NotList(view, keys[0]) then Fail(view, WrongType)
    else if ItemsOf(view, keys[0]) == [] then ApplyBPop(view, keys[1..], left)
    else
      var (popped, rest) := PoppedItems(ItemsOf(view, keys[0]), 1, left);
      Say(WithValue(view, keys[0], List(rest)), Bulks([keys[0], popped[0]]))
  }

  function MembersOf(view: Keys, key: string): set<string>
  {
    if key in view && view[key].value.Set? then view[key].value.members else {}
  }

  predicate NotSet(view: Keys, key: string)
  {
    key in view && !view[key].value.Set?
  }

  function All(elements: seq<string>): set<string>
  {
    set e | e in elements
  }

  function ApplySAdd(view: Keys, key: string, elements: seq<string>): Applied
  {
    if NotSet(view, key) then Fail(view, WrongType)
    else
      var members := MembersOf(view, key) + All(elements);
      Say(WithValue(view, key, Set(members)), Int(|members| - |MembersOf(view, key)|))
  }

  function ApplySRem(view: Keys, key: string, elements: seq<string>): Applied
  {
    if NotSet(view, key) then Fail(view, WrongType)
    else if key !in view then Say(view, Int(0))
    else
      var members := MembersOf(view, key) - All(elements);
      Say(WithValue(view, key, Set(members)), Int(|MembersOf(view, key)| - |members|))
  }

  function ApplySMove(view: Keys, from: string, to: string, element: string): Applied
  {
    if NotSet(view, from) then Fail(view, WrongType)
    else if from !in view then Say(view, Int(0))
    else if NotSet(view, to) then Fail(view, WrongType)
    else if element !in MembersOf(view, from) then Say(view, Int(0))
    else if from == to then Say(view, Int(1))
    else Say(WithValue(WithValue(view, from, Set(MembersOf(view, from) - {element})), to, Set(MembersOf(view, to) + {element})), Int(1))
  }

  /** What a command does to the live keys, and its reply. A random command has no meaning of its
      own here: what is journaled for it does. */
  function Apply(view: Keys, c: Command, now: nat): Applied
  {
    match c
    case CSet(key, value, when, get, expiry) => ApplySet(view, key, value, when, get, expiry, now)
    case CSetNx(key, value) => ApplySetNx(view, key, value, now)
    case CGetSet(key, value) => ApplyGetSet(view, key, value, now)
    case CGetDel(key) => ApplyGetDel(view, key)
    case CGetEx(key, change) => ApplyGetEx(view, key, change, now)
    case CDelIfEq(key, value) => ApplyDelIfEq(view, key, value)
    case CAppend(key, value) => ApplyAppend(view, key, value)
    case CMSet(pairs, nx) => ApplyMSet(view, pairs, nx, now)
    case CDel(names) => Say(DropAll(view, names).0, Int(DropAll(view, names).1))
    case CExpire(key, amount, unit, absolute, flags) => ApplyExpire(view, key, ExpireTime(now, amount, unit, absolute), flags, now)
    case CPersist(key) => ApplyPersist(view, key)
    case CRename(from, to, nx) => ApplyRename(view, from, to, nx)
    case CFlush => Say(map[], Okay)
    case CPush(key, items, left, onlyExisting) => ApplyPush(view, key, items, left, onlyExisting)
    case CPop(key, count, left) => ApplyPop(view, key, count, left)
    case CTrim(key, start, stop) => ApplyTrim(view, key, start, stop)
    case CRem(key, limit, value) => ApplyRem(view, key, limit, value)
    case CSetAt(key, index, value) => ApplySetAt(view, key, index, value)
    case CInsert(key, before, pivot, value) => ApplyInsert(view, key, before, pivot, value)
    case CMove(from, to, fromLeft, toLeft) => ApplyMove(view, from, to, fromLeft, toLeft)
    case CBPop(names, left) => ApplyBPop(view, names, left)
    case CBMove(from, to, fromLeft, toLeft) => ApplyMove(view, from, to, fromLeft, toLeft)
    case CSAdd(key, elements) => ApplySAdd(view, key, elements)
    case CSRem(key, elements) => ApplySRem(view, key, elements)
    case CSMove(from, to, element) => ApplySMove(view, from, to, element)
    case CSPop(key, wanted) => Fail(view, NotReplayable)
  }

  /** Commands one after another at the same time. */
  function ApplyAll(view: Keys, commands: seq<Command>, now: nat): Keys
  {
    if commands == [] then view else Apply(ApplyAll(view, commands[..|commands| - 1], now), commands[|commands| - 1], now).view
  }

  // ---- what is journaled --------------------------------------------------------------------

  /** The commands journaled for one execution: none when nothing changed, what the command asked
      to have journaled instead, or itself. */
  function Journal(c: Command, dirty: bool, propagate: Option<seq<Command>>, reply: R): seq<Command>
  {
    if !dirty || reply.Err? then [] else if propagate.Some? then propagate.value else [c]
  }

  lemma {:induction false} ApplyOne(view: Keys, c: Command, now: nat)
    ensures ApplyAll(view, [c], now) == Apply(view, c, now).view
  {
    assert [c][..0] == [];
  }
}
