/**
 The keys a command uses are those its arguments name: no other is changed, and nothing but what they
 hold decides what it does and replies. A client's scope is checked against them before it runs.
 */
module KeyUse {
  import opened Common
  import opened Database
  import opened Commands
  import opened Needing
  import Arguments

  /** The keys a command names. */
  function Uses(c: Command): set<string>
  {
    match c
    case CMSet(pairs, _) => Names(pairs)
    case CDel(names) => All(names)
    case CBPop(names, _) => All(names)
    case CRename(from, to, _) => {from, to}
    case CMove(from, to, _, _) => {from, to}
    case CBMove(from, to, _, _) => {from, to}
    case CSMove(from, to, _) => {from, to}
    case CFlush => {}
    case _ => {c.key}
  }

  /** The same is held under each of some keys. */
  ghost predicate Agree(a: Keys, b: Keys, keys: set<string>)
  {
    forall k :: k in keys ==> (k in a <==> k in b) && (k in a ==> a[k] == b[k])
  }

  /** Nothing changed but under some keys. */
  ghost predicate Apart(before: Keys, after: Keys, keys: set<string>)
  {
    forall k :: k !in keys ==> (k in after <==> k in before) && (k in before ==> after[k] == before[k])
  }

  /** The same was done to some keys, with the same reply. */
  ghost predicate Alike(x: Applied, y: Applied, keys: set<string>)
  {
    x.reply == y.reply && Agree(x.view, y.view, keys)
  }

  // ---- several keys --------------------------------------------------------------------------

  lemma {:induction false} DropsLocal(a: Keys, b: Keys, names: seq<string>, keys: set<string>)
    requires All(names) <= keys && Agree(a, b, keys)
    ensures var (x, m) := DropAll(a, names); var (y, n) := DropAll(b, names);
            m == n && Agree(x, y, keys) && Apart(a, x, keys)
  {
    if names != [] {
      var front := names[..|names| - 1];
      assert names[|names| - 1] in All(names);
      assert forall name :: name in front ==> name in names;
      DropsLocal(a, b, front, keys);
    }
  }

  lemma {:induction false} PairsLocal(a: Keys, b: Keys, pairs: seq<(string, string)>, now: nat, keys: set<string>)
    requires Names(pairs) <= keys && Agree(a, b, keys)
    ensures Agree(StorePairs(a, pairs, now), StorePairs(b, pairs, now), keys) && Apart(a, StorePairs(a, pairs, now), keys)
  {
    if pairs != [] {
      PairsLocal(a, b, pairs[..|pairs| - 1], now, keys);
    }
  }

  lemma {:induction false} NamesHold(pairs: seq<(string, string)>, i: nat)
    requires i < |pairs|
    ensures pairs[i].0 in Names(pairs)
  {
    if i < |pairs| - 1 {
      NamesHold(pairs[..|pairs| - 1], i);
    }
  }

  lemma {:induction false} MSetLocal(a: Keys, b: Keys, pairs: seq<(string, string)>, nx: bool, now: nat)
    requires Agree(a, b, Names(pairs))
    ensures Alike(ApplyMSet(a, pairs, nx, now), ApplyMSet(b, pairs, nx, now), Names(pairs))
    ensures Apart(a, ApplyMSet(a, pairs, nx, now).view, Names(pairs))
  {
    PairsLocal(a, b, pairs, now, Names(pairs));
    forall i | 0 <= i < |pairs| ensures pairs[i].0 in a <==> pairs[i].0 in b {
      NamesHold(pairs, i);
    }
  }

  lemma {:induction false} BPopLocal(a: Keys, b: Keys, names: seq<string>, left: bool, keys: set<string>)
    requires All(names) <= keys && Agree(a, b, keys)
    ensures Alike(ApplyBPop(a, names, left), ApplyBPop(b, names, left), keys)
    ensures Apart(a, ApplyBPop(a, names, left).view, keys)
  {
    if names != [] {
      assert names[0] in All(names);
      assert ItemsOf(a, names[0]) == ItemsOf(b, names[0]);
      if ItemsOf(a, names[0]) == [] {
        assert forall name :: name in names[1..] ==> name in names;
        BPopLocal(a, b, names[1..], left, keys);
      } else {
        ValueLocal(a, b, names[0], List(PoppedItems(ItemsOf(a, names[0]), 1, left).1), keys);
      }
    }
  }

  lemma {:induction false} MoveLocal(a: Keys, b: Keys, from: string, to: string, fromLeft: bool, toLeft: bool)
    requires Agree(a, b, {from, to})
    ensures Alike(ApplyMove(a, from, to, fromLeft, toLeft), ApplyMove(b, from, to, fromLeft, toLeft), {from, to})
    ensures Apart(a, ApplyMove(a, from, to, fromLeft, toLeft).view, {from, to})
  {
    var keys := {from, to};
    assert from in keys && to in keys;
    assert ItemsOf(a, from) == ItemsOf(b, from) && ItemsOf(a, to) == ItemsOf(b, to);
    if ItemsOf(a, from) != [] {
      var (popped, rest) := PoppedItems(ItemsOf(a, from), 1, fromLeft);
      var pushed := Pushed(if from == to then rest else ItemsOf(a, to), popped, toLeft);
      ValueLocal(a, b, from, List(rest), keys);
      ValueLocal(WithValue(a, from, List(rest)), WithValue(b, from, List(rest)), to, List(pushed), keys);
      ValueLocal(a, b, to, List(pushed), keys);
    }
  }

  /** Another value under one of the keys. */
  lemma {:induction false} ValueLocal(a: Keys, b: Keys, key: string, value: Value, keys: set<string>)
    requires Agree(a, b, keys) && key in keys
    ensures Agree(WithValue(a, key, value), WithValue(b, key, value), keys) && Apart(a, WithValue(a, key, value), keys)
  {}

  lemma {:induction false} SMoveLocal(a: Keys, b: Keys, from: string, to: string, element: string)
    requires Agree(a, b, {from, to})
    ensures Alike(ApplySMove(a, from, to, element), ApplySMove(b, from, to, element), {from, to})
    ensures Apart(a, ApplySMove(a, from, to, element).view, {from, to})
  {
    assert from in {from, to} && to in {from, to};
  }

  lemma {:induction false} RenameLocal(a: Keys, b: Keys, from: string, to: string, nx: bool)
    requires Agree(a, b, {from, to})
    ensures Alike(ApplyRename(a, from, to, nx), ApplyRename(b, from, to, nx), {from, to})
    ensures Apart(a, ApplyRename(a, from, to, nx).view, {from, to})
  {
    assert from in {from, to} && to in {from, to};
  }

  // ---- any command ---------------------------------------------------------------------------

  predicate Several(c: Command)
  {
    c.CMSet? || c.CDel? || c.CBPop? || c.CRename? || c.CMove? || c.CBMove? || c.CSMove?
  }

  lemma {:induction false} SeveralLocal(a: Keys, b: Keys, c: Command, now: nat)
    requires Several(c) && Agree(a, b, Uses(c))
    ensures Alike(Apply(a, c, now), Apply(b, c, now), Uses(c)) && Apart(a, Apply(a, c, now).view, Uses(c))
  {
    match c {
      case CMSet(pairs, nx) => MSetLocal(a, b, pairs, nx, now);
      case CDel(names) => DropsLocal(a, b, names, All(names));
      case CBPop(names, left) => BPopLocal(a, b, names, left, All(names));
      case CRename(from, to, nx) => RenameLocal(a, b, from, to, nx);
      case CMove(from, to, fromLeft, toLeft) => MoveLocal(a, b, from, to, fromLeft, toLeft);
      case CBMove(from, to, fromLeft, toLeft) => MoveLocal(a, b, from, to, fromLeft, toLeft);
      case CSMove(from, to, element) => SMoveLocal(a, b, from, to, element);
    }
  }

  predicate Timed(c: Command)
  {
    c.CGetEx? || c.CExpire? || c.CPersist?
  }

  lemma {:induction false} TimedLocal(a: Keys, b: Keys, c: Command, now: nat)
    requires Timed(c) && Agree(a, b, {c.key})
    ensures Alike(Apply(a, c, now), Apply(b, c, now), {c.key}) && Apart(a, Apply(a, c, now).view, {c.key})
  {
    assert c.key in {c.key};
  }

  lemma {:induction false} SetLocal(a: Keys, b: Keys, key: string, value: string, when: When, get: bool, expiry: Expiry, now: nat)
    requires Agree(a, b, {key})
    ensures Alike(ApplySet(a, key, value, when, get, expiry, now), ApplySet(b, key, value, when, get, expiry, now), {key})
    ensures Apart(a, ApplySet(a, key, value, when, get, expiry, now).view, {key})
  {
    assert key in {key};
  }

  predicate Plain(c: Command)
  {
    c.CSetNx? || c.CGetSet? || c.CGetDel? || c.CDelIfEq? || c.CAppend?
  }

  lemma {:induction false} PlainLocal(a: Keys, b: Keys, c: Command, now: nat)
    requires Plain(c) && Agree(a, b, {c.key})
    ensures Alike(Apply(a, c, now), Apply(b, c, now), {c.key}) && Apart(a, Apply(a, c, now).view, {c.key})
  {
    assert c.key in {c.key};
  }

  predicate AtEnds(c: Command)
  {
    c.CPush? || c.CPop? || c.CTrim?
  }

  lemma {:induction false} EndsLocal(a: Keys, b: Keys, c: Command, now: nat)
    requires AtEnds(c) && Agree(a, b, {c.key})
    ensures Alike(Apply(a, c, now), Apply(b, c, now), {c.key}) && Apart(a, Apply(a, c, now).view, {c.key})
  {
    assert c.key in {c.key};
    assert ItemsOf(a, c.key) == ItemsOf(b, c.key);
  }

  predicate InMiddle(c: Command)
  {
    c.CRem? || c.CSetAt? || c.CInsert?
  }

  lemma {:induction false} MiddleLocal(a: Keys, b: Keys, c: Command, now: nat)
    requires InMiddle(c) && Agree(a, b, {c.key})
    ensures Alike(Apply(a, c, now), Apply(b, c, now), {c.key}) && Apart(a, Apply(a, c, now).view, {c.key})
  {
    assert c.key in {c.key};
    assert ItemsOf(a, c.key) == ItemsOf(b, c.key);
  }

  lemma {:induction false} SAddLocal(a: Keys, b: Keys, key: string, elements: seq<string>)
    requires Agree(a, b, {key})
    ensures Alike(ApplySAdd(a, key, elements), ApplySAdd(b, key, elements), {key}) && Apart(a, ApplySAdd(a, key, elements).view, {key})
  {
    assert key in {key};
    assert MembersOf(a, key) == MembersOf(b, key);
  }

  lemma {:induction false} SRemLocal(a: Keys, b: Keys, key: string, elements: seq<string>)
    requires Agree(a, b, {key})
    ensures Alike(ApplySRem(a, key, elements), ApplySRem(b, key, elements), {key}) && Apart(a, ApplySRem(a, key, elements).view, {key})
  {
    assert key in {key};
    assert MembersOf(a, key) == MembersOf(b, key);
  }

  /** Whatever else there is, a command does the same to the keys it names, with the same reply, and changes no other; but
      for a flush, which names none and empties all. */
  lemma {:induction false} UsesOnly(a: Keys, b: Keys, c: Command, now: nat)
    requires !c.CFlush? && Agree(a, b, Uses(c))
    ensures Alike(Apply(a, c, now), Apply(b, c, now), Uses(c)) && Apart(a, Apply(a, c, now).view, Uses(c))
  {
    if Several(c) {
      SeveralLocal(a, b, c, now);
    } else if Timed(c) {
      TimedLocal(a, b, c, now);
    } else if Plain(c) {
      PlainLocal(a, b, c, now);
    } else if AtEnds(c) {
      EndsLocal(a, b, c, now);
    } else if InMiddle(c) {
      MiddleLocal(a, b, c, now);
    } else {
      match c {
        case CSet(key, value, when, get, expiry) => SetLocal(a, b, key, value, when, get, expiry, now);
        case CSAdd(key, elements) => SAddLocal(a, b, key, elements);
        case CSRem(key, elements) => SRemLocal(a, b, key, elements);
        case CSPop(key, wanted) =>
      }
    }
  }

  // ---- and the keys its arguments name -----------------------------------------------------------

  /** The words a command is called by. */
  function Words(c: Command): set<string>
  {
    match c
    case CSet(_, _, _, _, _) => {"SET", "SETEX", "PSETEX"}
    case CSetNx(_, _) => {"SETNX"}
    case CGetSet(_, _) => {"GETSET"}
    case CGetDel(_) => {"GETDEL"}
    case CGetEx(_, _) => {"GETEX"}
    case CDelIfEq(_, _) => {"DELIFEQ"}
    case CAppend(_, _) => {"APPEND"}
    case CMSet(_, nx) => if nx then {"MSETNX"} else {"MSET"}
    case CDel(_) => {"DEL", "UNLINK"}
    case CExpire(_, _, _, _, _) => {"EXPIRE", "EXPIREAT", "PEXPIRE", "PEXPIREAT"}
    case CPersist(_) => {"PERSIST"}
    case CRename(_, _, nx) => if nx then {"RENAMENX"} else {"RENAME"}
    case CFlush => {"FLUSHALL", "FLUSHDB"}
    case CPush(_, _, _, _) => {"LPUSH", "LPUSHX", "RPUSH", "RPUSHX"}
    case CPop(_, _, _) => {"LPOP", "RPOP"}
    case CTrim(_, _, _) => {"LTRIM"}
    case CRem(_, _, _) => {"LREM"}
    case CSetAt(_, _, _) => {"LSET"}
    case CInsert(_, _, _, _) => {"LINSERT"}
    case CMove(_, _, _, _) => {"LMOVE", "RPOPLPUSH"}
    case CBPop(_, _) => {"BLPOP", "BRPOP"}
    case CBMove(_, _, _, _) => {"BLMOVE"}
    case CSAdd(_, _) => {"SADD"}
    case CSRem(_, _) => {"SREM"}
    case CSMove(_, _, _) => {"SMOVE"}
    case CSPop(_, _) => {"SPOP"}
  }

  /** The arguments are those of the command, as far as the keys go: it takes them from where its parser does. */
  ghost predicate Called(argv: seq<string>, c: Command)
  {
    && Arguments.Name(argv) in Words(c) && argv != []
    && match c
       case CMSet(pairs, _) => |argv| == 2 * |pairs| + 1 && forall i :: 0 <= i < |pairs| ==> pairs[i].0 == argv[2 * i + 1]
       case CDel(names) => names == argv[1..]
       case CBPop(names, _) => |argv| > 2 && names == argv[1..|argv| - 1]
       case CRename(from, to, _) => |argv| > 2 && from == argv[1] && to == argv[2]
       case CMove(from, to, _, _) => |argv| > 2 && from == argv[1] && to == argv[2]
       case CBMove(from, to, _, _) => |argv| > 2 && from == argv[1] && to == argv[2]
       case CSMove(from, to, _) => |argv| > 2 && from == argv[1] && to == argv[2]
       case CFlush => true
       case _ => |argv| > 1 && c.key == argv[1]
  }

  /** The key arguments are these, all marked as changed. */
  ghost predicate Marks(argv: seq<string>, keys: set<string>)
  {
    var args := Arguments.KeyArgs(argv);
    && args.Some?
    && (forall i :: 0 <= i < |args.value| ==> args.value[i].0 < |argv| && argv[args.value[i].0] in keys && args.value[i].1)
    && (forall key :: key in keys ==> exists i :: 0 <= i < |args.value| && args.value[i].0 < |argv| && argv[args.value[i].0] == key)
  }

  lemma {:induction false} OneSpec(name: string, c: Command)
    requires !Several(c) && !c.CFlush? && name in Words(c)
    ensures Arguments.KeySpec(name) == Some(Arguments.Keys.First(true))
  {
    Arguments.SetSpecs();
    Arguments.StringSpecs();
    Arguments.HeldSpecs();
    Arguments.UntilSpecs();
    Arguments.ExpireSpecs();
    Arguments.PushSpecs();
    Arguments.PopSpecs();
    Arguments.ListSpecs();
    Arguments.MemberSpecs();
  }

  /** The names from the first argument to before `to` are the key arguments. */
  lemma {:induction false} RangeMarked(argv: seq<string>, to: nat, names: seq<string>)
    requires 1 <= to <= |argv| && names == argv[1..to] && Arguments.KeyArgs(argv) == Some(Arguments.Range(argv, 1, to, true))
    ensures Marks(argv, All(names))
  {
    var args := Arguments.KeyArgs(argv).value;
    assert |args| == |names| && forall i :: 0 <= i < |names| ==> names[i] == argv[i + 1] && args[i] == (i + 1, true);
    forall i | 0 <= i < |args| ensures argv[args[i].0] in All(names) {
      assert names[i] in All(names);
    }
    forall key | key in All(names) ensures exists i :: 0 <= i < |args| && args[i].0 < |argv| && argv[args[i].0] == key {
      var i :| 0 <= i < |names| && names[i] == key;
      assert argv[args[i].0] == key;
    }
  }

  lemma {:induction false} NamesFrom(pairs: seq<(string, string)>, key: string)
    ensures key in Names(pairs) <==> exists i :: 0 <= i < |pairs| && pairs[i].0 == key
  {
    if pairs != [] {
      NamesFrom(pairs[..|pairs| - 1], key);
    }
  }

  lemma {:induction false} PairsMarked(argv: seq<string>, c: Command)
    requires c.CMSet? && Called(argv, c)
    ensures Marks(argv, Uses(c))
  {
    var args := Arguments.KeyArgs(argv).value;
    Arguments.ManySpecs();
    assert Arguments.KeyArgs(argv) == Some(Arguments.EveryOther(argv));
    forall i | 0 <= i < |args| ensures args[i].0 < |argv| && argv[args[i].0] in Uses(c) {
      assert c.pairs[i].0 == argv[2 * i + 1];
      NamesHold(c.pairs, i);
    }
    forall key | key in Uses(c) ensures exists i :: 0 <= i < |args| && args[i].0 < |argv| && argv[args[i].0] == key {
      NamesFrom(c.pairs, key);
      var i :| 0 <= i < |c.pairs| && c.pairs[i].0 == key;
      assert argv[args[i].0] == key;
    }
  }

  lemma {:induction false} TwoMarked(argv: seq<string>, c: Command)
    requires (c.CRename? || c.CMove? || c.CBMove? || c.CSMove?) && Called(argv, c)
    ensures Marks(argv, Uses(c))
  {
    var args := Arguments.KeyArgs(argv).value;
    Arguments.TwoSpecs();
    assert Arguments.KeyArgs(argv) == Some(Arguments.Range(argv, 1, 3, true));
    assert argv[args[0].0] == c.from && argv[args[1].0] == c.to;
  }

  lemma {:induction false} OneMarked(argv: seq<string>, c: Command)
    requires !Several(c) && !c.CFlush? && Called(argv, c)
    ensures Marks(argv, Uses(c))
  {
    var args := Arguments.KeyArgs(argv).value;
    OneSpec(Arguments.Name(argv), c);
    assert Arguments.KeyArgs(argv) == Some(Arguments.Range(argv, 1, 2, true));
    assert argv[args[0].0] == c.key;
  }

  /** Its key arguments are the keys a command uses, and all are marked as changed. */
  lemma {:induction false} UsesMarked(argv: seq<string>, c: Command)
    requires Called(argv, c) && !c.CFlush?
    ensures Marks(argv, Uses(c))
  {
    if c.CDel? || c.CBPop? {
      Arguments.ManySpecs();
      RangeMarked(argv, if c.CDel? then |argv| else |argv| - 1, c.names);
    } else if c.CMSet? {
      PairsMarked(argv, c);
    } else if Several(c) {
      TwoMarked(argv, c);
    } else {
      OneMarked(argv, c);
    }
  }

  /** The same is held under each key argument. */
  ghost predicate AgreeOn(a: Keys, b: Keys, argv: seq<string>, args: seq<(nat, bool)>)
  {
    forall i :: 0 <= i < |args| && args[i].0 < |argv| ==>
      var key := argv[args[i].0]; (key in a <==> key in b) && (key in a ==> a[key] == b[key])
  }

  lemma {:induction false} AgreeMarked(argv: seq<string>, a: Keys, b: Keys, keys: set<string>)
    requires Marks(argv, keys)
    ensures AgreeOn(a, b, argv, Arguments.KeyArgs(argv).value) <==> Agree(a, b, keys)
  {
    var args := Arguments.KeyArgs(argv).value;
    if AgreeOn(a, b, argv, args) {
      forall k | k in keys ensures (k in a <==> k in b) && (k in a ==> a[k] == b[k]) {
        var i :| 0 <= i < |args| && args[i].0 < |argv| && argv[args[i].0] == k;
      }
    }
  }

  lemma {:induction false} MarkedKey(argv: seq<string>, keys: set<string>, key: string)
    requires Marks(argv, keys) && key in keys
    ensures var args := Arguments.KeyArgs(argv).value;
            exists i :: 0 <= i < |args| && args[i].0 < |argv| && argv[args[i].0] == key && args[i].1
  {
    var args := Arguments.KeyArgs(argv).value;
    var i :| 0 <= i < |args| && args[i].0 < |argv| && argv[args[i].0] == key;
    assert args[i].1;
  }

  /** What a command changes is marked among its key arguments. */
  lemma {:induction false} ChangesMarked(argv: seq<string>, view: Keys, c: Command, now: nat, key: string)
    requires Called(argv, c) && !c.CFlush?
    requires var after := Apply(view, c, now).view; (key in after) != (key in view) || (key in view && after[key] != view[key])
    ensures var args := Arguments.KeyArgs(argv);
            args.Some? && exists i :: 0 <= i < |args.value| && args.value[i].0 < |argv| && argv[args.value[i].0] == key && args.value[i].1
  {
    UsesMarked(argv, c);
    UsesOnly(view, view, c, now);
    MarkedKey(argv, Uses(c), key);
  }

  /** What a command does to its key arguments, and replies, is settled by what they hold. */
  lemma {:induction false} KeyArgsGovern(argv: seq<string>, a: Keys, b: Keys, c: Command, now: nat)
    requires Called(argv, c) && !c.CFlush?
    requires Arguments.KeyArgs(argv).Some? ==> AgreeOn(a, b, argv, Arguments.KeyArgs(argv).value)
    ensures var args := Arguments.KeyArgs(argv);
            && args.Some? && Apply(a, c, now).reply == Apply(b, c, now).reply
            && AgreeOn(Apply(a, c, now).view, Apply(b, c, now).view, argv, args.value)
  {
    UsesMarked(argv, c);
    AgreeMarked(argv, a, b, Uses(c));
    UsesOnly(a, b, c, now);
    AgreeMarked(argv, Apply(a, c, now).view, Apply(b, c, now).view, Uses(c));
  }

  /** Commands that look at one key mark it as looked at. */
  lemma {:induction false} LooksAtOne(argv: seq<string>)
    requires Arguments.Name(argv) in Arguments.READERS && |argv| > 1
    ensures Arguments.KeyArgs(argv) == Some([(1, false)])
  {
    Arguments.LookSpec(Arguments.Name(argv));
    var args := Arguments.Range(argv, 1, 2, false);
    assert args[0] == (1, false);
    assert args == [(1, false)];
  }

  /** Commands that look at several keys mark each as looked at. */
  lemma {:induction false} LooksAtAll(argv: seq<string>, i: nat)
    requires Arguments.Name(argv) in {"EXISTS", "MGET", "SDIFF", "SINTER", "SUNION"} && 0 < i < |argv|
    ensures var args := Arguments.KeyArgs(argv);
            args.Some? && |args.value| == |argv| - 1 && args.value[i - 1] == (i, false)
  {
    Arguments.LookerSpecs();
    assert Arguments.KeyArgs(argv) == Some(Arguments.Range(argv, 1, |argv|, false));
  }

  /** Commands about a stream's groups name it after a subcommand; XGROUP may change it. */
  lemma {:induction false} GroupKeys(argv: seq<string>)
    requires Arguments.Name(argv) in {"XINFO", "XGROUP"} && |argv| > 2
    ensures Arguments.KeyArgs(argv) == Some([(2, Arguments.Name(argv) == "XGROUP")])
  {
    Arguments.GroupSpecs();
    var args := Arguments.Range(argv, 2, 3, Arguments.Name(argv) == "XGROUP");
    assert args[0] == (2, Arguments.Name(argv) == "XGROUP");
    assert args == [args[0]];
  }

  lemma {:induction false} GroupSpecs()
    ensures Arguments.KeySpec("XINFO") == Some(Arguments.Keys.Second(false)) && Arguments.KeySpec("XGROUP") == Some(Arguments.Keys.Second(true))
  {}
}
