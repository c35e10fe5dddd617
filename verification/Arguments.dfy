/**
 Which arguments of a command are keys, without running it.

 A client's scope is checked against these keys before a command runs, and a refusal to write against
 whether the command writes at all: so they have to be the keys that the command, once it parses
 its own arguments, will use.
 */
module Arguments {
  import opened Common

  type Argv = seq<string>

  function Upper(word: string): (r: string)
    ensures |r| == |word|
  {
    seq(|word|, i requires 0 <= i < |word| => if 'a' <= word[i] <= 'z' then word[i] - 'a' + 'A' else word[i])
  }

  const LOWER := "abcdefghijklmnopqrstuvwxyz"
  const UPPER := "ABCDEFGHIJKLMNOPQRSTUVWXYZ"

  /** Each of the 26 small letters becomes the capital in its place, and nothing else changes. */
  lemma {:induction false} UpperExactly(word: string, i: nat, k: nat)
    requires i < |word| && k < 26
    ensures word[i] == LOWER[k] ==> Upper(word)[i] == UPPER[k]
    ensures word[i] !in LOWER ==> Upper(word)[i] == word[i]
  {
    if 'a' <= word[i] <= 'z' {
      var at := (word[i] - 'a') as nat;
      assert LOWER[at] == word[i];
    }
  }

  /** The longest a command's name may be. */
  const NAME: nat := 24

  /** The word a command is looked up by, upper-cased; nothing once it is longer than every known word. */
  function Name(argv: Argv): string
  {
    if argv == [] || |argv[0]| > NAME then "" else Upper(argv[0])
  }

  /** Where a command's keys are: the argument or all arguments after its name, every other one, the
      first two, all but the last, those after `STREAMS`, or the one after a subcommand. */
  datatype Keys = Nothing | First(write: bool) | All(write: bool) | Pairs | Two | AllButLast | Streams(from: nat, write: bool) | Second(write: bool)

  const FLUSHES: set<string> := {"FLUSHALL", "FLUSHDB"}
  const KEYLESS: set<string> := {
    "COMMAND", "DBSIZE", "ECHO", "FLUSHALL", "FLUSHDB", "INFO", "KEYS", "PING", "PUBLISH", "PUBSUB", "SCAN", "TIME"}
  const READERS: set<string> := {
    "EXPIRETIME", "GET", "HEXISTS", "HGET", "HGETALL", "HKEYS", "HLEN", "HMGET", "HVALS", "LINDEX", "LLEN", "LRANGE",
    "PEXPIRETIME", "PTTL", "SCARD", "SISMEMBER", "SMEMBERS", "SMISMEMBER", "SRANDMEMBER", "STRLEN", "TTL", "TYPE",
    "XLEN", "XPENDING", "XRANGE", "XREVRANGE", "ZCARD", "ZCOUNT", "ZMSCORE", "ZRANGE", "ZRANGEBYSCORE", "ZRANK",
    "ZREVRANGE", "ZREVRANGEBYSCORE", "ZREVRANK", "ZSCORE"}
  const WRITERS: set<string> := {
    "APPEND", "DECR", "DECRBY", "DELIFEQ", "EXPIRE", "EXPIREAT", "GETDEL", "GETEX", "GETSET", "HDEL", "HINCRBY",
    "HINCRBYFLOAT", "HMSET", "HSET", "HSETNX", "INCR", "INCRBY", "INCRBYFLOAT", "LINSERT", "LPOP", "LPUSH", "LPUSHX",
    "LREM", "LSET", "LTRIM", "PERSIST", "PEXPIRE", "PEXPIREAT", "PSETEX", "RPOP", "RPUSH", "RPUSHX", "SADD", "SET",
    "SETEX", "SETNX", "SPOP", "SREM", "XACK", "XADD", "XAUTOCLAIM", "XCLAIM", "XDEL", "XTRIM", "ZADD", "ZINCRBY",
    "ZPOPMAX", "ZPOPMIN", "ZREM", "ZREMRANGEBYRANK", "ZREMRANGEBYSCORE"}

  function KeySpec(name: string): Option<Keys>
  {
    if name in KEYLESS then Some(Nothing)
    else if name in {"EXISTS", "MGET", "SDIFF", "SINTER", "SUNION"} then Some(All(false))
    else if name in {"DEL", "UNLINK"} then Some(All(true))
    else if name in {"MSET", "MSETNX"} then Some(Pairs)
    else if name in {"BLMOVE", "LMOVE", "RENAME", "RENAMENX", "RPOPLPUSH", "SMOVE"} then Some(Two)
    else if name in {"BLPOP", "BRPOP", "BZPOPMAX", "BZPOPMIN"} then Some(AllButLast)
    else if name == "XREAD" then Some(Streams(1, false))
    else if name == "XREADGROUP" then Some(Streams(4, true))
    else if name == "XGROUP" then Some(Second(true))
    else if name == "XINFO" then Some(Second(false))
    else if name in READERS then Some(First(false))
    else if name in WRITERS then Some(First(true))
    else None
  }

  // ---- stream keys ---------------------------------------------------------------------------------

  /** Where the word `STREAMS` is, past the options before it. */
  function StreamsAt(argv: Argv, i: nat): (r: Option<nat>)
    ensures r.Some? ==> i <= r.value < |argv|
    decreases if i < |argv| then |argv| - i else 0
  {
    if i >= |argv| then None
    else
      var word := Upper(argv[i]);
      if word == "COUNT" || word == "BLOCK" then StreamsAt(argv, i + 2)
      else if word == "NOACK" then StreamsAt(argv, i + 1)
      else if word == "STREAMS" then Some(i)
      else None
  }

  /** The arguments that are stream keys: half of those after `STREAMS`. */
  function StreamRange(argv: Argv, from: nat): (r: (nat, nat))
    ensures r.0 <= r.1 <= |argv|
  {
    var at := StreamsAt(argv, from);
    if at.None? then (0, 0) else (at.value + 1, at.value + 1 + (|argv| - at.value - 1) / 2)
  }

  /** Finds the half of the arguments after STREAMS that names keys, once the options before it are past. */
  method StreamKeys(argv: Argv, from: nat) returns (start: nat, end: nat)
    ensures (start, end) == StreamRange(argv, from)
  {
    var i := from;
    while i < |argv|
      invariant StreamsAt(argv, from) == StreamsAt(argv, i)
      decreases |argv| - i
    {
      var word := Upper(argv[i]);
      if word == "COUNT" || word == "BLOCK" {
        i := i + 2;
      } else if word == "NOACK" {
        i := i + 1;
      } else if word == "STREAMS" {
        return i + 1, i + 1 + (|argv| - (i + 1)) / 2;
      } else {
        break;
      }
    }
    return 0, 0;
  }

  datatype ReadOptions = ReadOptions(
    count: Option<nat>, block: Option<nat>, blockAt: Option<nat>, noack: bool, keys: seq<string>, ids: seq<string>, idsAt: nat)

  const SYNTAX := "ERR syntax error"
  const UNBALANCED := "ERR Unbalanced list of streams: for each stream key an ID or '$' must be specified."
  const BAD_COUNT := "ERR value is out of range, must be positive"
  const BAD_TIMEOUT := "ERR timeout is not an integer or out of range"
  const NEGATIVE_TIMEOUT := "ERR timeout is negative"

  /** What XREAD and XREADGROUP read. The keys it comes to are those that `StreamKeys` finds. */
  method ParseReadOptions(argv: Argv, from: nat, number: string -> Option<int>) returns (r: Result<ReadOptions, string>)
    ensures r.Ok? ==>
              var (start, end) := StreamRange(argv, from);
              && start < end && r.value.keys == argv[start..end]
              && r.value.idsAt == end && r.value.ids == argv[end..] && |r.value.ids| == |r.value.keys|
  {
    var options := ReadOptions(None, None, None, false, [], [], 0);
    var i := from;
    while i < |argv|
      invariant StreamsAt(argv, from) == StreamsAt(argv, i)
      decreases |argv| - i
    {
      var word := Upper(argv[i]);
      if word == "COUNT" {
        if i + 1 >= |argv| {
          return Err(SYNTAX);
        }
        var n := number(argv[i + 1]);
        if n.None? || n.value < 0 {
          return Err(BAD_COUNT);
        }
        options := options.(count := Some(n.value));
        i := i + 2;
      } else if word == "BLOCK" {
        if i + 1 >= |argv| {
          return Err(SYNTAX);
        }
        var ms := number(argv[i + 1]);
        if ms.None? {
          return Err(BAD_TIMEOUT);
        }
        if ms.value < 0 {
          return Err(NEGATIVE_TIMEOUT);
        }
        options := options.(block := Some(ms.value), blockAt := Some(i));
        i := i + 2;
      } else if word == "NOACK" {
        options := options.(noack := true);
        i := i + 1;
      } else if word == "STREAMS" {
        var rest := argv[i + 1..];
        if rest == [] || |rest| % 2 == 1 {
          return Err(UNBALANCED);
        }
        var half := |rest| / 2;
        assert rest[..half] == argv[i + 1..i + 1 + half] && rest[half..] == argv[i + 1 + half..];
        return Ok(options.(keys := rest[..half], ids := rest[half..], idsAt := i + 1 + half));
      } else {
        return Err(SYNTAX);
      }
    }
    return Err(SYNTAX);
  }

  // ---- keys ---------------------------------------------------------------------------------------------

  /** Positions from `start` to before `end`, all with the same mark for writing. */
  function Range(argv: Argv, start: nat, end: nat, write: bool): (r: seq<(nat, bool)>)
    ensures forall i :: 0 <= i < |r| ==> r[i] == (start + i, write) && start + i < |argv| && start + i < end
    ensures r == [] <==> start >= |argv| || start >= end
    ensures end <= |argv| && start <= end ==> |r| == end - start
  {
    var to := if end < |argv| then end else |argv|;
    if start < to then seq(to - start, i requires 0 <= i < to - start => (start + i, write)) else []
  }

  function EveryOther(argv: Argv): (r: seq<(nat, bool)>)
    ensures forall i :: 0 <= i < |r| ==> r[i] == (2 * i + 1, true) && 2 * i + 1 < |argv|
    ensures |r| == |argv| / 2
  {
    seq(|argv| / 2, i requires 0 <= i < |argv| / 2 => (2 * i + 1, true))
  }

  /** The arguments that are keys, by where a command's keys are. */
  function KeysOf(spec: Keys, argv: Argv): seq<(nat, bool)>
  {
    match spec
    case Nothing => []
    case First(write) => Range(argv, 1, 2, write)
    case All(write) => Range(argv, 1, |argv|, write)
    case Pairs => EveryOther(argv)
    case Two => Range(argv, 1, 3, true)
    case AllButLast => Range(argv, 1, if |argv| > 2 then |argv| - 1 else 1, true)
    case Streams(from, write) => Range(argv, StreamRange(argv, from).0, StreamRange(argv, from).1, write)
    case Second(write) => Range(argv, 2, 3, write)
  }

  /** Which positions of the arguments hold keys, and which of those are marked for writing; unknown commands have none. */
  function KeyArgs(argv: Argv): Option<seq<(nat, bool)>>
  {
    match KeySpec(Name(argv))
    case None => None
    case Some(spec) => Some(KeysOf(spec, argv))
  }

  /** Some key argument is marked as one the command may change. */
  ghost predicate Changes(keys: seq<(nat, bool)>)
  {
    exists i :: 0 <= i < |keys| && keys[i].1
  }

  method WritesBy(spec: Keys, argv: Argv) returns (writes: bool)
    ensures writes <==> Changes(KeysOf(spec, argv))
  {
    match spec {
      case Nothing => writes := false;
      case First(write) => writes := write && |argv| > 1;
      case All(write) => writes := write && |argv| > 1;
      case Pairs => writes := |argv| > 1;
      case Two => writes := |argv| > 1;
      case AllButLast => writes := |argv| > 2;
      case Streams(from, write) =>
        var start, end := StreamKeys(argv, from);
        writes := write && start < |argv| && start < end;
      case Second(write) => writes := write && |argv| > 2;
    }
    ghost var keys := KeysOf(spec, argv);
    assert keys != [] ==> keys[0].1 == Marked(spec);
    assert !Marked(spec) ==> forall i :: 0 <= i < |keys| ==> !keys[i].1;
  }

  /** Whether a command marks its keys as changed, if it has any. */
  ghost predicate Marked(spec: Keys)
  {
    match spec
    case Nothing => false
    case First(write) => write
    case All(write) => write
    case Pairs => true
    case Two => true
    case AllButLast => true
    case Streams(_, write) => write
    case Second(write) => write
  }

  /** Decides without building the list of keys whether some key is marked for writing, or the command flushes. */
  method Writes(argv: Argv) returns (writes: bool)
    ensures writes <==> Name(argv) in FLUSHES || (KeyArgs(argv).Some? && Changes(KeyArgs(argv).value))
  {
    var name := Name(argv);
    if name in FLUSHES {
      return true;
    }
    var spec := KeySpec(name);
    if spec.None? {
      return false;
    }
    writes := WritesBy(spec.value, argv);
  }

  lemma {:induction false} StreamReaders()
    ensures KeySpec("XREAD") == Some(Streams(1, false)) && KeySpec("XREADGROUP") == Some(Streams(4, true))
  {}

  /** The keys a stream reader comes to are its key arguments, in order. */
  ghost predicate KeysAre(argv: Argv, keys: seq<string>, args: seq<(nat, bool)>, write: bool)
  {
    && |args| == |keys|
    && forall i :: 0 <= i < |keys| ==> args[i].0 < |argv| && keys[i] == argv[args[i].0] && args[i].1 == write
  }

  lemma {:induction false} RangeKeys(argv: Argv, start: nat, end: nat, write: bool)
    requires start <= end <= |argv|
    ensures KeysAre(argv, argv[start..end], Range(argv, start, end, write), write)
  {}

  /** Whenever a stream reader can parse its arguments, the keys it reads are its key arguments. */
  method ReadsItsKeys(argv: Argv, group: bool, number: string -> Option<int>) returns (r: Result<ReadOptions, string>)
    requires Name(argv) == if group then "XREADGROUP" else "XREAD"
    ensures KeyArgs(argv).Some?
    ensures r.Ok? ==> KeysAre(argv, r.value.keys, KeyArgs(argv).value, group)
  {
    var from := if group then 4 else 1;
    r := ParseReadOptions(argv, from, number);
    StreamReaders();
    var (start, end) := StreamRange(argv, from);
    RangeKeys(argv, start, end, group);
    assert KeyArgs(argv) == Some(KeysOf(Streams(from, group), argv));
  }

  // ---- which words have which keys ---------------------------------------------------------------

  lemma {:induction false} ManySpecs()
    ensures KeySpec("DEL") == KeySpec("UNLINK") == Some(All(true))
    ensures KeySpec("BLPOP") == KeySpec("BRPOP") == Some(AllButLast)
    ensures KeySpec("MSET") == KeySpec("MSETNX") == Some(Pairs)
  {}

  lemma {:induction false} TwoSpecs()
    ensures KeySpec("RENAME") == KeySpec("RENAMENX") == KeySpec("LMOVE") == Some(Two)
    ensures KeySpec("RPOPLPUSH") == KeySpec("BLMOVE") == KeySpec("SMOVE") == Some(Two)
  {}

  lemma {:induction false} LookerSpecs()
    ensures KeySpec("EXISTS") == KeySpec("MGET") == Some(All(false))
    ensures KeySpec("SDIFF") == KeySpec("SINTER") == KeySpec("SUNION") == Some(All(false))
  {}

  lemma {:induction false} GroupSpecs()
    ensures KeySpec("XINFO") == Some(Second(false)) && KeySpec("XGROUP") == Some(Second(true))
  {}

  lemma {:induction false} SetSpecs()
    ensures KeySpec("SET") == KeySpec("SETEX") == KeySpec("PSETEX") == Some(First(true))
  {}

  lemma {:induction false} StringSpecs()
    ensures KeySpec("SETNX") == KeySpec("GETSET") == KeySpec("GETDEL") == Some(First(true))
  {}

  lemma {:induction false} HeldSpecs()
    ensures KeySpec("GETEX") == KeySpec("DELIFEQ") == KeySpec("APPEND") == Some(First(true))
  {}

  lemma {:induction false} UntilSpecs()
    ensures KeySpec("PERSIST") == KeySpec("EXPIRE") == KeySpec("EXPIREAT") == Some(First(true))
  {}

  lemma {:induction false} ExpireSpecs()
    ensures KeySpec("PEXPIRE") == KeySpec("PEXPIREAT") == KeySpec("LPUSH") == Some(First(true))
  {}

  lemma {:induction false} PushSpecs()
    ensures KeySpec("LPUSHX") == KeySpec("RPUSH") == KeySpec("RPUSHX") == Some(First(true))
  {}

  lemma {:induction false} PopSpecs()
    ensures KeySpec("LPOP") == KeySpec("RPOP") == KeySpec("LTRIM") == Some(First(true))
  {}

  lemma {:induction false} ListSpecs()
    ensures KeySpec("LREM") == KeySpec("LSET") == KeySpec("LINSERT") == Some(First(true))
  {}

  lemma {:induction false} MemberSpecs()
    ensures KeySpec("SADD") == KeySpec("SREM") == KeySpec("SPOP") == Some(First(true))
  {}

  lemma {:induction false} LookSpecsA()
    ensures KeySpec("EXPIRETIME") == KeySpec("GET") == KeySpec("HEXISTS") == KeySpec("HGET") == Some(First(false))
  {}

  lemma {:induction false} LookSpecsB()
    ensures KeySpec("HGETALL") == KeySpec("HKEYS") == KeySpec("HLEN") == KeySpec("HMGET") == Some(First(false))
  {}

  lemma {:induction false} LookSpecsC()
    ensures KeySpec("HVALS") == KeySpec("LINDEX") == KeySpec("LLEN") == KeySpec("LRANGE") == Some(First(false))
  {}

  lemma {:induction false} LookSpecsD()
    ensures KeySpec("PEXPIRETIME") == KeySpec("PTTL") == KeySpec("SCARD") == KeySpec("SISMEMBER") == Some(First(false))
  {}

  lemma {:induction false} LookSpecsE()
    ensures KeySpec("SMEMBERS") == KeySpec("SMISMEMBER") == KeySpec("SRANDMEMBER") == KeySpec("STRLEN") == Some(First(false))
  {}

  lemma {:induction false} LookSpecsF()
    ensures KeySpec("TTL") == KeySpec("TYPE") == KeySpec("XLEN") == KeySpec("XPENDING") == Some(First(false))
  {}

  lemma {:induction false} LookSpecsG()
    ensures KeySpec("XRANGE") == KeySpec("XREVRANGE") == KeySpec("ZCARD") == KeySpec("ZCOUNT") == Some(First(false))
  {}

  lemma {:induction false} LookSpecsH()
    ensures KeySpec("ZMSCORE") == KeySpec("ZRANGE") == KeySpec("ZRANGEBYSCORE") == KeySpec("ZRANK") == Some(First(false))
  {}

  lemma {:induction false} LookSpecsI()
    ensures KeySpec("ZREVRANGE") == KeySpec("ZREVRANGEBYSCORE") == KeySpec("ZREVRANK") == KeySpec("ZSCORE") == Some(First(false))
  {}

  lemma {:induction false} LookSpec(name: string)
    requires name in READERS
    ensures KeySpec(name) == Some(First(false))
  {
    if name in {"EXPIRETIME", "GET", "HEXISTS", "HGET"} {
      LookSpecsA();
    } else if name in {"HGETALL", "HKEYS", "HLEN", "HMGET"} {
      LookSpecsB();
    } else if name in {"HVALS", "LINDEX", "LLEN", "LRANGE"} {
      LookSpecsC();
    } else if name in {"PEXPIRETIME", "PTTL", "SCARD", "SISMEMBER"} {
      LookSpecsD();
    } else if name in {"SMEMBERS", "SMISMEMBER", "SRANDMEMBER", "STRLEN"} {
      LookSpecsE();
    } else if name in {"TTL", "TYPE", "XLEN", "XPENDING"} {
      LookSpecsF();
    } else if name in {"XRANGE", "XREVRANGE", "ZCARD", "ZCOUNT"} {
      LookSpecsG();
    } else if name in {"ZMSCORE", "ZRANGE", "ZRANGEBYSCORE", "ZRANK"} {
      LookSpecsH();
    } else {
      LookSpecsI();
    }
  }
}
