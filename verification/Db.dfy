/**
 The keyspace: keys with an optional expiry, a capture of it that goes on while it changes,
 and the deadlines by which the expire cycle finds what is due.

 Keys have any total order; what they hold, and how it is written, is left open.
 */
module Database {
  import opened Common
  import opened Sorting
  import opened Capturing

  datatype Entry<V> = Entry(value: V, expires: Option<nat>)
  {
    predicate Expired(now: nat)
    {
      expires.Some? && expires.value <= now
    }
  }

  /** A key's name and when it expires. */
  datatype Deadline<K> = Deadline(at: nat, key: K)

  /** The most keys that one batch of the expire cycle takes. */
  const EXPIRE_BATCH := 1000

  /** Stale deadlines allowed besides two for each key. */
  const STALE := 1024

  const CLOSE: byte := 125

  /** A change to the keyspace, or something done with the capture, while one is in progress. */
  datatype Op<!K, !V> =
    | Insert(key: K, entry: Entry<V>)
    | Replace(key: K, entry: Entry<V>)
    | Take(key: K)
    | Change(key: K, now: nat, change: Entry<V> -> Entry<V>)
    | Prune(key: K)
    | Clear
    | Expire(now: nat)
    | CaptureRun(budget: Budget)
    | Drain

  /** What is held, and the deadlines noted for it. */
  datatype Keyspace<K, V> = Keyspace(keys: map<K, Entry<V>>, deadlines: multiset<Deadline<K>>)

  /** The deadlines of every key that has one. */
  function Index<K, V>(keys: map<K, Entry<V>>): set<Deadline<K>>
  {
    set k | k in keys && keys[k].expires.Some? :: Deadline(keys[k].expires.value, k)
  }

  /** Every key that expires has its deadline, but perhaps `but`. */
  ghost predicate Indexed<K, V>(keys: map<K, Entry<V>>, deadlines: multiset<Deadline<K>>, but: Option<K>)
  {
    forall k :: k in keys && keys[k].expires.Some? && but != Some(k) ==> Deadline(keys[k].expires.value, k) in deadlines
  }

  /** The deadlines once one more is noted: stale ones are dropped when they outnumber the keys. */
  function Note<K, V>(keys: map<K, Entry<V>>, deadlines: multiset<Deadline<K>>, key: K, at: nat): multiset<Deadline<K>>
  {
    if |deadlines| + 1 > 2 * |keys| + STALE then multiset(Index(keys)) else deadlines + multiset{Deadline(at, key)}
  }

  /** RENAME notes a deadline for a name that is not stored yet. If noting it rebuilds the index, the deadline
      is lost, unless the name held something that expires at the same time. */
  predicate RenameLoses<K(==), V(==)>(keys: map<K, Entry<V>>, deadlines: multiset<Deadline<K>>, from: K, to: K)
    requires from in keys && from != to
  {
    && keys[from].expires.Some?
    && |deadlines| + 1 > 2 * (|keys| - 1) + STALE
    && !(to in keys && keys[to].expires == keys[from].expires)
  }

  /** RENAME moves the key, and the new name's deadline is lost. */
  predicate RenameDrops<K(==), V(==)>(
      keys: map<K, Entry<V>>, deadlines: multiset<Deadline<K>>, from: K, to: K, now: nat, nx: bool)
  {
    && from in keys && !keys[from].Expired(now) && from != to
    && !(nx && to in keys && !keys[to].Expired(now))
    && RenameLoses(keys, deadlines, from, to)
  }

  /** Keys that went away, or keep their expiry, or have none, need no new deadline. */
  lemma {:induction false} IndexedStill<K, V>(before: map<K, Entry<V>>, after: map<K, Entry<V>>, deadlines: multiset<Deadline<K>>)
    requires Indexed(before, deadlines, None)
    requires forall k :: k in after && after[k].expires.Some? ==> k in before && before[k].expires == after[k].expires
    ensures Indexed(after, deadlines, None)
  {}

  class Db<K(==, !new), V(==, !new)> {
    const less: (K, K) -> bool
    const text: (K, Entry<V>) -> Option<bytes>
    const emptyCollection: V -> bool
    const part: nat

    var keys: map<K, Entry<V>>
    /** The index of the expire cycle. It may hold more than is true of the keys now, but `DeadlinesHold` says
        that it holds no less. */
    var deadlines: multiset<Deadline<K>>
    var capture: Option<Capture<K>>

    /** Of the capture in progress: the keyspace when it began, the keys written since, what came
        before them, and what has been handed out. */
    ghost var start: map<K, Entry<V>>
    ghost var order: seq<K>
    ghost var prefix: bytes
    ghost var handed: bytes

    ghost predicate Valid()
      reads this
    {
      && TotalOrder(less)
      && (capture.Some? ==> Track(keys, capture.value, start, order, less, text, prefix, handed))
    }

    ghost predicate DeadlinesHold()
      reads this
    {
      Indexed(keys, deadlines, None)
    }

    /** No capture started or ended, and nothing was handed out. */
    twostate predicate SameCapture()
      reads this
    {
      && (capture.Some? <==> old(capture).Some?)
      && start == old(start) && prefix == old(prefix) && handed == old(handed)
    }

    constructor (less: (K, K) -> bool, text: (K, Entry<V>) -> Option<bytes>, emptyCollection: V -> bool, part: nat)
      requires TotalOrder(less)
      ensures Valid() && keys == map[] && deadlines == multiset{} && capture.None?
      ensures this.less == less && this.text == text && this.emptyCollection == emptyCollection && this.part == part
    {
      this.less, this.text, this.emptyCollection, this.part := less, text, emptyCollection, part;
      keys, deadlines, capture := map[], multiset{}, None;
    }

    /** Makes the account independent of what `key` holds: afterwards it stands for any keyspace that differs
        from this one at `key` only. */
    method PreserveFor(key: K)
      requires Valid()
      modifies this
      ensures keys == old(keys) && deadlines == old(deadlines) && SameCapture() && Valid()
      ensures capture.Some? ==>
                forall now: map<K, Entry<V>> :: (forall k :: k != key ==> (k in now <==> k in keys) && (k in keys ==> now[k] == keys[k])) ==>
                  Track(now, capture.value, start, order, less, text, prefix, handed)
    {
      if capture.None? {
        return;
      }
      var c := capture.value;
      forall now: map<K, Entry<V>> | forall k :: k != key ==> (k in now <==> k in keys) && (k in keys ==> now[k] == keys[k])
        ensures Track(now, Preserve(keys, c, key, less, text, part), start, Preserved(keys, c, order, key, less), less, text, prefix, handed)
      {
        PreserveKeeps(keys, now, c, start, order, key, less, text, prefix, handed, part);
      }
      order := Preserved(keys, c, order, key, less);
      capture := Some(Preserve(keys, c, key, less, text, part));
    }

    method Insert(key: K, entry: Entry<V>)
      requires Valid()
      modifies this
      ensures Valid() && SameCapture() && deadlines == old(deadlines)
      ensures keys == old(keys)[key := entry]
      ensures old(DeadlinesHold()) && entry.expires.None? ==> DeadlinesHold()
    {
      PreserveFor(key);
      keys := keys[key := entry];
    }

    /** Stores `entry` only over something held, live or not; otherwise it comes back and nothing is stored. */
    method Replace(key: K, entry: Entry<V>) returns (back: Option<Entry<V>>)
      requires Valid()
      modifies this
      ensures Valid() && SameCapture() && deadlines == old(deadlines)
      ensures back == if key in old(keys) then None else Some(entry)
      ensures keys == if key in old(keys) then old(keys)[key := entry] else old(keys)
    {
      PreserveFor(key);
      if key in keys {
        keys := keys[key := entry];
        back := None;
      } else {
        back := Some(entry);
      }
    }

    /** Takes out what a name holds, live or not. */
    method Take(key: K) returns (held: Option<Entry<V>>)
      requires Valid()
      modifies this
      ensures Valid() && SameCapture() && deadlines == old(deadlines)
      ensures keys == old(keys) - {key}
      ensures held == if key in old(keys) then Some(old(keys)[key]) else None
      ensures old(DeadlinesHold()) ==> DeadlinesHold()
    {
      PreserveFor(key);
      held := if key in keys then Some(keys[key]) else None;
      keys := keys - {key};
    }

    /** Empties the keyspace, once the account is complete. */
    method Clear()
      requires Valid()
      modifies this
      ensures Valid() && SameCapture() && deadlines == old(deadlines)
      ensures keys == map[]
      ensures DeadlinesHold()
    {
      var done := CaptureStep(Everything);
      keys := map[];
    }

    /** What a client finds under a name. */
    function Get(key: K, now: nat): (entry: Option<Entry<V>>)
      reads this
    {
      if key in keys && !keys[key].Expired(now) then Some(keys[key]) else None
    }

    /** A live key, changed through the reference handed out for it; an expired one is removed first. */
    method GetMut(key: K, now: nat, change: Entry<V> -> Entry<V>) returns (found: bool)
      requires Valid()
      modifies this
      ensures Valid() && SameCapture() && deadlines == old(deadlines)
      ensures found <==> old(Get(key, now)).Some?
      ensures keys == if found then old(keys)[key := change(old(keys)[key])] else old(keys) - {key}
      ensures old(DeadlinesHold()) && (found ==> change(old(keys)[key]).expires == old(keys)[key].expires) ==> DeadlinesHold()
    {
      PreserveFor(key);
      if key in keys && keys[key].Expired(now) {
        keys := keys - {key};
      }
      found := key in keys;
      if found {
        keys := keys[key := change(keys[key])];
      }
    }

    /** Removes the key if its collection is empty now. */
    method Prune(key: K)
      requires Valid()
      modifies this
      ensures Valid() && SameCapture() && deadlines == old(deadlines)
      ensures keys == if key in old(keys) && emptyCollection(old(keys)[key].value) then old(keys) - {key} else old(keys)
      ensures old(DeadlinesHold()) ==> DeadlinesHold()
    {
      if key in keys && emptyCollection(keys[key].value) {
        var held := Take(key);
      }
    }

    // ---- the capture ---------------------------------------------------------------------

    method BeginCapture(out: bytes)
      requires Valid()
      modifies this
      ensures Valid() && keys == old(keys) && deadlines == old(deadlines)
      ensures capture.Some? && start == keys && prefix == out && handed == []
    {
      capture := Some(Begun(Unbounded, out));
      start, order, prefix, handed := keys, [], out, [];
      BegunTracks(keys, Unbounded, out, less, text);
    }

    /** Lets the capture pass more keys, as far as `budget` goes, and keeps the account; true once all are passed. */
    method CaptureStep(budget: Budget) returns (done: bool)
      requires Valid()
      modifies this
      ensures Valid() && keys == old(keys) && deadlines == old(deadlines) && SameCapture()
      ensures done <==> capture.None? || capture.value.done
      ensures budget.Everything? ==> done
    {
      if capture.None? {
        return true;
      }
      var c, written := Step(keys, capture.value, budget, less, text, part, start, order, prefix, handed);
      capture, order := Some(c), written;
      done := c.done;
    }

    /** Hands out the full parts; the account says they follow what was handed out before. */
    method DrainCapture() returns (parts: seq<bytes>)
      requires Valid()
      modifies this
      ensures Valid() && keys == old(keys) && deadlines == old(deadlines)
      ensures capture.Some? <==> old(capture).Some?
      ensures start == old(start) && prefix == old(prefix)
      ensures if old(capture).Some? then handed == old(handed) + Concat(parts) else parts == []
    {
      if capture.None? {
        return [];
      }
      var c := capture.value;
      parts := c.parts;
      capture := Some(c.(parts := []));
      handed := handed + Concat(parts);
    }

    /** Closes the account: with what was handed out before, the result is one JSON object holding each starting key
        once, or an error exactly if some starting value had no text. */
    method EndCapture() returns (r: Result<seq<bytes>, string>, ghost written: seq<K>)
      requires Valid()
      modifies this
      ensures Valid() && keys == old(keys) && deadlines == old(deadlines) && capture.None?
      ensures old(capture).None? ==> r.Err?
      ensures old(capture).Some? ==>
                && (r.Err? <==> exists k :: k in old(start) && text(k, old(start)[k]).None?)
                && (r.Ok? ==> Closed(old(handed) + Concat(r.value), old(prefix), old(start), text, written))
    {
      var done := CaptureStep(Everything);
      written := order;
      if capture.None? {
        return Err("no snapshot is being taken"), written;
      }
      var c := capture.value;
      Finished(keys, c, start, order, less, text, prefix, handed);
      capture := None;
      if c.broken {
        return Err("a key could not be serialized"), written;
      }
      var last := c.out + [CLOSE];
      ConcatMore(c.parts, last);
      assert handed + Concat(c.parts + [last]) == Output(c, handed) + [CLOSE];
      return Ok(c.parts + [last]), written;
    }

    ghost function Now(): Keyspace<K, V>
      reads this
    {
      Keyspace(keys, deadlines)
    }

    /** What an operation does to the keyspace; none done with the capture does anything to it. */
    ghost function After(at: Keyspace<K, V>, op: Op<K, V>): Keyspace<K, V>
      requires TotalOrder(less)
    {
      var keys := at.keys;
      match op
      case Insert(key, entry) => at.(keys := keys[key := entry])
      case Replace(key, entry) => if key in keys then at.(keys := keys[key := entry]) else at
      case Take(key) => at.(keys := keys - {key})
      case Change(key, now, change) =>
        at.(keys := if key in keys && !keys[key].Expired(now) then keys[key := change(keys[key])] else keys - {key})
      case Prune(key) => if key in keys && emptyCollection(keys[key].value) then at.(keys := keys - {key}) else at
      case Clear => at.(keys := map[])
      case Expire(now) => WholeBatch(at, now, less, EXPIRE_BATCH)
      case CaptureRun(_) => at
      case Drain => at
    }

    /** Operations one after another. */
    ghost function AfterAll(at: Keyspace<K, V>, ops: seq<Op<K, V>>): Keyspace<K, V>
      requires TotalOrder(less)
    {
      if ops == [] then at else After(AfterAll(at, ops[..|ops| - 1]), ops[|ops| - 1])
    }

    /** One operation, and what it handed out. */
    method Apply(op: Op<K, V>) returns (given: seq<bytes>)
      requires Valid()
      modifies this
      ensures Valid() && Now() == After(old(Now()), op)
      ensures capture.Some? <==> old(capture).Some?
      ensures start == old(start) && prefix == old(prefix)
      ensures capture.Some? ==> handed == old(handed) + Concat(given)
    {
      given := [];
      match op
      case Insert(key, entry) =>
        Insert(key, entry);
      case Replace(key, entry) =>
        var back := Replace(key, entry);
      case Take(key) =>
        var held := Take(key);
      case Change(key, now, change) =>
        var found := GetMut(key, now, change);
      case Prune(key) =>
        Prune(key);
      case Clear =>
        Clear();
      case Expire(now) =>
        var expired := ExpireKeys(now);
      case CaptureRun(budget) =>
        var done := CaptureStep(budget);
      case Drain =>
        given := DrainCapture();
    }

    /** A capture from beginning to end, with any operations between, each taking effect on the keys. What it hands
        out is the starting keyspace, each key once. */
    method Play(out: bytes, ops: seq<Op<K, V>>) returns (r: Result<bytes, string>, ghost written: seq<K>)
      requires Valid()
      modifies this
      ensures Valid() && Now() == AfterAll(old(Now()), ops)
      ensures r.Ok? ==> Closed(r.value, out, old(keys), text, written)
      ensures r.Err? <==> exists k :: k in old(keys) && text(k, old(keys)[k]).None?
    {
      BeginCapture(out);
      ghost var began := keys;
      var all: bytes := [];
      for i := 0 to |ops|
        invariant Valid() && capture.Some?
        invariant start == began && prefix == out && handed == all
        invariant Now() == AfterAll(old(Now()), ops[..i])
      {
        assert ops[..i + 1][..i] == ops[..i];
        var given := Apply(ops[i]);
        all := all + Concat(given);
      }
      assert ops[..|ops|] == ops;
      var ended;
      ended, written := EndCapture();
      match ended
      case Ok(parts) => r := Ok(all + Concat(parts));
      case Err(error) => r := Err(error);
    }

    // ---- expiry --------------------------------------------------------------------------

    /** Makes the index exactly that of the keys. */
    method ReindexDeadlines()
      requires Valid()
      modifies this`deadlines
      ensures Valid() && deadlines == multiset(Index(keys)) && DeadlinesHold()
    {
      deadlines := multiset(Index(keys));
    }

    /** Adds a deadline, rebuilding the index if that makes it too long. If all other keys were covered, `key` is
        too, once it is stored. */
    method NoteDeadline(key: K, at: nat)
      requires Valid()
      modifies this`deadlines
      ensures Valid()
      ensures deadlines == Note(keys, old(deadlines), key, at)
      ensures old(Indexed(keys, deadlines, Some(key))) && (key in keys ==> keys[key].expires in {None, Some(at)}) ==> DeadlinesHold()
    {
      deadlines := deadlines + multiset{Deadline(at, key)};
      if |deadlines| > 2 * |keys| + STALE {
        ReindexDeadlines();
      }
    }

    /** Stores a key with its expiry, and then notes when it expires, as SET does. A key that holds nothing
        yet is stored only when it is admitted. */
    method Store(key: K, entry: Entry<V>, admitted: bool) returns (stored: bool)
      requires Valid()
      modifies this
      ensures Valid() && SameCapture() && stored == (key in old(keys) || admitted)
      ensures keys == if stored then old(keys)[key := entry] else old(keys)
      ensures deadlines ==
              if stored && entry.expires.Some? then Note(keys, old(deadlines), key, entry.expires.value) else old(deadlines)
      ensures old(DeadlinesHold()) ==> DeadlinesHold()
    {
      var back := Replace(key, entry);
      if back.Some? {
        if !admitted {
          return false;
        }
        Insert(key, entry);
      }
      if entry.expires.Some? {
        NoteDeadline(key, entry.expires.value);
      }
      return true;
    }

    /** Gives a live key another expiry and notes it, as EXPIRE and GETEX do. */
    method SetExpiry(key: K, now: nat, at: Option<nat>) returns (found: bool)
      requires Valid()
      modifies this
      ensures Valid() && SameCapture()
      ensures found <==> old(Get(key, now)).Some?
      ensures keys == if found then old(keys)[key := old(keys)[key].(expires := at)] else old(keys) - {key}
      ensures old(DeadlinesHold()) ==> DeadlinesHold()
    {
      found := GetMut(key, now, (e: Entry<V>) => e.(expires := at));
      if found && at.Some? {
        NoteDeadline(key, at.value);
      }
    }

    /** RENAME and RENAMENX: the deadline is noted while the new name is not stored yet. */
    method Rename(from: K, to: K, now: nat, nx: bool) returns (r: Result<bool, string>)
      requires Valid()
      modifies this
      ensures Valid() && SameCapture()
      ensures r.Err? <==> old(Get(from, now)).None?
      ensures r == Ok(true) <==> old(Get(from, now)).Some? && (if from == to then !nx else !(nx && old(Get(to, now)).Some?))
      ensures keys == if r == Ok(true) && from != to then (old(keys) - {from})[to := old(keys)[from]] else old(keys)
      ensures deadlines ==
              if r == Ok(true) && from != to && old(keys)[from].expires.Some?
              then Note(old(keys) - {from}, old(deadlines), to, old(keys)[from].expires.value) else old(deadlines)
      ensures old(DeadlinesHold()) ==> (DeadlinesHold() <==> !old(RenameDrops(keys, deadlines, from, to, now, nx)))
    {
      if Get(from, now).None? {
        return Err("ERR no such key");
      }
      if from == to {
        return Ok(!nx);
      }
      if nx && Get(to, now).Some? {
        return Ok(false);
      }
      ghost var was, noted := keys, deadlines;
      var held := Take(from);
      var entry := held.value;
      if entry.expires.Some? {
        NoteDeadline(to, entry.expires.value);
      }
      Insert(to, entry);
      if Indexed(was, noted, None) {
        RenameIndexed(was, noted, from, to);
      }
      return Ok(true);
    }

    /** The index has a deadline no later than `now`. */
    predicate ExpiryDue(now: nat)
      reads this
    {
      exists d :: d in deadlines && d.at <= now
    }

    /** Takes the soonest deadline. */
    method PopDeadline() returns (d: Deadline<K>)
      requires Valid() && |deadlines| > 0
      modifies this`deadlines
      ensures Valid()
      ensures d == First(old(deadlines), less) && d in old(deadlines) && deadlines == old(deadlines) - multiset{d}
      ensures forall e :: e in old(deadlines) && e != d ==> Sooner(d, e, less)
      ensures |deadlines| + 1 == |old(deadlines)| && forall e :: e in old(deadlines) ==> d.at <= e.at
    {
      d := Soonest(deadlines, less);
      deadlines := deadlines - multiset{d};
    }

    /** One batch of the expire cycle: takes soonest deadlines until the batch is full or none is due, and removes
        the keys that expire just then. */
    method ExpireKeys(now: nat) returns (expired: seq<K>)
      requires Valid()
      modifies this
      ensures Valid() && SameCapture()
      ensures WentDue(old(keys), keys, expired, now) && |expired| <= EXPIRE_BATCH
      ensures old(DeadlinesHold()) ==> DeadlinesHold()
      ensures deadlines <= old(deadlines)
      ensures old(ExpiryDue(now)) ==> |deadlines| < |old(deadlines)|
      ensures |expired| == EXPIRE_BATCH || |deadlines| + 4 * EXPIRE_BATCH == |old(deadlines)| || !ExpiryDue(now)
      ensures Now() == WholeBatch(old(Now()), now, less, EXPIRE_BATCH)
    {
      expired := ExpireMost(now, EXPIRE_BATCH);
    }

    /** A batch of at most so many keys, and four times as many deadlines. */
    method ExpireMost(now: nat, most: nat) returns (expired: seq<K>)
      requires Valid() && most > 0
      modifies this
      ensures Valid() && SameCapture()
      ensures WentDue(old(keys), keys, expired, now) && |expired| <= most
      ensures old(DeadlinesHold()) ==> DeadlinesHold()
      ensures deadlines <= old(deadlines)
      ensures old(ExpiryDue(now)) ==> |deadlines| < |old(deadlines)|
      ensures |expired| == most || |deadlines| + 4 * most == |old(deadlines)| || !ExpiryDue(now)
      ensures Now() == WholeBatch(old(Now()), now, less, most)
    {
      var visited;
      expired, visited := ExpireOn(now, most);
      MidwayDone(old(Now()), Now(), now, less, most, visited, |expired|);
    }

    method ExpireOn(now: nat, most: nat) returns (expired: seq<K>, visited: nat)
      requires Valid() && most > 0
      modifies this
      ensures Valid() && SameCapture() && Expiring(old(Now()), Now(), now, less, most, visited, expired)
      ensures |expired| == most || visited == 4 * most || !ExpiryDue(now)
      ensures old(ExpiryDue(now)) ==> visited > 0
    {
      expired, visited := [], 0;
      ExpiringStart(Now(), now, less, most);
      while |expired| < most && visited < 4 * most && ExpiryDue(now)
        invariant Valid() && SameCapture() && Expiring(old(Now()), Now(), now, less, most, visited, expired)
        invariant visited > 0 || (old(ExpiryDue(now)) ==> ExpiryDue(now))
        decreases |deadlines|
      {
        expired := ExpireNext(old(Now()), now, most, visited, expired);
        visited := visited + 1;
      }
    }

    /** One deadline more. */
    method ExpireNext(ghost start: Keyspace<K, V>, now: nat, most: nat, visited: nat, expired: seq<K>) returns (more: seq<K>)
      requires Valid() && Expiring(start, Now(), now, less, most, visited, expired)
      requires |expired| < most && visited < 4 * most && ExpiryDue(now)
      modifies this
      ensures Valid() && SameCapture() && Expiring(start, Now(), now, less, most, visited + 1, more)
      ensures |deadlines| < |old(deadlines)|
    {
      ghost var before := Now();
      MidwayOn(start, before, now, less, most, visited, |expired|);
      var one := ExpireOne(now);
      WentOne(start.keys, before.keys, keys, expired, one, now);
      more := expired + one;
    }

    /** Takes the soonest deadline, which is due, and the key it is of unless that expires at another time. */
    method ExpireOne(now: nat) returns (expired: seq<K>)
      requires Valid() && ExpiryDue(now)
      modifies this
      ensures Valid() && SameCapture()
      ensures |old(deadlines)| > 0 && var d := First(old(deadlines), less);
              && Now() == Keyspace(Popped(old(keys), d), old(deadlines) - multiset{d})
              && |expired| == if Takes(old(keys), d) then 1 else 0
      ensures |expired| <= 1 && (forall k :: k in expired ==> k in old(keys) && old(keys)[k].Expired(now))
      ensures keys == if expired == [] then old(keys) else old(keys) - {expired[0]}
      ensures old(DeadlinesHold()) ==> DeadlinesHold()
      ensures deadlines <= old(deadlines) && |deadlines| + 1 == |old(deadlines)|
    {
      ghost var noted := deadlines;
      var d := PopDeadline();
      assert d.at <= now;
      if Indexed(keys, noted, None) {
        PoppedIndexed(keys, noted, d);
      }
      expired := TakeDue(d);
    }

    /** The key a deadline is of, unless that expires at another time. */
    method TakeDue(d: Deadline<K>) returns (expired: seq<K>)
      requires Valid()
      modifies this
      ensures Valid() && SameCapture() && deadlines == old(deadlines)
      ensures keys == Popped(old(keys), d)
      ensures expired == if d.key in old(keys) && old(keys)[d.key].expires == Some(d.at) then [d.key] else []
    {
      expired := [];
      if d.key in keys && keys[d.key].expires == Some(d.at) {
        var held := Take(d.key);
        expired := [d.key];
      }
    }

    /** The expire cycle, batch after batch until nothing is due: it ends, and removes only keys whose time
        has come; all of them, when every key that expires is among the deadlines. */
    method Sweep(now: nat)
      requires Valid()
      modifies this
      ensures Valid() && SameCapture() && (old(DeadlinesHold()) ==> DeadlinesHold()) && !ExpiryDue(now)
      ensures OnlyDueGone(old(keys), keys, now)
      ensures old(DeadlinesHold()) ==> keys == Live(old(keys), now)
      ensures !old(ExpiryDue(now)) ==> keys == old(keys)
    {
      while ExpiryDue(now)
        invariant Valid() && SameCapture() && (old(DeadlinesHold()) ==> DeadlinesHold())
        invariant OnlyDueGone(old(keys), keys, now)
        invariant !old(ExpiryDue(now)) ==> keys == old(keys) && deadlines == old(deadlines)
        decreases |deadlines|
      {
        ghost var before := keys;
        var expired := ExpireKeys(now);
        UndueStay(old(keys), before, keys, expired, now);
      }
      if DeadlinesHold() {
        NoneDue(keys, deadlines, now);
        AllUndue(old(keys), keys, now);
      }
    }
  }

  /** Those that expired were due, each is named once, and they are gone. */
  ghost predicate WentDue<K, V>(before: map<K, Entry<V>>, after: map<K, Entry<V>>, expired: seq<K>, now: nat)
  {
    && Once(expired) && (forall k :: k in expired ==> k in before && before[k].Expired(now))
    && after == map k | k in before && k !in expired :: before[k]
  }

  lemma {:induction false} WentOne<K, V>(
      start: map<K, Entry<V>>, before: map<K, Entry<V>>, after: map<K, Entry<V>>, expired: seq<K>, one: seq<K>, now: nat)
    requires WentDue(start, before, expired, now) && |one| <= 1 && (forall k :: k in one ==> k in before && before[k].Expired(now))
    requires after == if one == [] then before else before - {one[0]}
    ensures WentDue(start, after, expired + one, now)
  {
    if one == [] {
      assert expired + one == expired;
    } else {
      assert one == [one[0]] && one[0] in one;
      assert one[0] in before && one[0] !in expired;
    }
  }

  /** A deadline is that of the key it names. */
  predicate Takes<K, V>(keys: map<K, Entry<V>>, d: Deadline<K>)
  {
    d.key in keys && keys[d.key].expires == Some(d.at)
  }

  /** The keys without the one a deadline is of, unless that expires at another time. */
  function Popped<K, V>(keys: map<K, Entry<V>>, d: Deadline<K>): map<K, Entry<V>>
  {
    if Takes(keys, d) then keys - {d.key} else keys
  }

  ghost function WholeBatch<K(!new), V>(at: Keyspace<K, V>, now: nat, less: (K, K) -> bool, most: nat): Keyspace<K, V>
    requires TotalOrder(less)
  {
    Batch(at, now, less, 4 * most, most)
  }

  /** A batch so far: what is still to come of it is what remains of the whole. */
  ghost predicate Midway<K(!new), V>(start: Keyspace<K, V>, at: Keyspace<K, V>, now: nat, less: (K, K) -> bool, most: nat, visited: nat, gone: nat)
  {
    && TotalOrder(less) && visited <= 4 * most && gone <= most
    && Batch(at, now, less, 4 * most - visited, most - gone) == WholeBatch(start, now, less, most)
  }

  /** A batch so far: what it took since it started with `start`. */
  ghost predicate Expiring<K(!new), V>(
      start: Keyspace<K, V>, at: Keyspace<K, V>, now: nat, less: (K, K) -> bool, most: nat, visited: nat, expired: seq<K>)
  {
    && WentDue(start.keys, at.keys, expired, now) && |expired| <= visited && |expired| <= most
    && (Indexed(start.keys, start.deadlines, None) ==> Indexed(at.keys, at.deadlines, None))
    && at.deadlines <= start.deadlines && |at.deadlines| + visited == |start.deadlines|
    && Midway(start, at, now, less, most, visited, |expired|)
  }

  lemma {:induction false} ExpiringStart<K(!new), V>(at: Keyspace<K, V>, now: nat, less: (K, K) -> bool, most: nat)
    requires TotalOrder(less)
    ensures Expiring(at, at, now, less, most, 0, [])
  {}

  lemma {:induction false} MidwayOn<K(!new), V>(start: Keyspace<K, V>, at: Keyspace<K, V>, now: nat, less: (K, K) -> bool, most: nat, visited: nat, gone: nat)
    requires Midway(start, at, now, less, most, visited, gone) && visited < 4 * most && gone < most
    requires |at.deadlines| > 0 && exists d :: d in at.deadlines && d.at <= now
    ensures var d := First(at.deadlines, less);
            Midway(start, Keyspace(Popped(at.keys, d), at.deadlines - multiset{d}), now, less, most, visited + 1,
                   if Takes(at.keys, d) then gone + 1 else gone)
  {}

  lemma {:induction false} MidwayDone<K(!new), V>(start: Keyspace<K, V>, at: Keyspace<K, V>, now: nat, less: (K, K) -> bool, most: nat, visited: nat, gone: nat)
    requires Midway(start, at, now, less, most, visited, gone)
    requires visited == 4 * most || gone == most || !exists d :: d in at.deadlines && d.at <= now
    ensures at == WholeBatch(start, now, less, most)
  {}

  /** What a batch of the expire cycle leaves: of the deadlines that are due the soonest go, at most `looks` of them,
      and with each the key that expires just then, until `room` keys are gone. */
  ghost function Batch<K(!new), V>(at: Keyspace<K, V>, now: nat, less: (K, K) -> bool, looks: nat, room: nat): Keyspace<K, V>
    requires TotalOrder(less)
    decreases looks
  {
    if looks == 0 || room == 0 || !(exists d :: d in at.deadlines && d.at <= now) then at
    else
      var d := First(at.deadlines, less);
      Batch(Keyspace(Popped(at.keys, d), at.deadlines - multiset{d}), now, less, looks - 1, if Takes(at.keys, d) then room - 1 else room)
  }

  /** A deadline whose key expires at another time is no loss, nor is one whose key is gone. */
  lemma {:induction false} PoppedIndexed<K, V>(
      was: map<K, Entry<V>>, noted: multiset<Deadline<K>>, d: Deadline<K>)
    requires Indexed(was, noted, None) && d in noted
    ensures Indexed(Popped(was, d), noted - multiset{d}, None)
  {
    var keys, deadlines := Popped(was, d), noted - multiset{d};
    forall k | k in keys && keys[k].expires.Some? ensures Deadline(keys[k].expires.value, k) in deadlines {
      assert Deadline(keys[k].expires.value, k) in noted && Deadline(keys[k].expires.value, k) != d;
    }
  }

  /** The keys whose time has not come: those a client sees. */
  function Live<K, V>(keys: map<K, Entry<V>>, now: nat): map<K, Entry<V>>
  {
    map k | k in keys && !keys[k].Expired(now) :: keys[k]
  }

  /** Only keys whose time has come are gone. */
  ghost predicate OnlyDueGone<K, V>(start: map<K, Entry<V>>, keys: map<K, Entry<V>>, now: nat)
  {
    && (forall k :: k in keys ==> k in start && keys[k] == start[k])
    && (forall k :: k in start && !start[k].Expired(now) ==> k in keys)
  }

  lemma {:induction false} UndueStay<K, V>(start: map<K, Entry<V>>, before: map<K, Entry<V>>, after: map<K, Entry<V>>, expired: seq<K>, now: nat)
    requires OnlyDueGone(start, before, now) && WentDue(before, after, expired, now)
    ensures OnlyDueGone(start, after, now)
  {}

  lemma {:induction false} NoneDue<K, V>(keys: map<K, Entry<V>>, deadlines: multiset<Deadline<K>>, now: nat)
    requires Indexed(keys, deadlines, None) && !exists d :: d in deadlines && d.at <= now
    ensures forall k :: k in keys ==> !keys[k].Expired(now)
  {
    forall k | k in keys ensures !keys[k].Expired(now) {
      assert keys[k].expires.Some? ==> Deadline(keys[k].expires.value, k) in deadlines;
    }
  }

  lemma {:induction false} AllUndue<K, V>(start: map<K, Entry<V>>, keys: map<K, Entry<V>>, now: nat)
    requires OnlyDueGone(start, keys, now) && forall k :: k in keys ==> !keys[k].Expired(now)
    ensures keys == Live(start, now)
  {}

  lemma {:induction false} OneFewer<K, V>(keys: map<K, V>, key: K)
    requires key in keys
    ensures |keys - {key}| == |keys| - 1
  {
    assert (keys - {key}).Keys == keys.Keys - {key};
  }

  /** Whether a renamed key is among the deadlines noted while it was not stored. */
  lemma {:induction false} RenameIndexed<K, V(!new)>(was: map<K, Entry<V>>, noted: multiset<Deadline<K>>, from: K, to: K)
    requires from in was && from != to && Indexed(was, noted, None)
    ensures var entry, left := was[from], was - {from};
      Indexed(left[to := entry], if entry.expires.Some? then Note(left, noted, to, entry.expires.value) else noted, None)
      <==> !RenameLoses(was, noted, from, to)
  {
    var entry, left := was[from], was - {from};
    OneFewer(was, from);
    if entry.expires.Some? {
      if |noted| + 1 > 2 * |left| + STALE {
        RebuiltIndexed(left, to, entry, entry.expires.value);
      } else {
        NotedIndexed(was, left, noted, to, entry, entry.expires.value);
      }
    } else {
      IndexedStill(was, left[to := entry], noted);
    }
  }

  lemma {:induction false} NotedIndexed<K, V(!new)>(
      was: map<K, Entry<V>>, left: map<K, Entry<V>>, noted: multiset<Deadline<K>>, to: K, entry: Entry<V>, at: nat)
    requires Indexed(was, noted, None) && entry.expires == Some(at) && (forall k :: k in left ==> k in was && left[k] == was[k])
    ensures Indexed(left[to := entry], noted + multiset{Deadline(at, to)}, None)
  {}

  /** Deadlines rebuilt before a key was stored are those of all keys only if the key replaced one that expires then too. */
  lemma {:induction false} RebuiltIndexed<K, V(!new)>(left: map<K, Entry<V>>, to: K, entry: Entry<V>, at: nat)
    requires entry.expires == Some(at)
    ensures Indexed(left[to := entry], multiset(Index(left)), None) <==> to in left && left[to].expires == Some(at)
  {
    var after := left[to := entry];
    forall k | k in left && left[k].expires.Some? ensures Deadline(left[k].expires.value, k) in Index(left) {}
    if Indexed(after, multiset(Index(left)), None) {
      assert to in after && after[to].expires == Some(at);
      assert Deadline(at, to) in Index(left);
    }
  }

  predicate Sooner<K(==)>(a: Deadline<K>, b: Deadline<K>, less: (K, K) -> bool)
  {
    a.at < b.at || (a.at == b.at && less(a.key, b.key))
  }

  lemma {:induction false} SoonerIsOrder<K(!new)>(less: (K, K) -> bool)
    requires TotalOrder(less)
    ensures TotalOrder((a, b) => Sooner(a, b, less))
  {}

  lemma {:induction false} SoonestExists<K(!new)>(all: set<Deadline<K>>, less: (K, K) -> bool) returns (d: Deadline<K>)
    requires TotalOrder(less) && all != {}
    ensures d in all && forall e :: e in all && e != d ==> Sooner(d, e, less)
  {
    SoonerIsOrder(less);
    var sooner := (a, b) => Sooner(a, b, less);
    d := LeastExists(all, sooner);
    forall e | e in all && e != d
      ensures Sooner(d, e, less)
    {
      assert sooner(d, e);
    }
  }

  /** The deadline before all others. */
  ghost function First<K(!new)>(deadlines: multiset<Deadline<K>>, less: (K, K) -> bool): (d: Deadline<K>)
    requires TotalOrder(less) && |deadlines| > 0
    ensures d in deadlines && forall e :: e in deadlines && e != d ==> Sooner(d, e, less)
  {
    OneIsFirst(deadlines, less);
    var d :| d in deadlines && forall e :: e in deadlines && e != d ==> Sooner(d, e, less);
    d
  }

  lemma {:induction false} OneIsFirst<K(!new)>(deadlines: multiset<Deadline<K>>, less: (K, K) -> bool)
    requires TotalOrder(less) && |deadlines| > 0
    ensures exists d :: d in deadlines && forall e :: e in deadlines && e != d ==> Sooner(d, e, less)
  {
    var all := set e | e in deadlines;
    var some :| some in deadlines;
    assert some in all;
    var least := SoonestExists(all, less);
    assert least in deadlines;
  }

  /** The deadline that comes first. */
  method Soonest<K(==, !new)>(deadlines: multiset<Deadline<K>>, less: (K, K) -> bool) returns (d: Deadline<K>)
    requires TotalOrder(less) && |deadlines| > 0
    ensures d in deadlines && forall e :: e in deadlines && e != d ==> Sooner(d, e, less)
  {
    OneIsFirst(deadlines, less);
    d :| d in deadlines && forall e :: e in deadlines && e != d ==> Sooner(d, e, less);
  }

  /** A snapshot as one JSON object, its closing brace included. */
  ghost predicate Closed<K(!new), V>(output: bytes, prefix: bytes, start: map<K, V>, text: (K, V) -> Option<bytes>, keys: seq<K>)
  {
    output != [] && output[|output| - 1] == CLOSE && Snapshot(output[..|output| - 1], prefix, start, text, keys)
  }

  /** A key given another expiry. */
  method RefreshOnce(db: Db<int, int>, at: nat)
    requires db.Valid() && db.DeadlinesHold() && db.keys.Keys <= {1} && |db.deadlines| < 1025
    modifies db
    ensures db.Valid() && db.DeadlinesHold() && |db.deadlines| == |old(db.deadlines)| + 1
    ensures db.keys == map[1 := Entry(0, Some(at))]
  {
    ghost var before := db.keys;
    var stored := db.Store(1, Entry(0, Some(at)), true);
    OnlyOne(before, Entry(0, Some(at)));
  }

  lemma {:induction false} OnlyOne(before: map<int, Entry<int>>, entry: Entry<int>)
    requires before.Keys <= {1}
    ensures before[1 := entry] == map[1 := entry] && |map[1 := entry]| == 1
  {}

  /** A key given one expiry after another. */
  method Refresh(db: Db<int, int>)
    requires db.Valid() && db.keys == map[] && db.deadlines == multiset{}
    modifies db
    ensures db.Valid() && db.DeadlinesHold()
    ensures |db.deadlines| == 1025 && db.keys == map[1 := Entry(0, Some(1100))]
  {
    for i := 0 to 1025
      invariant db.Valid() && db.DeadlinesHold() && |db.deadlines| == i
      invariant db.keys == if i == 0 then map[] else map[1 := Entry(0, Some(75 + i))]
    {
      RefreshOnce(db, 75 + i + 1);
    }
  }

  /** A key given an expiry 1025 times over and then renamed: no deadline is left for it, and the expire
      cycle, repeated until nothing is due, leaves it where it is at any time after it is due. */
  method RenameCanLose(db: Db<int, int>, now: nat)
    requires db.Valid() && db.keys == map[] && db.deadlines == multiset{} && now >= 1100
    modifies db
    ensures db.Valid() && db.keys == map[2 := Entry(0, Some(1100))] && db.keys[2].Expired(now)
  {
    RenameAway(db);
    db.Sweep(now);
  }

  method RenameAway(db: Db<int, int>)
    requires db.Valid() && db.keys == map[] && db.deadlines == multiset{}
    modifies db
    ensures db.Valid() && db.keys == map[2 := Entry(0, Some(1100))] && db.deadlines == multiset{}
  {
    Refresh(db);
    NoneNoted(db.keys, db.deadlines);
    var renamed := db.Rename(1, 2, 0, false);
  }

  lemma {:induction false} NoneNoted(keys: map<int, Entry<int>>, deadlines: multiset<Deadline<int>>)
    requires keys == map[1 := Entry(0, Some(1100))] && |deadlines| == 1025
    ensures keys - {1} == map[] && (keys - {1})[2 := keys[1]] == map[2 := Entry(0, Some(1100))]
    ensures Note(keys - {1}, deadlines, 2, 1100) == multiset{}
  {
    assert keys - {1} == map[];
  }
}
