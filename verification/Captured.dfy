/**
 A map whose changes go through its methods, so that a capture can run beside them.

 The ghost state is the account of the capture: the map when it began, the keys written since and what
 has been handed out. Every method keeps `Track` between them, so what comes out in the end is the map
 as it was at the beginning.
 */
module CapturedMap {
  import opened Common
  import opened Sorting
  import opened Capturing

  /** A change to the map, or something done with the capture, while one is in progress. */
  datatype Op<!K, !V> =
    | Insert(key: K, value: V)
    | Remove(key: K)
    | Change(key: K, change: V -> V)
    | ChangeAll(changeAll: (K, V) -> V)
    | CaptureRun(budget: Budget)
    | Drain

  /** What an operation does to the map; none done with the capture does anything to it. */
  function After<K, V>(entries: map<K, V>, op: Op<K, V>): map<K, V>
  {
    match op
    case Insert(key, value) => entries[key := value]
    case Remove(key) => entries - {key}
    case Change(key, change) => if key in entries then entries[key := change(entries[key])] else entries
    case ChangeAll(change) => map k | k in entries :: change(k, entries[k])
    case CaptureRun(_) => entries
    case Drain => entries
  }

  /** Operations one after another. */
  function AfterAll<K, V>(entries: map<K, V>, ops: seq<Op<K, V>>): map<K, V>
  {
    if ops == [] then entries else After(AfterAll(entries, ops[..|ops| - 1]), ops[|ops| - 1])
  }

  class Captured<K(==, !new), V(!new)> {
    const less: (K, K) -> bool
    const text: (K, V) -> Option<bytes>
    /** A part is closed once it has this many bytes. */
    const part: nat

    var entries: map<K, V>
    var capture: Option<Capture<K>>

    /** Of the capture in progress: the map when it began, the keys written since, what came
        before them, and what has been handed out. */
    ghost var start: map<K, V>
    ghost var order: seq<K>
    ghost var prefix: bytes
    ghost var handed: bytes

    ghost predicate Valid()
      reads this
    {
      && TotalOrder(less)
      && (capture.Some? ==> Track(entries, capture.value, start, order, less, text, prefix, handed))
    }

    /** No capture started or ended, and nothing was handed out. */
    twostate predicate SameCapture()
      reads this
    {
      && (capture.Some? <==> old(capture).Some?)
      && start == old(start) && prefix == old(prefix) && handed == old(handed)
    }

    constructor (less: (K, K) -> bool, text: (K, V) -> Option<bytes>, part: nat)
      requires TotalOrder(less)
      ensures Valid() && entries == map[] && capture.None?
      ensures this.less == less && this.text == text && this.part == part
    {
      this.less, this.text, this.part := less, text, part;
      entries, capture := map[], None;
    }

    /** Makes the account independent of what `key` holds: afterwards it stands for any map that differs from
        this one at `key` only. */
    method PreserveFor(key: K)
      requires Valid()
      modifies this
      ensures entries == old(entries) && SameCapture() && Valid()
      ensures capture.Some? ==>
                forall now: map<K, V> :: (forall k :: k != key ==> (k in now <==> k in entries) && (k in entries ==> now[k] == entries[k])) ==>
                  Track(now, capture.value, start, order, less, text, prefix, handed)
    {
      if capture.None? {
        return;
      }
      var c := capture.value;
      forall now: map<K, V> | forall k :: k != key ==> (k in now <==> k in entries) && (k in entries ==> now[k] == entries[k])
        ensures Track(now, Preserve(entries, c, key, less, text, part), start, Preserved(entries, c, order, key, less), less, text, prefix, handed)
      {
        PreserveKeeps(entries, now, c, start, order, key, less, text, prefix, handed, part);
      }
      order := Preserved(entries, c, order, key, less);
      capture := Some(Preserve(entries, c, key, less, text, part));
    }

    method Insert(key: K, value: V) returns (held: Option<V>)
      requires Valid()
      modifies this
      ensures Valid() && SameCapture()
      ensures entries == old(entries)[key := value]
      ensures held == if key in old(entries) then Some(old(entries)[key]) else None
    {
      PreserveFor(key);
      held := if key in entries then Some(entries[key]) else None;
      entries := entries[key := value];
    }

    method Remove(key: K) returns (held: Option<V>)
      requires Valid()
      modifies this
      ensures Valid() && SameCapture()
      ensures entries == old(entries) - {key}
      ensures held == if key in old(entries) then Some(old(entries)[key]) else None
    {
      PreserveFor(key);
      held := if key in entries then Some(entries[key]) else None;
      entries := entries - {key};
    }

    /** A value, changed through the reference handed out for it. */
    method GetMut(key: K, change: V -> V) returns (found: bool)
      requires Valid()
      modifies this
      ensures Valid() && SameCapture()
      ensures found <==> key in old(entries)
      ensures entries == if found then old(entries)[key := change(old(entries)[key])] else old(entries)
    {
      PreserveFor(key);
      found := key in entries;
      if found {
        entries := entries[key := change(entries[key])];
      }
    }

    /** Changes every value at once: the account is first completed, since no key could be written later as it was. */
    method ValuesMut(change: (K, V) -> V)
      requires Valid()
      modifies this
      ensures Valid() && SameCapture()
      ensures entries == map k | k in old(entries) :: change(k, old(entries)[k])
    {
      var done := CaptureStep(Everything);
      entries := map k | k in entries :: change(k, entries[k]);
    }

    /** Opens an account: nothing written, nothing handed out, and `out` as the prefix. */
    method BeginCapture(out: bytes)
      requires Valid()
      modifies this
      ensures Valid() && entries == old(entries)
      ensures capture.Some? && start == entries && prefix == out && handed == []
    {
      var bound := LastKey(entries, less);
      capture := Some(Begun(bound, out));
      start, order, prefix, handed := entries, [], out, [];
      BegunTracks(entries, bound, out, less, text);
    }

    /** Lets the capture pass more keys, as far as `budget` goes, and keeps the account; true once all are passed. */
    method CaptureStep(budget: Budget) returns (done: bool)
      requires Valid()
      modifies this
      ensures Valid() && entries == old(entries) && SameCapture()
      ensures done <==> capture.None? || capture.value.done
      ensures budget.Everything? ==> done
      ensures budget.Bytes? && !done ==> Size(capture.value) - Size(old(capture).value) >= budget.n
    {
      if capture.None? {
        return true;
      }
      var c, written := Step(entries, capture.value, budget, less, text, part, start, order, prefix, handed);
      capture, order := Some(c), written;
      done := c.done;
    }

    /** Closes the account: with what was handed out before, the result is the whole snapshot, or an error
        exactly if some starting value had no text. */
    method EndCapture() returns (r: Result<seq<bytes>, string>, ghost keys: seq<K>)
      requires Valid()
      modifies this
      ensures Valid() && entries == old(entries) && capture.None?
      ensures old(capture).None? ==> r == Ok([])
      ensures old(capture).Some? ==>
                && (r.Err? <==> exists k :: k in old(start) && text(k, old(start)[k]).None?)
                && (r.Ok? ==> Snapshot(old(handed) + Concat(r.value), old(prefix), old(start), text, keys))
    {
      var done := CaptureStep(Everything);
      keys := order;
      if capture.None? {
        return Ok([]), keys;
      }
      var c := capture.value;
      Finished(entries, c, start, order, less, text, prefix, handed);
      capture := None;
      if c.broken {
        return Err("a value could not be serialized"), keys;
      }
      ConcatMore(c.parts, c.out);
      assert handed + Concat(c.parts + [c.out]) == Output(c, handed);
      return Ok(c.parts + [c.out]), keys;
    }

    /** Hands out the parts that are full, or, once all keys are passed, everything that is left, which closes
        the account. */
    method DrainCapture() returns (r: Result<(seq<bytes>, bool), string>, ghost keys: seq<K>)
      requires Valid()
      modifies this
      ensures Valid() && entries == old(entries)
      ensures old(capture).None? ==> r == Ok(([], true)) && capture.None?
      ensures r.Ok? && !r.value.1 ==>
                && capture.Some? && old(capture).Some? && start == old(start) && prefix == old(prefix)
                && handed == old(handed) + Concat(r.value.0)
      ensures old(capture).Some? && r.Ok? && r.value.1 ==>
                && capture.None?
                && Snapshot(old(handed) + Concat(r.value.0), old(prefix), old(start), text, keys)
      ensures r.Err? ==> capture.None? && old(capture).Some? && exists k :: k in old(start) && text(k, old(start)[k]).None?
    {
      keys := [];
      if capture.None? {
        return Ok(([], true)), keys;
      }
      var c := capture.value;
      if !c.done {
        capture := Some(c.(parts := []));
        handed := handed + Concat(c.parts);
        return Ok((c.parts, false)), keys;
      }
      var ended;
      ended, keys := EndCapture();
      match ended
      case Ok(parts) => r := Ok((parts, true));
      case Err(error) => r := Err(error);
    }

    method AbandonCapture()
      requires Valid()
      modifies this
      ensures Valid() && entries == old(entries) && capture.None?
    {
      capture := None;
    }

    /** One operation, and what it handed out. */
    method Apply(op: Op<K, V>) returns (given: Result<seq<bytes>, string>, ghost keys: seq<K>)
      requires Valid()
      modifies this
      ensures Valid() && entries == After(old(entries), op)
      ensures old(capture).None? ==> given == Ok([]) && capture.None?
      ensures old(capture).Some? && given.Ok? && capture.Some? ==>
                start == old(start) && prefix == old(prefix) && handed == old(handed) + Concat(given.value)
      ensures old(capture).Some? && given.Ok? && capture.None? ==>
                Snapshot(old(handed) + Concat(given.value), old(prefix), old(start), text, keys)
      ensures given.Err? ==> capture.None? && old(capture).Some? && exists k :: k in old(start) && text(k, old(start)[k]).None?
    {
      given, keys := Ok([]), [];
      match op
      case Insert(key, value) =>
        var held := Insert(key, value);
      case Remove(key) =>
        var held := Remove(key);
      case Change(key, change) =>
        var found := GetMut(key, change);
      case ChangeAll(change) =>
        ValuesMut(change);
      case CaptureRun(budget) =>
        var done := CaptureStep(budget);
      case Drain =>
        var drained;
        drained, keys := DrainCapture();
        given := match drained
                 case Ok((parts, over)) => Ok(parts)
                 case Err(error) => Err(error);
    }

    /** Every run: from when a capture begins, through any operations in any order, to its end.
        All of them take effect on the map, and what is handed out is the snapshot of the map as it was at the
        beginning; it is refused exactly when a value of that map has no text. */
    method Play(out: bytes, ops: seq<Op<K, V>>) returns (r: Result<bytes, string>, ghost keys: seq<K>)
      requires Valid()
      modifies this
      ensures Valid() && entries == AfterAll(old(entries), ops)
      ensures r.Ok? ==> Snapshot(r.value, out, old(entries), text, keys)
      ensures r.Err? <==> exists k :: k in old(entries) && text(k, old(entries)[k]).None?
    {
      BeginCapture(out);
      keys, r := [], Ok([]);
      for i := 0 to |ops|
        invariant Valid() && entries == AfterAll(old(entries), ops[..i])
        invariant capture.Some? ==> r.Ok? && start == old(entries) && prefix == out && handed == r.value
        invariant capture.None? && r.Ok? ==> Snapshot(r.value, out, old(entries), text, keys)
        invariant r.Err? ==> capture.None? && exists k :: k in old(entries) && text(k, old(entries)[k]).None?
      {
        assert ops[..i + 1][..i] == ops[..i];
        var running := capture.Some?;
        var given; ghost var last;
        given, last := Apply(ops[i]);
        if running {
          keys := last;
          r := match given
               case Ok(parts) => Ok(r.value + Concat(parts))
               case Err(error) => Err(error);
        }
      }
      assert ops[..|ops|] == ops;
      if capture.Some? {
        var ended;
        ended, keys := EndCapture();
        r := match ended
             case Ok(parts) => Ok(r.value + Concat(parts))
             case Err(error) => Err(error);
      }
    }
  }
}
