/**
 Writing out what a map held at the start, while the map changes.

 The keyspace and the forum's maps both do this: a cursor passes over the keys in order,
 and a key about to change that the cursor has not reached is written early. This module
 is the machine they share; `Track` is what every step of it keeps, whatever changes in
 between. Keys have any total order, and a value's text comes from a function that may fail.
 */
module Capturing {
  import opened Common
  import opened Sorting

  const COMMA: byte := 44

  /** The last key a capture writes: none at all, one named when it began, or any. */
  datatype Bound<K> = Nothing | UpTo(key: K) | Unbounded

  datatype Capture<K> = Capture(
    /** Keys past it are new since the capture began. */
    bound: Bound<K>,
    /** How far the pass over the keys has come; `Passed` holds of this key and all before it. */
    cursor: Option<K>,
    /** Those the pass must leave out, since their account was settled before it reached them. */
    early: set<K>,
    /** Output in the order it was written: the full parts, then the open one. */
    parts: seq<bytes>,
    out: bytes,
    /** How long the parts are that were closed. */
    filled: nat,
    written: nat,
    done: bool,
    broken: bool)

  /** How much to write in one step: about so many bytes, or everything left. */
  datatype Budget = Bytes(n: nat) | Everything

  predicate Passed<K(==)>(c: Capture<K>, key: K, less: (K, K) -> bool)
  {
    || c.done
    || c.bound.Nothing?
    || (c.bound.UpTo? && less(c.bound.key, key))
    || (c.cursor.Some? && (key == c.cursor.value || less(key, c.cursor.value)))
  }

  // ---- text ---------------------------------------------------------------------

  function Concat(parts: seq<bytes>): bytes
  {
    if parts == [] then [] else Concat(parts[..|parts| - 1]) + parts[|parts| - 1]
  }

  /** Texts with a comma between each two. */
  function Join(texts: seq<bytes>): bytes
  {
    if texts == [] then []
    else if |texts| == 1 then texts[0]
    else Join(texts[..|texts| - 1]) + [COMMA] + texts[|texts| - 1]
  }

  lemma {:induction false} JoinMore(texts: seq<bytes>, text: bytes)
    ensures Join(texts + [text]) == Join(texts) + (if texts == [] then [] else [COMMA]) + text
  {
    assert (texts + [text])[..|texts|] == texts;
  }

  lemma {:induction false} ConcatMore(parts: seq<bytes>, part: bytes)
    ensures Concat(parts + [part]) == Concat(parts) + part
  {
    assert (parts + [part])[..|parts|] == parts;
  }

  /** The texts of the values some keys had, those that have one. */
  ghost function Texts<K, V>(order: seq<K>, start: map<K, V>, text: (K, V) -> Option<bytes>): seq<bytes>
    requires forall i :: 0 <= i < |order| ==> order[i] in start
  {
    if order == [] then []
    else
      var k := order[|order| - 1];
      var before := Texts(order[..|order| - 1], start, text);
      match text(k, start[k])
      case Some(t) => before + [t]
      case None => before
  }

  /** Whether some key's value had no text. */
  ghost predicate Fails<K, V>(order: seq<K>, start: map<K, V>, text: (K, V) -> Option<bytes>)
    requires forall i :: 0 <= i < |order| ==> order[i] in start
  {
    order != [] &&
    var k := order[|order| - 1];
    Fails(order[..|order| - 1], start, text) || text(k, start[k]).None?
  }

  // ---- what every step keeps --------------------------------------------------------

  /** Each key of `start` is in `order` at most once. */
  ghost predicate Once<K>(order: seq<K>)
  {
    forall i, j :: 0 <= i < j < |order| ==> order[i] != order[j]
  }

  /** A key is written when the capture has passed it or written it early; until then the map
      still holds it, or lacks it, as it did at the start. */
  ghost predicate Reached<K(!new), V>(m: map<K, V>, c: Capture<K>, start: map<K, V>, order: seq<K>, less: (K, K) -> bool)
  {
    && (forall k :: k in start ==> (k in order <==> Passed(c, k, less) || k in c.early))
    && (forall k :: !Passed(c, k, less) && k !in c.early ==>
          (k in m <==> k in start) && (k in m ==> m[k] == start[k]))
  }

  /** Everything written so far, with what was handed out before. */
  ghost function Output<K>(c: Capture<K>, handed: bytes): bytes
  {
    handed + Concat(c.parts) + c.out
  }

  /** What has come out so far, `handed` included, is the prefix and the texts of the keys
      written, joined. */
  ghost predicate Written<K, V>(c: Capture<K>, start: map<K, V>, order: seq<K>, text: (K, V) -> Option<bytes>, prefix: bytes, handed: bytes)
  {
    && (forall i :: 0 <= i < |order| ==> order[i] in start)
    && c.written == |Texts(order, start, text)|
    && Output(c, handed) == prefix + Join(Texts(order, start, text))
    && (c.broken <==> Fails(order, start, text))
  }

  ghost predicate Track<K(!new), V>(m: map<K, V>, c: Capture<K>, start: map<K, V>, order: seq<K>,
                                    less: (K, K) -> bool, text: (K, V) -> Option<bytes>, prefix: bytes, handed: bytes)
  {
    Once(order) && Written(c, start, order, text, prefix, handed) && Reached(m, c, start, order, less)
  }

  // ---- the machine ------------------------------------------------------------------------

  function Size<K>(c: Capture<K>): nat
  {
    c.filled + |c.out|
  }

  /** Starts a new part when this one is full. */
  function Roll<K>(c: Capture<K>, part: nat): Capture<K>
  {
    if |c.out| >= part then c.(parts := c.parts + [c.out], filled := c.filled + |c.out|, out := [])
    else c
  }

  /** Writes one value's text after a comma, or notes that it has none. */
  function Write<K>(c: Capture<K>, text: Option<bytes>, part: nat): Capture<K>
  {
    var r := Roll(c, part);
    match text
    case None => r.(broken := true)
    case Some(t) => r.(out := r.out + (if r.written > 0 then [COMMA] else []) + t, written := r.written + 1)
  }

  function Separator(written: nat): bytes
  {
    if written > 0 then [COMMA] else []
  }

  lemma {:induction false} RollKeeps<K>(c: Capture<K>, part: nat, handed: bytes)
    ensures Output(Roll(c, part), handed) == Output(c, handed)
    ensures Size(Roll(c, part)) == Size(c)
  {
    if |c.out| >= part {
      var before := Concat(c.parts);
      ConcatMore(c.parts, c.out);
      assert Output(Roll(c, part), handed) == (handed + (before + c.out)) + [];
      Regrouped(handed, before, c.out);
      assert (handed + (before + c.out)) + [] == handed + (before + c.out);
    }
  }

  lemma {:induction false} RegroupedTwice(a: bytes, b: bytes, c: bytes, d: bytes)
    ensures (a + b) + (c + d) == a + ((b + c) + d)
    ensures a + ((b + c) + d) == ((a + b) + c) + d
  {}

  lemma {:induction false} WriteOutput<K>(c: Capture<K>, text: Option<bytes>, part: nat, handed: bytes)
    ensures Output(Write(c, text, part), handed)
            == Output(c, handed) + if text.Some? then Separator(c.written) + text.value else []
    ensures Size(Write(c, text, part)) >= Size(c)
  {
    RollKeeps(c, part, handed);
    var r := Roll(c, part);
    if text.Some? {
      var before, separator := handed + Concat(r.parts), Separator(c.written);
      assert Output(Write(c, text, part), handed) == before + ((r.out + separator) + text.value);
      RegroupedTwice(before, r.out, separator, text.value);
    } else {
      assert Output(c, handed) + [] == Output(c, handed);
    }
  }

  lemma {:induction false} TextsMore<K, V>(order: seq<K>, key: K, start: map<K, V>, text: (K, V) -> Option<bytes>)
    requires key in start && forall i :: 0 <= i < |order| ==> order[i] in start
    ensures var t := text(key, start[key]);
            && Texts(order + [key], start, text) == Texts(order, start, text) + (if t.Some? then [t.value] else [])
            && (Fails(order + [key], start, text) <==> Fails(order, start, text) || t.None?)
  {
    assert (order + [key])[..|order|] == order;
  }

  /** Writing a key's value adds its text and nothing else. */
  lemma {:induction false} WriteAdds<K, V>(c: Capture<K>, start: map<K, V>, order: seq<K>, text: (K, V) -> Option<bytes>,
                        prefix: bytes, handed: bytes, key: K, part: nat)
    requires Written(c, start, order, text, prefix, handed) && key in start
    ensures Written(Write(c, text(key, start[key]), part), start, order + [key], text, prefix, handed)
  {
    var t := text(key, start[key]);
    WriteOutput(c, t, part, handed);
    TextsMore(order, key, start, text);
    var texts := Texts(order, start, text);
    var after := Write(c, t, part);
    if t.Some? {
      JoinMore(texts, t.value);
      assert Join(texts + [t.value]) == (Join(texts) + Separator(c.written)) + t.value;
      RegroupedTwice(prefix, Join(texts), Separator(c.written), t.value);
      assert Output(after, handed) == prefix + Join(texts + [t.value]);
    } else {
      assert texts + [] == texts && Output(c, handed) + [] == Output(c, handed);
    }
  }

  // ---- steps ----------------------------------------------------------------------------

  /** The capture once `key` has been looked at before a change. */
  function Preserve<K(==), V>(m: map<K, V>, c: Capture<K>, key: K, less: (K, K) -> bool, text: (K, V) -> Option<bytes>, part: nat): Capture<K>
  {
    if Passed(c, key, less) || key in c.early then c
    else
      var noted := c.(early := c.early + {key});
      if key in m then Write(noted, text(key, m[key]), part) else noted
  }

  /** What is written of a key about to change, if anything. */
  ghost function Preserved<K, V>(m: map<K, V>, c: Capture<K>, order: seq<K>, key: K, less: (K, K) -> bool): seq<K>
  {
    if Passed(c, key, less) || key in c.early || key !in m then order else order + [key]
  }

  lemma {:induction false} WriteKeepsPlace<K>(c: Capture<K>, text: Option<bytes>, part: nat)
    ensures var w := Write(c, text, part);
            w.bound == c.bound && w.cursor == c.cursor && w.early == c.early && w.done == c.done
  {}

  /** A key that is preserved may then change in any way: nothing is lost, nothing is written twice. */
  lemma {:induction false} PreserveKeeps<K(!new), V>(m: map<K, V>, now: map<K, V>, c: Capture<K>, start: map<K, V>, order: seq<K>, key: K,
                                  less: (K, K) -> bool, text: (K, V) -> Option<bytes>, prefix: bytes, handed: bytes, part: nat)
    requires Track(m, c, start, order, less, text, prefix, handed)
    requires forall k :: k != key ==> (k in now <==> k in m) && (k in m ==> now[k] == m[k])
    ensures Track(now, Preserve(m, c, key, less, text, part), start, Preserved(m, c, order, key, less), less, text, prefix, handed)
  {
    var noted := c.(early := c.early + {key});
    if !Passed(c, key, less) && key !in c.early {
      assert Written(noted, start, order, text, prefix, handed);
      if key in m {
        assert key in start && start[key] == m[key] && key !in order;
        WriteAdds(noted, start, order, text, prefix, handed, key, part);
        WriteKeepsPlace(noted, text(key, m[key]), part);
      }
    }
  }

  /** Whether `key` comes after `from`, and no later than the bound. */
  predicate Ahead<K(==)>(key: K, from: Option<K>, bound: Bound<K>, less: (K, K) -> bool)
  {
    && (from.Some? ==> less(from.value, key))
    && !bound.Nothing?
    && (bound.UpTo? ==> !less(bound.key, key))
  }

  /** The next key the in-order pass comes to. */
  method Next<K(==, !new), V>(m: map<K, V>, from: Option<K>, bound: Bound<K>, less: (K, K) -> bool) returns (next: Option<K>)
    requires TotalOrder(less)
    ensures next.None? ==> forall k :: k in m ==> !Ahead(k, from, bound, less)
    ensures next.Some? ==>
              && next.value in m && Ahead(next.value, from, bound, less)
              && forall k :: k in m && Ahead(k, from, bound, less) && k != next.value ==> less(next.value, k)
  {
    var ahead := set k | k in m && Ahead(k, from, bound, less);
    if ahead == {} {
      assert forall k :: k in m && Ahead(k, from, bound, less) ==> k in ahead;
      return None;
    }
    var key := Least(ahead, less);
    return Some(key);
  }

  /** The capture after the pass has come to `key`: written unless it was early. */
  function StepTo<K(==)>(c: Capture<K>, key: K, text: Option<bytes>, part: nat): Capture<K>
  {
    (if key in c.early then c.(early := c.early - {key}) else Write(c, text, part)).(cursor := Some(key))
  }

  ghost function SteppedOrder<K>(c: Capture<K>, order: seq<K>, key: K): seq<K>
  {
    if key in c.early then order else order + [key]
  }

  /** The keys between the cursor and the next key held are all accounted for. */
  lemma {:induction false} StepKeeps<K(!new), V>(m: map<K, V>, c: Capture<K>, start: map<K, V>, order: seq<K>, key: K,
                              less: (K, K) -> bool, text: (K, V) -> Option<bytes>, prefix: bytes, handed: bytes, part: nat)
    requires TotalOrder(less) && Track(m, c, start, order, less, text, prefix, handed) && !c.done
    requires key in m && Ahead(key, c.cursor, c.bound, less)
    requires forall k :: k in m && Ahead(k, c.cursor, c.bound, less) && k != key ==> less(key, k)
    ensures Track(m, StepTo(c, key, text(key, m[key]), part), start, SteppedOrder(c, order, key), less, text, prefix, handed)
    ensures StepTo(c, key, text(key, m[key]), part).bound == c.bound
    ensures !StepTo(c, key, text(key, m[key]), part).done
  {
    var next := StepTo(c, key, text(key, m[key]), part);
    var after := SteppedOrder(c, order, key);
    assert !Passed(c, key, less);
    if key !in c.early {
      assert key in start && start[key] == m[key] && key !in order;
      WriteAdds(c, start, order, text, prefix, handed, key, part);
      WriteKeepsPlace(c, text(key, m[key]), part);
    }
    forall k
      ensures Passed(next, k, less) <==> Passed(c, k, less) || k == key || less(k, key)
    {}
    forall k | k in start
      ensures k in after <==> Passed(next, k, less) || k in next.early
    {
      if less(k, key) && !Passed(c, k, less) {
        assert Ahead(k, c.cursor, c.bound, less);
        assert k !in m && k in c.early;
      }
    }
  }

  /** Once no key is ahead, every key of the start is written. */
  lemma {:induction false} DoneKeeps<K(!new), V>(m: map<K, V>, c: Capture<K>, start: map<K, V>, order: seq<K>,
                              less: (K, K) -> bool, text: (K, V) -> Option<bytes>, prefix: bytes, handed: bytes)
    requires TotalOrder(less) && Track(m, c, start, order, less, text, prefix, handed)
    requires c.done || forall k :: k in m ==> !Ahead(k, c.cursor, c.bound, less)
    ensures Track(m, c.(done := true), start, order, less, text, prefix, handed)
    ensures forall k :: k in start ==> k in order
  {
    forall k | k in start
      ensures k in order
    {
      if !Passed(c, k, less) && k !in c.early {
        assert k in m;
        assert Ahead(k, c.cursor, c.bound, less);
      }
    }
  }

  ghost function AheadOf<K(!new), V>(m: map<K, V>, from: Option<K>, bound: Bound<K>, less: (K, K) -> bool): set<K>
  {
    set k | k in m && Ahead(k, from, bound, less)
  }

  /** Whether a step with `budget` goes on after writing `size` bytes. */
  predicate Affords(budget: Budget, size: int)
  {
    budget.Everything? || size < budget.n
  }

  /** Passes keys until `budget` is used up or none is left, keeping the account. */
  method Step<K(==, !new), V>(m: map<K, V>, c: Capture<K>, budget: Budget, less: (K, K) -> bool, text: (K, V) -> Option<bytes>, part: nat,
                              ghost start: map<K, V>, ghost order: seq<K>, ghost prefix: bytes, ghost handed: bytes)
    returns (r: Capture<K>, ghost written: seq<K>)
    requires TotalOrder(less) && Track(m, c, start, order, less, text, prefix, handed)
    ensures Track(m, r, start, written, less, text, prefix, handed)
    ensures budget.Everything? ==> r.done
    ensures budget.Bytes? && !r.done ==> Size(r) - Size(c) >= budget.n
    ensures c.done ==> r == c && written == order
    ensures r.done && !c.done ==> forall k :: k in start ==> k in written
    ensures r.bound == c.bound
  {
    r, written := c, order;
    if c.done {
      return;
    }
    if c.bound.Nothing? {
      r := c.(done := true);
      DoneKeeps(m, c, start, order, less, text, prefix, handed);
      return;
    }
    // The cursor moves with every key here, rather than once at the end of the run:
    // nothing looks at it in between.
    var begin := Size(c);
    while Affords(budget, Size(r) - begin)
      invariant !r.done && r.bound == c.bound && !r.bound.Nothing?
      invariant Track(m, r, start, written, less, text, prefix, handed)
      decreases AheadOf(m, r.cursor, c.bound, less)
    {
      var next := Next(m, r.cursor, c.bound, less);
      if next.None? {
        DoneKeeps(m, r, start, written, less, text, prefix, handed);
        r := r.(done := true);
        break;
      }
      var key := next.value;
      StepKeeps(m, r, start, written, key, less, text, prefix, handed, part);
      AheadShrinks(m, r.cursor, key, c.bound, less);
      written := SteppedOrder(r, written, key);
      r := StepTo(r, key, text(key, m[key]), part);
    }
  }

  lemma {:induction false} AheadShrinks<K(!new), V>(m: map<K, V>, from: Option<K>, key: K, bound: Bound<K>, less: (K, K) -> bool)
    requires TotalOrder(less) && key in m && Ahead(key, from, bound, less)
    ensures AheadOf(m, Some(key), bound, less) < AheadOf(m, from, bound, less)
  {
    assert key in AheadOf(m, from, bound, less) && key !in AheadOf(m, Some(key), bound, less);
  }

  // ---- what comes out ------------------------------------------------------------------

  /** `output` is the prefix and the text of each key of `start`, each once, joined: those of
      `keys`, in that order. */
  ghost predicate Snapshot<K(!new), V>(output: bytes, prefix: bytes, start: map<K, V>, text: (K, V) -> Option<bytes>, keys: seq<K>)
  {
    && Once(keys)
    && (forall k :: k in keys <==> k in start)
    && (forall k :: k in start ==> text(k, start[k]).Some?)
    && |AllTexts(keys, start, text)| == |keys|
    && output == prefix + Join(AllTexts(keys, start, text))
  }

  ghost function AllTexts<K, V>(keys: seq<K>, start: map<K, V>, text: (K, V) -> Option<bytes>): seq<bytes>
    requires forall k :: k in keys ==> k in start && text(k, start[k]).Some?
  {
    seq(|keys|, i requires 0 <= i < |keys| => assert keys[i] in keys; text(keys[i], start[keys[i]]).value)
  }

  lemma {:induction false} FailsSome<K, V>(order: seq<K>, start: map<K, V>, text: (K, V) -> Option<bytes>)
    requires forall i :: 0 <= i < |order| ==> order[i] in start
    ensures Fails(order, start, text) <==> exists i :: 0 <= i < |order| && text(order[i], start[order[i]]).None?
  {
    if order != [] {
      var front := order[..|order| - 1];
      FailsSome(front, start, text);
      assert forall i :: 0 <= i < |front| ==> front[i] == order[i];
      if text(order[|order| - 1], start[order[|order| - 1]]).Some? && !Fails(front, start, text) {
        assert forall i :: 0 <= i < |front| ==> text(front[i], start[front[i]]).Some?;
      }
    }
  }

  lemma {:induction false} TextsAll<K, V>(order: seq<K>, start: map<K, V>, text: (K, V) -> Option<bytes>)
    requires forall k :: k in order ==> k in start && text(k, start[k]).Some?
    ensures Texts(order, start, text) == AllTexts(order, start, text)
  {
    if order != [] {
      var front, last := order[..|order| - 1], order[|order| - 1];
      assert last in order;
      TextsAll(front, start, text);
      assert order == front + [last];
    }
  }

  /** A capture that is done has written every key of the start, or is broken because one had no text. */
  lemma {:induction false} Finished<K(!new), V>(m: map<K, V>, c: Capture<K>, start: map<K, V>, order: seq<K>,
                             less: (K, K) -> bool, text: (K, V) -> Option<bytes>, prefix: bytes, handed: bytes)
    requires Track(m, c, start, order, less, text, prefix, handed) && c.done
    ensures c.broken <==> exists k :: k in start && text(k, start[k]).None?
    ensures !c.broken ==> Snapshot(Output(c, handed), prefix, start, text, order)
  {
    FailsSome(order, start, text);
    forall k | k in start && text(k, start[k]).None?
      ensures c.broken
    {
      assert k in order;
      var i :| 0 <= i < |order| && order[i] == k;
    }
    if !c.broken {
      TextsAll(order, start, text);
    }
  }

  /** Nothing is written when a capture begins. */
  function Begun<K>(bound: Bound<K>, out: bytes): Capture<K>
  {
    Capture(bound, None, {}, [], out, 0, 0, bound.Nothing?, false)
  }

  lemma {:induction false} BegunTracks<K(!new), V>(m: map<K, V>, bound: Bound<K>, out: bytes, less: (K, K) -> bool, text: (K, V) -> Option<bytes>)
    requires bound.Nothing? ==> m == map[]
    requires bound.UpTo? ==> forall k :: k in m ==> !less(bound.key, k)
    ensures Track(m, Begun(bound, out), m, [], less, text, out, [])
  {
    assert [] + Concat([]) + out == out == out + Join([]);
  }

  lemma {:induction false} FlippedOrder<K(!new)>(less: (K, K) -> bool)
    requires TotalOrder(less)
    ensures TotalOrder((a, b) => less(b, a))
  {
    var flipped := (a, b) => less(b, a);
    assert forall a, b {:trigger flipped(a, b)} :: flipped(a, b) == less(b, a);
  }

  /** The greatest key of a map, which bounds the pass; keys past it were not there at the start. */
  method LastKey<K(==, !new), V>(m: map<K, V>, less: (K, K) -> bool) returns (bound: Bound<K>)
    requires TotalOrder(less)
    ensures !bound.Unbounded?
    ensures bound.Nothing? <==> m == map[]
    ensures bound.UpTo? ==> bound.key in m && forall k :: k in m ==> !less(bound.key, k)
  {
    if m.Keys == {} {
      assert m == map[];
      return Nothing;
    }
    FlippedOrder(less);
    ghost var greatest := LeastExists(m.Keys, (a, b) => less(b, a));
    assert forall k :: k in m ==> !less(greatest, k);
    var key :| key in m.Keys && forall k :: k in m.Keys ==> !less(key, k);
    return UpTo(key);
  }
}
