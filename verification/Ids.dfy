/**
 Entry ids: a millisecond and a sequence number, both 64 bits wide, in lexicographic order.
 Sets of ids are walked from the least up.
 */
module Ids {
  import opened Common
  import Sorting

  newtype u64 = x: int | 0 <= x < 0x1_0000_0000_0000_0000

  const U64_MAX: u64 := 0xFFFF_FFFF_FFFF_FFFF

  datatype Id = Id(ms: u64, serial: u64)

  const ZERO: Id := Id(0, 0)
  const MAX: Id := Id(U64_MAX, U64_MAX)

  predicate Less(a: Id, b: Id)
  {
    a.ms < b.ms || (a.ms == b.ms && a.serial < b.serial)
  }

  predicate AtMost(a: Id, b: Id)
  {
    !Less(b, a)
  }

  /** An id as one number. */
  function Number(id: Id): nat
  {
    id.ms as nat * 0x1_0000_0000_0000_0000 + id.serial as nat
  }

  /** Ids are in the order of their numbers. */
  lemma {:induction false} LessByNumber(a: Id, b: Id)
    ensures Less(a, b) <==> Number(a) < Number(b)
  {
    if a.ms < b.ms {
      assert a.ms as nat + 1 <= b.ms as nat;
    } else if b.ms < a.ms {
      assert b.ms as nat + 1 <= a.ms as nat;
    }
  }

  /** What `AfterIsLeast` shows to be the next id in order. */
  function After(id: Id): Option<Id>
  {
    if id.serial < U64_MAX then Some(Id(id.ms, id.serial + 1))
    else if id.ms < U64_MAX then Some(Id(id.ms + 1, 0))
    else None
  }

  /** An id past `last` that a clock at `now` allows, the least of them as `NextAfterIsLeast` says. */
  function NextAfter(last: Id, now: u64): Option<Id>
  {
    if now > last.ms then Some(Id(now, 0)) else After(last)
  }

  /** Nothing lies between an id and the one after it. */
  lemma {:induction false} AfterIsLeast(id: Id, other: Id)
    ensures After(id).None? <==> id == MAX
    ensures After(id).Some? ==> Less(id, After(id).value) && (Less(id, other) <==> AtMost(After(id).value, other))
  {
    if After(id).Some? && Less(id, other) && other.ms == id.ms {
      assert other.serial >= id.serial + 1;
    }
  }

  /** A new id is the least of those past the last one that the clock allows, even when the clock steps back. */
  lemma {:induction false} NextAfterIsLeast(last: Id, now: u64, other: Id)
    ensures NextAfter(last, now).None? <==> last == MAX
    ensures NextAfter(last, now).Some? ==>
              && Less(last, NextAfter(last, now).value)
              && (Less(last, other) && now <= other.ms ==> AtMost(NextAfter(last, now).value, other))
  {
    AfterIsLeast(last, other);
  }

  // ---- ids in order ----------------------------------------------------------------------

  ghost predicate Rising(ids: seq<Id>)
  {
    Sorting.Rising(ids, Less)
  }

  lemma {:induction false} LessOrders()
    ensures Sorting.TotalOrder(Less)
  {}

  function Least(ids: set<Id>): (least: Id)
    requires ids != {}
    ensures least in ids && forall id :: id in ids ==> AtMost(least, id)
  {
    LessOrders();
    Sorting.Least(ids, Less)
  }

  /** The ids of a set from the least up. */
  function Ascending(ids: set<Id>): (r: seq<Id>)
    ensures |r| == |ids| && Rising(r)
    ensures forall id :: id in r <==> id in ids
  {
    LessOrders();
    Sorting.Ascending(ids, Less)
  }

  /** Those past a mark. */
  function Past(ids: set<Id>, mark: Id): set<Id>
  {
    set id | id in ids && Less(mark, id)
  }

  /** The ids in a rising sequence are as many as its elements. */
  lemma {:induction false} RisingSize(ids: seq<Id>, all: set<Id>)
    requires Rising(ids) && (forall id :: id in ids <==> id in all)
    ensures |all| == |ids|
  {
    LessOrders();
    Sorting.RisingSize(ids, all, Less);
  }

  // ---- dropping the oldest -----------------------------------------------------------------

  /** The oldest `count` of a set, and the rest: all dropped are before all kept. */
  ghost predicate Oldest(all: set<Id>, dropped: set<Id>, count: nat)
  {
    && dropped <= all && |dropped| == (if count < |all| then count else |all|)
    && forall d, k :: d in dropped && k in all - dropped ==> Less(d, k)
  }

  /** Dropping as many of the oldest as there are before a mark drops exactly those before the mark. */
  lemma {:induction false} OldestBefore(all: set<Id>, dropped: set<Id>, min: Id)
    requires Oldest(all, dropped, |set id | id in all && Less(id, min)|)
    ensures dropped == set id | id in all && Less(id, min)
  {
    var before := set id | id in all && Less(id, min);
    Smaller(before, all);
    assert |dropped| == |before|;
    if k :| k in before && k !in dropped {
      assert forall d :: d in dropped ==> Less(d, k);
      assert dropped < before;
      Proper(dropped, before);
      assert false;
    }
    if d :| d in dropped && d !in before {
      assert before < dropped;
      Proper(before, dropped);
      assert false;
    }
  }

  lemma {:induction false} Proper(a: set<Id>, b: set<Id>)
    requires a < b
    ensures |a| < |b|
  {
    assert b == a + (b - a);
    var id :| id in b - a;
  }
}
