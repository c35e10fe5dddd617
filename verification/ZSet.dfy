/**
 Sorted sets: members in the order of their scores, and a score for each member.

 A score is a 64-bit float that is a number. Floats are kept as a sign and a magnitude, whose bits
 rise with the value, so that comparing two values, putting two floats in total order, and finding
 the next float up are exact.
 */
module SortedSets {
  import opened Common
  import opened Sorting
  import Keys

  // ---- floats that are numbers ---------------------------------------------------------------

  /** The magnitude of infinity: larger ones are not numbers. */
  const INF: nat := 0x7FF0_0000_0000_0000

  datatype Float = Float(neg: bool, mag: nat)
  {
    predicate Valid()
    {
      mag <= INF
    }

    /** Where a float lies among the values, zero being one whatever its sign. */
    function Value(): int
    {
      if neg then 0 - mag as int else mag
    }

    /** Where a float lies in the total order, the negative zero just before the positive one. */
    function Place(): int
    {
      if neg then 0 - mag as int - 1 else mag
    }

    /** The next float up; infinity has none but itself. */
    function NextUp(): Float
    {
      if mag == 0 then Float(false, 1)
      else if !neg && mag == INF then this
      else if neg then Float(true, mag - 1)
      else Float(false, mag + 1)
    }

    /** The one zero that scores are kept as. */
    function Normal(): (r: Float)
      ensures r.Value() == Value() && r.Normalised()
    {
      if mag == 0 then Float(false, 0) else this
    }

    predicate Normalised()
    {
      mag == 0 ==> !neg
    }
  }

  const INFINITY: Float := Float(false, INF)

  /** The next float up is the least with a larger value; there is one below infinity. */
  lemma {:induction false} NextUpIsLeast(x: Float, y: Float)
    requires x.Valid() && y.Valid() && x != INFINITY
    ensures x.NextUp().Valid() && x.Value() < x.NextUp().Value()
    ensures x.Value() < y.Value() <==> x.NextUp().Value() <= y.Value()
  {}

  /** The total order refines the order of values, and tells floats apart. */
  lemma {:induction false} PlaceRefines(x: Float, y: Float)
    ensures x.Value() < y.Value() ==> x.Place() < y.Place()
    ensures x.Place() == y.Place() ==> x == y
    ensures x.Normalised() && y.Normalised() ==> (x.Value() < y.Value() <==> x.Place() < y.Place())
  {}

  // ---- members in order --------------------------------------------------------------------------

  type Ranked = (Float, string)

  /** By score, and by name among equal scores. */
  predicate Before(a: Ranked, b: Ranked)
  {
    a.0.Place() < b.0.Place() || (a.0.Place() == b.0.Place() && Keys.Below(a.1, b.1))
  }

  /** Of two members with their scores, the one with the lower score, or with the first name. */
  predicate Lower(a: Ranked, b: Ranked)
  {
    a.0.Value() < b.0.Value() || (a.0.Value() == b.0.Value() && Keys.Below(a.1, b.1))
  }

  lemma {:induction false} BeforeIsLower(a: Ranked, b: Ranked)
    requires a.0.Normalised() && b.0.Normalised()
    ensures Before(a, b) <==> Lower(a, b)
  {
    PlaceRefines(a.0, b.0);
    PlaceRefines(b.0, a.0);
  }

  lemma {:induction false} BeforeOrders()
    ensures TotalOrder(Before)
  {
    Keys.BelowOrders();
    forall a: Ranked ensures !Before(a, a) {
      Keys.BelowItself(a.1);
    }
    forall a: Ranked, b: Ranked ensures a == b || Before(a, b) || Before(b, a) {
      PlaceRefines(a.0, b.0);
      Keys.BelowTotal(a.1, b.1);
    }
    forall a: Ranked, b: Ranked, c: Ranked | Before(a, b) && Before(b, c) ensures Before(a, c) {
      if Keys.Below(a.1, b.1) && Keys.Below(b.1, c.1) {
        Keys.BelowOn(a.1, b.1, c.1);
      }
    }
  }

  /** The pairs of members and scores, from the first in order on. */
  function InOrder(pairs: set<Ranked>): (r: seq<Ranked>)
    ensures |r| == |pairs| && Rising(r, Before) && forall p :: p in r <==> p in pairs
  {
    BeforeOrders();
    Ascending(pairs, Before)
  }

  /** A bound on scores, which may leave the score itself out. */
  datatype Bound = Bound(score: Float, exclusive: bool)

  predicate FromBelow(min: Bound, score: Float)
  {
    if min.exclusive then min.score.Value() < score.Value() else min.score.Value() <= score.Value()
  }

  predicate FromAbove(max: Bound, score: Float)
  {
    if max.exclusive then score.Value() < max.score.Value() else score.Value() <= max.score.Value()
  }

  /** Where a score's members begin: with the empty name. */
  function First(score: Float): Ranked
  {
    (score, "")
  }

  predicate From(lower: Ranked, p: Ranked)
  {
    !Before(p, lower)
  }

  /** What lies from a score's first member on has at least that score. */
  lemma {:induction false} FromFirst(score: Float, p: Ranked)
    requires p.0.Normalised()
    ensures From(First(score), p) <==> score.Value() <= p.0.Value()
  {
    PlaceRefines(score, p.0);
    PlaceRefines(p.0, score);
  }

  lemma {:induction false} LowerBound(min: Bound, p: Ranked)
    requires min.score.Valid() && p.0.Valid() && p.0.Normalised()
    ensures min.exclusive && min.score == INFINITY ==> !FromBelow(min, p.0)
    ensures !(min.exclusive && min.score == INFINITY) ==>
              (FromBelow(min, p.0) <==> From(First(if min.exclusive then min.score.NextUp() else min.score), p))
  {
    FromFirst(if min.exclusive then min.score.NextUp() else min.score, p);
    if min.score != INFINITY {
      NextUpIsLeast(min.score, p.0);
    }
  }

  lemma {:induction false} UpperBound(max: Bound, p: Ranked)
    requires max.score.Valid() && p.0.Valid() && p.0.Normalised()
    ensures !max.exclusive && max.score == INFINITY ==> FromAbove(max, p.0)
    ensures !(!max.exclusive && max.score == INFINITY) ==>
              (FromAbove(max, p.0) <==> Before(p, First(if max.exclusive then max.score else max.score.NextUp())))
  {
    FromFirst(if max.exclusive then max.score else max.score.NextUp(), p);
    if max.score != INFINITY {
      NextUpIsLeast(max.score, p.0);
    }
  }

  // ---- the sorted set ----------------------------------------------------------------------------------

  class ZSet {
    var scores: map<string, Float>
    var order: set<Ranked>

    constructor ()
      ensures Valid() && scores == map[]
    {
      scores, order := map[], {};
    }

    /** The order is the scores, as pairs; zero is kept with one sign. */
    ghost predicate Valid()
      reads this
    {
      && (forall member :: member in scores ==> scores[member].Valid() && scores[member].Normalised())
      && (forall member :: member in scores ==> (scores[member], member) in order)
      && (forall p :: p in order ==> p.1 in scores && scores[p.1] == p.0)
    }

    /** Gives a member a score, in the scores and in the order alike; true if it had none. */
    method Insert(member: string, score: Float) returns (added: bool)
      requires Valid() && score.Valid()
      modifies this
      ensures Valid() && scores == old(scores)[member := score.Normal()]
      ensures added <==> member !in old(scores)
    {
      var normal := score.Normal();
      added := member !in scores;
      if !added {
        order := order - {(scores[member], member)};
      }
      order := order + {(normal, member)};
      scores := scores[member := normal];
    }

    method Remove(member: string) returns (was: bool)
      requires Valid()
      modifies this
      ensures Valid() && scores == old(scores) - {member}
      ensures was <==> member in old(scores)
    {
      was := member in scores;
      if was {
        order := order - {(scores[member], member)};
        scores := scores - {member};
      }
    }

    /** The members within two bounds, in order. */
    method ByScore(min: Bound, max: Bound) returns (found: seq<Ranked>)
      requires Valid() && min.score.Valid() && max.score.Valid()
      ensures found == InOrder(set p | p in order && FromBelow(min, p.0) && FromAbove(max, p.0))
      ensures forall p :: p in found <==>
                && p.1 in scores && scores[p.1] == p.0
                && (min.score.Value() < p.0.Value() || (min.score.Value() == p.0.Value() && !min.exclusive))
                && (p.0.Value() < max.score.Value() || (p.0.Value() == max.score.Value() && !max.exclusive))
      ensures forall i, j :: 0 <= i < j < |found| ==> Lower(found[i], found[j])
    {
      ghost var within := set p | p in order && FromBelow(min, p.0) && FromAbove(max, p.0);
      forall p | p in order
        ensures p.0.Valid() && p.0.Normalised()
      {
        assert scores[p.1] == p.0;
      }
      var lower := if min.exclusive && min.score == INFINITY then None
                   else Some(First(if min.exclusive then min.score.NextUp() else min.score));
      var upper := if !max.exclusive && max.score == INFINITY then None
                   else Some(First(if max.exclusive then max.score else max.score.NextUp()));
      forall p | p in order
        ensures FromBelow(min, p.0) <==> lower.Some? && From(lower.value, p)
        ensures FromAbove(max, p.0) <==> upper.None? || Before(p, upper.value)
      {
        LowerBound(min, p);
        UpperBound(max, p);
      }
      if lower.None? || (upper.Some? && !Before(lower.value, upper.value)) {
        NoneWithin(within, lower, upper);
        found := [];
      } else {
        found := InOrder(set p | p in order && From(lower.value, p) && (upper.None? || Before(p, upper.value)));
        assert within == set p | p in order && From(lower.value, p) && (upper.None? || Before(p, upper.value));
      }
      FoundWithin(min, max, found);
    }

    /** What lies between two bounds, in order, said of the scores' values. */
    lemma {:induction false} FoundWithin(min: Bound, max: Bound, found: seq<Ranked>)
      requires Valid() && found == InOrder(set p | p in order && FromBelow(min, p.0) && FromAbove(max, p.0))
      ensures forall p :: p in found <==>
                && p.1 in scores && scores[p.1] == p.0
                && (min.score.Value() < p.0.Value() || (min.score.Value() == p.0.Value() && !min.exclusive))
                && (p.0.Value() < max.score.Value() || (p.0.Value() == max.score.Value() && !max.exclusive))
      ensures forall i, j :: 0 <= i < j < |found| ==> Lower(found[i], found[j])
    {
      forall i, j | 0 <= i < j < |found| ensures Lower(found[i], found[j]) {
        assert found[i] in found && found[j] in found;
        BeforeIsLower(found[i], found[j]);
      }
    }

    lemma {:induction false} NoneWithin(within: set<Ranked>, lower: Option<Ranked>, upper: Option<Ranked>)
      requires lower.None? || (upper.Some? && !Before(lower.value, upper.value))
      requires forall p :: p in within ==> lower.Some? && From(lower.value, p) && (upper.None? || Before(p, upper.value))
      ensures within == {}
    {
      BeforeOrders();
    }

    /** How many members come before one. */
    method Rank(member: string) returns (rank: Option<nat>)
      requires Valid()
      ensures rank.None? <==> member !in scores
      ensures rank.Some? ==>
                rank.value < |order| && InOrder(order)[rank.value] == (scores[member], member)
    {
      if member !in scores {
        return None;
      }
      var p := (scores[member], member);
      rank := Some(|Under(order, p, Before)|);
      RankIsIndex(order, p);
    }
  }

  /** As many members come before one as its index in the order says. */
  lemma {:induction false} RankIsIndex(pairs: set<Ranked>, p: Ranked)
    requires p in pairs
    ensures var rank := |Under(pairs, p, Before)|; rank < |pairs| && InOrder(pairs)[rank] == p
  {
    BeforeOrders();
    var list := InOrder(pairs);
    var i :| 0 <= i < |list| && list[i] == p;
    RankAt(list, pairs, Before, i);
  }
}
