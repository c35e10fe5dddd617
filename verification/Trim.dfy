/**
 Trimming the broadcasts to their limit, fairly: a sender that holds more than its share loses its
 oldest first, and only then does anyone else lose any.
 */
module Trimming {
  import opened Common
  import opened Ids

  /** A quarter of a limit, and at least one: what a sender may hold before it is trimmed first. */
  function Share(limit: nat): (r: nat)
    ensures r >= 1
  {
    if limit / 4 > 1 then limit / 4 else 1
  }

  type Posts = map<Id, string>

  /** How many posts of a sender are in a list, leaving some out. */
  function Left(posts: Posts, list: seq<Id>, dropped: seq<Id>, sender: string): nat
    requires forall id :: id in list ==> id in posts
  {
    if list == [] then 0
    else
      var front, id := list[..|list| - 1], list[|list| - 1];
      assert list == front + [id];
      Left(posts, front, dropped, sender) + if posts[id] == sender && id !in dropped then 1 else 0
  }

  lemma {:induction false} LeftSame(posts: Posts, list: seq<Id>, dropped: seq<Id>, id: Id, sender: string)
    requires (forall other :: other in list ==> other in posts) && (id !in list || (id in posts && posts[id] != sender))
    ensures Left(posts, list, dropped + [id], sender) == Left(posts, list, dropped, sender)
  {
    if list != [] {
      var front, last := list[..|list| - 1], list[|list| - 1];
      assert list == front + [last];
      LeftSame(posts, front, dropped, id, sender);
      assert last in dropped + [id] <==> last in dropped || last == id;
    }
  }

  /** Dropping one more post takes one from its sender, and from nobody else. */
  lemma {:induction false} LeftLess(posts: Posts, list: seq<Id>, dropped: seq<Id>, id: Id)
    requires (forall other :: other in list ==> other in posts) && Rising(list) && id in list && id !in dropped
    ensures Left(posts, list, dropped + [id], posts[id]) == Left(posts, list, dropped, posts[id]) - 1
  {
    var front, last := list[..|list| - 1], list[|list| - 1];
    assert list == front + [last];
    if last == id {
      forall i | 0 <= i < |front| ensures front[i] != id {
        assert Less(list[i], list[|list| - 1]);
      }
      LeftSame(posts, front, dropped, id, posts[id]);
    } else {
      LeftLess(posts, front, dropped, id);
      assert last in dropped + [id] <==> last in dropped;
    }
  }

  lemma {:induction false} LeftNone(posts: Posts, list: seq<Id>, dropped: seq<Id>, sender: string)
    requires forall id :: id in list ==> id in posts
    requires forall id :: id in list && posts[id] == sender ==> id in dropped
    ensures Left(posts, list, dropped, sender) == 0
  {
    if list != [] {
      assert list == list[..|list| - 1] + [list[|list| - 1]];
      LeftNone(posts, list[..|list| - 1], dropped, sender);
    }
  }

  /** The posts of a sender that are not dropped. */
  function LeftOf(posts: Posts, dropped: seq<Id>, sender: string): set<Id>
  {
    set id | id in posts && posts[id] == sender && id !in dropped
  }

  /** A sender has more than one post left, and more than a quarter of the limit. */
  ghost predicate AboveQuarter(posts: Posts, dropped: seq<Id>, sender: string, max: nat)
  {
    var left := |LeftOf(posts, dropped, sender)|;
    left > 1 && 4 * left > max
  }

  lemma {:induction false} LeftCounts(posts: Posts, dropped: seq<Id>, sender: string)
    ensures Left(posts, Ascending(posts.Keys), dropped, sender) == |LeftOf(posts, dropped, sender)|
  {
    var list := Ascending(posts.Keys);
    LeftListed(posts, list, dropped, sender);
    assert LeftOf(posts, dropped, sender) == LeftAmong(posts, list, dropped, sender);
  }

  ghost function LeftAmong(posts: Posts, list: seq<Id>, dropped: seq<Id>, sender: string): set<Id>
    requires forall id :: id in list ==> id in posts
  {
    set id | id in list && posts[id] == sender && id !in dropped
  }

  lemma {:induction false} LeftListed(posts: Posts, list: seq<Id>, dropped: seq<Id>, sender: string)
    requires Rising(list) && forall id :: id in list ==> id in posts
    ensures Left(posts, list, dropped, sender) == |LeftAmong(posts, list, dropped, sender)|
  {
    if list != [] {
      var front, last := list[..|list| - 1], list[|list| - 1];
      assert list == front + [last];
      LeftListed(posts, front, dropped, sender);
      OneAmong(posts, front, last, dropped, sender);
    }
  }

  lemma {:induction false} OneAmong(posts: Posts, front: seq<Id>, last: Id, dropped: seq<Id>, sender: string)
    requires Rising(front + [last]) && forall id :: id in front + [last] ==> id in posts
    ensures forall id :: id in front ==> id in posts
    ensures last in posts && |LeftAmong(posts, front + [last], dropped, sender)| ==
            |LeftAmong(posts, front, dropped, sender)| + if posts[last] == sender && last !in dropped then 1 else 0
  {
    var list := front + [last];
    forall i | 0 <= i < |front| ensures front[i] != last {
      assert Less(list[i], list[|front|]);
    }
    var before, all := LeftAmong(posts, front, dropped, sender), LeftAmong(posts, list, dropped, sender);
    assert all == if posts[last] == sender && last !in dropped then before + {last} else before;
  }

  /** Each sender's count of posts, none left out. */
  method Count(posts: Posts, list: seq<Id>) returns (held: map<string, nat>)
    requires forall id :: id in list ==> id in posts
    ensures forall id :: id in list ==> posts[id] in held
    ensures forall sender :: sender in held ==> held[sender] == Left(posts, list, [], sender)
  {
    held := map[];
    for i := 0 to |list|
      invariant forall k :: 0 <= k < i ==> posts[list[k]] in held
      invariant forall sender :: sender in held ==> held[sender] == Left(posts, list[..i], [], sender)
      invariant forall sender :: sender !in held ==> Left(posts, list[..i], [], sender) == 0
    {
      assert list[i] in list;
      assert list[..i + 1][..i] == list[..i];
      var sender := posts[list[i]];
      held := held[sender := (if sender in held then held[sender] else 0) + 1];
    }
    assert list[..|list|] == list;
  }

  /** Nobody in the list is dropped twice, and whoever is dropped is in it. */
  ghost predicate Drops(list: seq<Id>, ids: seq<Id>)
  {
    && (forall id :: id in ids ==> id in list)
    && (forall i, j :: 0 <= i < j < |ids| ==> ids[i] != ids[j])
  }

  /** Each of the first `n` was taken from a sender that then held more than its share, and was its oldest. */
  ghost predicate Above(posts: Posts, list: seq<Id>, ids: seq<Id>, quota: nat)
    requires forall id :: id in list ==> id in posts
  {
    && Drops(list, ids)
    && (forall k :: 0 <= k < |ids| ==> Left(posts, list, ids[..k], posts[ids[k]]) > quota)
    && (forall a, b :: a in list && b in ids && posts[a] == posts[b] && Less(a, b) ==> a in ids)
  }

  lemma {:induction false} AboveMore(posts: Posts, list: seq<Id>, ids: seq<Id>, quota: nat, id: Id)
    requires (forall other :: other in list ==> other in posts) && Above(posts, list, ids, quota)
    requires id in list && id !in ids && Left(posts, list, ids, posts[id]) > quota
    requires forall a :: a in list && posts[a] == posts[id] && Less(a, id) ==> a in ids
    ensures Above(posts, list, ids + [id], quota)
  {
    var more := ids + [id];
    forall k | 0 <= k < |more| ensures Left(posts, list, more[..k], posts[more[k]]) > quota {
      if k < |ids| {
        assert more[..k] == ids[..k];
      } else {
        assert more[..k] == ids;
      }
    }
  }

  /** How many posts each sender has left, once some are taken. */
  ghost predicate Tallied(posts: Posts, list: seq<Id>, ids: seq<Id>, held: map<string, nat>)
  {
    && (forall id :: id in list ==> id in posts && posts[id] in held)
    && (forall sender :: sender in held ==> held[sender] == Left(posts, list, ids, sender))
  }

  lemma {:induction false} TalliedMore(posts: Posts, list: seq<Id>, ids: seq<Id>, held: map<string, nat>, id: Id)
    requires Rising(list) && Tallied(posts, list, ids, held) && id in list && id !in ids && held[posts[id]] > 0
    ensures var less: nat := held[posts[id]] - 1; Tallied(posts, list, ids + [id], held[posts[id] := less])
  {
    forall sender | sender in held
      ensures Left(posts, list, ids + [id], sender) == if sender == posts[id] then held[sender] - 1 else held[sender] {
      if sender == posts[id] {
        LeftLess(posts, list, ids, id);
      } else {
        LeftSame(posts, list, ids, id, sender);
      }
    }
  }

  /** Of the first `i` posts those from a sender that is still above the share are taken, and no others are. */
  ghost predicate Looked(posts: Posts, list: seq<Id>, ids: seq<Id>, i: nat, held: map<string, nat>, quota: nat)
    requires i <= |list| && forall id :: id in list ==> id in posts && posts[id] in held
  {
    && (forall id :: id in ids ==> id in list[..i])
    && (forall k :: 0 <= k < i && held[posts[list[k]]] > quota ==> list[k] in ids)
  }

  lemma {:induction false} LookedMore(posts: Posts, list: seq<Id>, ids: seq<Id>, i: nat, held: map<string, nat>, quota: nat)
    requires i < |list| && (forall id :: id in list ==> id in posts && posts[id] in held) && Looked(posts, list, ids, i, held, quota)
    ensures var id := list[i];
      if held[posts[id]] > quota then
        var less: nat := held[posts[id]] - 1;
        Looked(posts, list, ids + [id], i + 1, held[posts[id] := less], quota)
      else Looked(posts, list, ids, i + 1, held, quota)
  {
    assert list[..i + 1] == list[..i] + [list[i]];
  }

  /** Takes from the senders above their share, oldest first, until none is or enough are taken. */
  method TakeAbove(posts: Posts, list: seq<Id>, excess: nat, quota: nat) returns (ids: seq<Id>)
    requires Rising(list) && forall id :: id in list ==> id in posts
    ensures |ids| <= excess && Above(posts, list, ids, quota)
    ensures |ids| < excess ==> forall sender :: Left(posts, list, ids, sender) <= quota
  {
    var held: map<string, nat> := Count(posts, list);
    ids := [];
    var i := 0;
    while i < |list| && |ids| < excess
      invariant i <= |list| && |ids| <= excess && Above(posts, list, ids, quota)
      invariant Tallied(posts, list, ids, held) && Looked(posts, list, ids, i, held, quota)
    {
      var id := list[i];
      assert id in list;
      var count := held[posts[id]];
      LookedMore(posts, list, ids, i, held, quota);
      if count > quota {
        TakenNext(posts, list, ids, i, held, quota);
        AboveMore(posts, list, ids, quota, id);
        TalliedMore(posts, list, ids, held, id);
        held := held[posts[id] := count - 1];
        ids := ids + [id];
      }
      i := i + 1;
    }
    if |ids| < excess {
      forall sender ensures Left(posts, list, ids, sender) <= quota {
        NoneAbove(posts, list, ids, held, quota, sender);
      }
    }
  }

  lemma {:induction false} TakenNext(posts: Posts, list: seq<Id>, ids: seq<Id>, i: nat, held: map<string, nat>, quota: nat)
    requires Rising(list) && (forall id :: id in list ==> id in posts && posts[id] in held) && i < |list|
    requires forall id :: id in ids ==> id in list[..i]
    requires forall k :: 0 <= k < i && held[posts[list[k]]] > quota ==> list[k] in ids
    requires held[posts[list[i]]] > quota
    ensures list[i] !in ids
    ensures forall a :: a in list && posts[a] == posts[list[i]] && Less(a, list[i]) ==> a in ids
  {
    forall k | 0 <= k < i ensures list[..i][k] != list[i] {
      assert Less(list[k], list[i]);
    }
    forall a | a in list && posts[a] == posts[list[i]] && Less(a, list[i]) ensures a in ids {
      var k :| 0 <= k < |list| && list[k] == a;
      assert k < i;
    }
  }

  lemma {:induction false} NoneAbove(posts: Posts, list: seq<Id>, ids: seq<Id>, held: map<string, nat>, quota: nat, sender: string)
    requires forall id :: id in list ==> id in posts && posts[id] in held
    requires forall s :: s in held ==> held[s] == Left(posts, list, ids, s)
    requires forall k :: 0 <= k < |list| && held[posts[list[k]]] > quota ==> list[k] in ids
    ensures Left(posts, list, ids, sender) <= quota
  {
    if Left(posts, list, ids, sender) > quota {
      forall id | id in list && posts[id] == sender ensures id in ids {
        var k :| 0 <= k < |list| && list[k] == id;
        assert held[posts[list[k]]] > quota;
      }
      LeftNone(posts, list, ids, sender);
    }
  }

  /** Takes the oldest that are left, until enough are taken. */
  method TakeOldest(list: seq<Id>, excess: nat, first: seq<Id>) returns (ids: seq<Id>)
    requires Rising(list) && Drops(list, first) && |first| <= excess <= |list|
    ensures |ids| == excess && Drops(list, ids) && first <= ids
    ensures forall a, b :: a in list && b in ids[|first|..] && Less(a, b) ==> a in ids
  {
    ids := first;
    var i := 0;
    while i < |list| && |ids| < excess
      invariant i <= |list| && first <= ids && |ids| <= excess && Drops(list, ids)
      invariant forall k :: 0 <= k < i ==> list[k] in ids
      invariant forall b :: b in ids[|first|..] ==> b in list[..i]
    {
      var id := list[i];
      if id !in ids {
        assert (ids + [id])[|first|..] == ids[|first|..] + [id];
        ids := ids + [id];
      }
      assert list[..i + 1] == list[..i] + [id];
      i := i + 1;
    }
    if |ids| < excess {
      Everyone(list, ids);
    }
    forall a, b | a in list && b in ids[|first|..] && Less(a, b) ensures a in ids {
      var k :| 0 <= k < |list| && list[k] == a;
      var m :| 0 <= m < i && list[..i][m] == b;
      assert k < i;
    }
  }

  lemma {:induction false} Everyone(list: seq<Id>, ids: seq<Id>)
    requires Rising(list) && Drops(list, ids) && forall k :: 0 <= k < |list| ==> list[k] in ids
    ensures |ids| >= |list|
  {
    var all := set id | id in list;
    RisingSize(list, all);
    Distinct(ids);
    assert all == set id | id in ids;
  }

  lemma {:induction false} Distinct(ids: seq<Id>)
    requires forall i, j :: 0 <= i < j < |ids| ==> ids[i] != ids[j]
    ensures |set id | id in ids| == |ids|
  {
    if ids != [] {
      var front, last := ids[..|ids| - 1], ids[|ids| - 1];
      assert ids == front + [last];
      assert last !in front;
      Distinct(front);
      assert (set id | id in ids) == (set id | id in front) + {last};
    }
  }

  /** The posts to drop, so that no more than `max` are left: exactly the excess, each once. The first `n`
      were taken from senders above their share, each one's oldest first; if there are more, no sender is
      above its share by then, and they are the oldest of all that are left. */
  method Trim(posts: Posts, max: nat) returns (ids: seq<Id>, ghost n: nat)
    ensures |ids| == (if |posts| > max then |posts| - max else 0) && Drops(Ascending(posts.Keys), ids) && n <= |ids|
    ensures Above(posts, Ascending(posts.Keys), ids[..n], Share(max))
    ensures n < |ids| ==> forall sender :: Left(posts, Ascending(posts.Keys), ids[..n], sender) <= Share(max)
    ensures forall k :: 0 <= k < n ==> AboveQuarter(posts, ids[..k], posts[ids[k]], max)
    ensures n < |ids| ==> forall sender :: !AboveQuarter(posts, ids[..n], sender, max)
    ensures forall a, b :: a in posts && b in ids[n..] && Less(a, b) ==> a in ids
  {
    var list := Ascending(posts.Keys);
    if |posts| <= max {
      return [], 0;
    }
    var excess := |posts| - max;
    var first := TakeAbove(posts, list, excess, Share(max));
    n := |first|;
    assert |posts.Keys| == |posts|;
    ids := TakeOldest(list, excess, first);
    assert ids[..n] == first;
    forall k | 0 <= k < n ensures AboveQuarter(posts, ids[..k], posts[ids[k]], max) {
      assert ids[..k] == first[..k];
      LeftCounts(posts, ids[..k], posts[ids[k]]);
    }
    forall sender ensures n < |ids| ==> !AboveQuarter(posts, ids[..n], sender, max) {
      LeftCounts(posts, ids[..n], sender);
    }
  }
}
