/**
 The feed of events, with replay.

 The server keeps the last events in a ring. A reader that falls behind, or goes away, connects
 again with the id of the last event it received, and what it missed is replayed from the ring.
 `Events` is the server's side; `Run` adds the readers, and shows over whole runs that a reader
 misses nothing and receives nothing twice, and that a name's new holder is told nothing of its past.
 */
module EventFeed {
  import opened Common

  const EVENT_HISTORY: nat := 1000
  const SUBSCRIBER_BUFFER: nat := 256
  const U64_MAX: nat := 0xFFFF_FFFF_FFFF_FFFF

  /** `scope` names the agents an event concerns: none for everyone. */
  datatype Event = Event(id: nat, scope: Option<seq<string>>, json: string)

  predicate Visible(event: Event, agent: Option<string>)
  {
    agent.None? || event.scope.None? || agent.value in event.scope.value
  }

  // ---- what there is to see --------------------------------------------------------------

  /** Events have consecutive ids. */
  ghost predicate Numbered(log: seq<Event>, first: nat)
  {
    forall i :: 0 <= i < |log| ==> log[i].id == first + i
  }

  /** The events that `agent` may see, with an id of at least `from`, in order. */
  function Sees(log: seq<Event>, agent: Option<string>, from: nat): (r: seq<Event>)
  {
    if log == [] then []
    else
      var event := log[|log| - 1];
      Sees(log[..|log| - 1], agent, from) + if event.id >= from && Visible(event, agent) then [event] else []
  }

  lemma {:induction false} SeesOneMore(log: seq<Event>, event: Event, agent: Option<string>, from: nat)
    ensures Sees(log + [event], agent, from) ==
            Sees(log, agent, from) + if event.id >= from && Visible(event, agent) then [event] else []
  {
    assert (log + [event])[..|log|] == log;
  }

  lemma {:induction false} SeesAcross(log: seq<Event>, more: seq<Event>, agent: Option<string>, from: nat)
    ensures Sees(log + more, agent, from) == Sees(log, agent, from) + Sees(more, agent, from)
  {
    if more == [] {
      assert log + more == log;
    } else {
      var before, event := more[..|more| - 1], more[|more| - 1];
      assert log + more == (log + before) + [event];
      SeesOneMore(log + before, event, agent, from);
      SeesAcross(log, before, agent, from);
    }
  }

  /** Seeing is being visible and recent enough: nothing else is seen, and nothing that is goes missing. */
  lemma {:induction false} SeesExactly(log: seq<Event>, agent: Option<string>, from: nat, event: Event)
    ensures event in Sees(log, agent, from) <==> event in log && event.id >= from && Visible(event, agent)
  {
    if log != [] {
      SeesExactly(log[..|log| - 1], agent, from, event);
      assert log == log[..|log| - 1] + [log[|log| - 1]];
    }
  }

  /** What is seen comes in the order of its ids, so each event once. */
  lemma {:induction false} SeesInOrder(log: seq<Event>, first: nat, agent: Option<string>, from: nat)
    requires Numbered(log, first)
    ensures Ascending(Sees(log, agent, from), from, first + |log|)
  {
    if log != [] {
      var front, event := log[..|log| - 1], log[|log| - 1];
      SeesInOrder(front, first, agent, from);
      assert event.id == first + |front|;
    }
  }

  ghost predicate Ascending(events: seq<Event>, from: nat, to: nat)
  {
    && (forall i :: 0 <= i < |events| ==> from <= events[i].id < to)
    && (forall i, j :: 0 <= i < j < |events| ==> events[i].id < events[j].id)
  }

  /** Nothing that is too old is seen. */
  lemma {:induction false} SeesNone(log: seq<Event>, agent: Option<string>, from: nat)
    requires forall i :: 0 <= i < |log| ==> log[i].id < from
    ensures Sees(log, agent, from) == []
  {
    if log != [] {
      SeesNone(log[..|log| - 1], agent, from);
    }
  }

  /** A lower bound that all have, or that another bound already gives, changes nothing. */
  lemma {:induction false} SeesBound(log: seq<Event>, agent: Option<string>, from: nat, other: nat)
    requires forall i :: 0 <= i < |log| && Visible(log[i], agent) ==> (log[i].id >= from <==> log[i].id >= other)
    ensures Sees(log, agent, from) == Sees(log, agent, other)
  {
    if log != [] {
      SeesBound(log[..|log| - 1], agent, from, other);
    }
  }

  /** Some event for `agent` lies between the two. */
  ghost predicate Skipped(log: seq<Event>, agent: Option<string>, from: nat, base: nat)
  {
    exists i :: 0 <= i < |log| && from <= log[i].id < base && Visible(log[i], agent)
  }

  /** All from `base` on is all from `from` on, unless some was skipped. */
  lemma {:induction false} SkippedShows(log: seq<Event>, agent: Option<string>, from: nat, base: nat)
    requires from <= base
    ensures Sees(log, agent, from) == Sees(log, agent, base) <==> !Skipped(log, agent, from, base)
  {
    if Skipped(log, agent, from, base) {
      var i :| 0 <= i < |log| && from <= log[i].id < base && Visible(log[i], agent);
      SeesExactly(log, agent, from, log[i]);
      SeesExactly(log, agent, base, log[i]);
    } else {
      SeesBound(log, agent, from, base);
    }
  }

  /** What comes after the last event received is what is left to receive. */
  lemma {:induction false} SeesResumes(log: seq<Event>, first: nat, agent: Option<string>, from: nat, got: seq<Event>)
    requires Numbered(log, first) && got != [] && got <= Sees(log, agent, from)
    ensures Sees(log, agent, from) == got + Sees(log, agent, got[|got| - 1].id + 1)
  {
    var front, event := log[..|log| - 1], log[|log| - 1];
    var last := got[|got| - 1];
    assert event.id == first + |front|;
    SeesInOrder(front, first, agent, from);
    var before := Sees(front, agent, from);
    if |got| <= |before| {
      assert got <= before;
      SeesResumes(front, first, agent, from, got);
      assert last == before[|got| - 1] && from <= last.id < event.id;
      var later, more := Sees(front, agent, last.id + 1), if Visible(event, agent) then [event] else [];
      assert Sees(log, agent, from) == (got + later) + more && Sees(log, agent, last.id + 1) == later + more;
      assert (got + later) + more == got + (later + more);
    } else {
      assert got == Sees(log, agent, from) && last == event;
      SeesNone(log, agent, event.id + 1);
    }
  }

  // ---- the server -------------------------------------------------------------------------

  /** What comes to one reader: what is replayed to it, then what its queue holds. The server holds
      one end while `open`, the reader the other while `held`. */
  datatype Feed = Feed(agent: Option<string>, replay: seq<Event>, queue: seq<Event>, open: bool, held: bool)
  {
    function Waiting(): seq<Event>
    {
      replay + queue
    }

    /** Without the event that comes next. */
    function Less(): (r: Feed)
      requires Waiting() != []
      ensures r.Waiting() == Waiting()[1..]
    {
      if replay != [] then
        assert (replay + queue)[1..] == replay[1..] + queue;
        this.(replay := replay[1..])
      else
        assert replay + queue == queue;
        assert (replay + queue[1..]) == queue[1..];
        this.(queue := queue[1..])
    }
  }

  /** From which event on a name's holder may be told of it: the latest handover on record, or all there is. */
  function Since(handovers: map<string, nat>, agent: Option<string>): nat
  {
    if agent.Some? && agent.value in handovers then handovers[agent.value] else 0
  }

  /** Where what a reader may be told begins. */
  function From(handovers: map<string, nat>, after: Option<nat>, agent: Option<string>): nat
  {
    if after.None? || after.value + 1 <= Since(handovers, agent) then Since(handovers, agent) else after.value + 1
  }

  /** What is replayed: the events after `after` that name the agent, or nobody, since the name last changed hands; each
      once, in order. */
  ghost predicate Replayed(log: seq<Event>, handed: map<string, nat>, after: nat, agent: Option<string>, replay: seq<Event>)
  {
    && (forall i, j :: 0 <= i < j < |replay| ==> replay[i].id < replay[j].id)
    && forall event :: event in replay <==>
         && event in log && event.id > after
         && (agent.Some? ==>
               && (event.scope.Some? ==> agent.value in event.scope.value)
               && (agent.value in handed ==> event.id >= handed[agent.value]))
  }

  /** What a feed is opened with is all that, and nothing else. */
  lemma {:induction false} SeesReplayed(log: seq<Event>, first: nat, handed: map<string, nat>, after: nat, agent: Option<string>)
    requires Numbered(log, first)
    ensures Replayed(log, handed, after, agent, Sees(log, agent, From(handed, Some(after), agent)))
  {
    var from := From(handed, Some(after), agent);
    SeesInOrder(log, first, agent, from);
    forall event ensures event in Sees(log, agent, from) <==> event in log && event.id >= from && Visible(event, agent) {
      SeesExactly(log, agent, from, event);
    }
  }

  /** A handover that was forgotten is older than anything to replay. */
  lemma {:induction false} FromKept(
      handovers: map<string, nat>, handed: map<string, nat>, oldest: nat, next: nat, after: nat, agent: Option<string>)
    requires HandoversOk(handovers, handed, oldest, next) && oldest <= after + 1
    ensures From(handovers, Some(after), agent) == From(handed, Some(after), agent)
  {}

  /** What is recent enough is among the last events. */
  lemma {:induction false} SeesRecent(log: seq<Event>, first: nat, agent: Option<string>, from: nat)
    requires Numbered(log, first) && first + |log| - |Recent(log)| <= from
    ensures Sees(Recent(log), agent, from) == Sees(log, agent, from)
  {
    var gone := log[..|log| - |Recent(log)|];
    assert log == gone + Recent(log);
    SeesAcross(gone, Recent(log), agent, from);
    SeesNone(gone, agent, from);
  }

  /** A feed opened by whoever held its name `since` that event: it hears only of what happened since,
      and once the name has changed hands again, only of what happened before. */
  ghost predicate FeedOk(feed: Feed, since: nat, handed: map<string, nat>, next: nat)
  {
    && |feed.queue| <= SUBSCRIBER_BUFFER
    && since <= Since(handed, feed.agent)
    && (feed.open ==> since == Since(handed, feed.agent))
    && forall i :: 0 <= i < |feed.Waiting()| ==>
         var event := feed.Waiting()[i];
         && since <= event.id < next && Visible(event, feed.agent)
         && (since < Since(handed, feed.agent) ==> event.id < Since(handed, feed.agent))
  }

  ghost predicate FeedsOk(feeds: seq<Feed>, born: seq<nat>, handed: map<string, nat>, next: nat)
  {
    |born| == |feeds| && forall i :: 0 <= i < |feeds| ==> FeedOk(feeds[i], born[i], handed, next)
  }

  /** Of all handovers, those before the oldest event there is to replay may be forgotten. */
  ghost predicate HandoversOk(handovers: map<string, nat>, handed: map<string, nat>, oldest: nat, next: nat)
  {
    && (forall n :: n in handed ==> handed[n] <= next)
    && (forall n :: n in handovers ==> n in handed && handovers[n] == handed[n])
    && (forall n :: n in handed && n !in handovers ==> handed[n] <= oldest)
  }

  /** The last events. */
  ghost function Recent(log: seq<Event>): seq<Event>
  {
    if |log| < EVENT_HISTORY then log else log[|log| - EVENT_HISTORY..]
  }

  lemma {:induction false} FeedOkSame(feed: Feed, same: Feed, since: nat, handed: map<string, nat>, next: nat)
    requires FeedOk(feed, since, handed, next)
    requires same.agent == feed.agent && same.Waiting() == feed.Waiting() && same.queue == feed.queue && (same.open ==> feed.open)
    ensures FeedOk(same, since, handed, next)
  {}

  lemma {:induction false} FeedOkLess(feed: Feed, since: nat, handed: map<string, nat>, next: nat)
    requires FeedOk(feed, since, handed, next) && feed.Waiting() != []
    ensures FeedOk(feed.Less(), since, handed, next)
  {
    var less := feed.Less();
    forall i | 0 <= i < |less.Waiting()| ensures less.Waiting()[i] == feed.Waiting()[i + 1] {}
  }

  /** What an event does to a feed: a reader that falls behind, or is gone, is dropped. */
  function Delivered(feed: Feed, event: Event): Feed
  {
    if !feed.open || !Visible(event, feed.agent) then feed
    else if feed.held && |feed.queue| < SUBSCRIBER_BUFFER then feed.(queue := feed.queue + [event])
    else feed.(open := false)
  }

  /** What came to a feed of an event with this scope: the event, when the feed is open, its agent is none or the scope none
      or the agent among those it names, and there is a reader with room. Without one the feed is dropped. */
  predicate Offered(was: Feed, scope: Option<seq<string>>, event: Event, now: Feed)
  {
    if was.open && (was.agent.None? || scope.None? || was.agent.value in scope.value) then
      if was.held && |was.queue| < 256 then now == was.(queue := was.queue + [event]) else now == was.(open := false)
    else now == was
  }

  function DeliveredAll(feeds: seq<Feed>, event: Event): (r: seq<Feed>)
    ensures |r| == |feeds| && forall i :: 0 <= i < |feeds| ==> r[i] == Delivered(feeds[i], event)
  {
    seq(|feeds|, i requires 0 <= i < |feeds| => Delivered(feeds[i], event))
  }

  lemma {:induction false} FeedsDelivered(feeds: seq<Feed>, born: seq<nat>, handed: map<string, nat>, next: nat, event: Event, after: seq<Feed>)
    requires FeedsOk(feeds, born, handed, next) && event.id == next && (forall n :: n in handed ==> handed[n] <= next)
    requires after == DeliveredAll(feeds, event)
    ensures FeedsOk(after, born, handed, next + 1)
  {
    forall i | 0 <= i < |feeds| ensures FeedOk(after[i], born[i], handed, next + 1) {
      assert FeedOk(feeds[i], born[i], handed, next);
      FeedDelivered(feeds[i], born[i], handed, next, event);
    }
  }

  lemma {:induction false} FeedDelivered(feed: Feed, since: nat, handed: map<string, nat>, next: nat, event: Event)
    requires FeedOk(feed, since, handed, next) && event.id == next && (forall n :: n in handed ==> handed[n] <= next)
    ensures FeedOk(Delivered(feed, event), since, handed, next + 1)
  {
    var after := Delivered(feed, event);
    assert after.Waiting() == feed.Waiting() || after.Waiting() == feed.Waiting() + [event];
  }

  lemma {:induction false} FeedsHanded(feeds: seq<Feed>, born: seq<nat>, handed: map<string, nat>, next: nat, name: string)
    requires FeedsOk(feeds, born, handed, next) && (forall n :: n in handed ==> handed[n] <= next)
    ensures FeedsOk(CloseOf(feeds, name), born, handed[name := next], next)
  {
    var after := CloseOf(feeds, name);
    forall i | 0 <= i < |feeds| ensures FeedOk(after[i], born[i], handed[name := next], next) {
      assert FeedOk(feeds[i], born[i], handed, next);
      assert after[i].Waiting() == feeds[i].Waiting();
    }
  }

  lemma {:induction false} FeedsLeft(feeds: seq<Feed>, born: seq<nat>, handed: map<string, nat>, next: nat)
    requires FeedsOk(feeds, born, handed, next)
    ensures FeedsOk(CloseLeft(feeds), born, handed, next)
  {
    var after := CloseLeft(feeds);
    forall i | 0 <= i < |feeds| ensures FeedOk(after[i], born[i], handed, next) {
      FeedOkSame(feeds[i], after[i], born[i], handed, next);
    }
  }

  lemma {:induction false} FeedsMore(feeds: seq<Feed>, born: seq<nat>, handed: map<string, nat>, next: nat, feed: Feed, since: nat)
    requires FeedsOk(feeds, born, handed, next) && FeedOk(feed, since, handed, next)
    ensures FeedsOk(feeds + [feed], born + [since], handed, next)
  {
    var more, sinces := feeds + [feed], born + [since];
    forall i | 0 <= i < |more| ensures FeedOk(more[i], sinces[i], handed, next) {
      assert i < |feeds| ==> more[i] == feeds[i] && sinces[i] == born[i];
    }
  }

  /** A feed begins with what is replayed to it. */
  lemma {:induction false} FeedBegins(log: seq<Event>, first: nat, handed: map<string, nat>, agent: Option<string>, from: nat, replay: seq<Event>)
    requires Numbered(log, first) && from >= Since(handed, agent)
    requires replay == [] || replay == Sees(log, agent, from)
    ensures FeedOk(Feed(agent, replay, [], true, true), Since(handed, agent), handed, first + |log|)
  {
    var feed := Feed(agent, replay, [], true, true);
    SeesInOrder(log, first, agent, from);
    assert feed.Waiting() == replay;
    forall i | 0 <= i < |replay| ensures Visible(replay[i], agent) {
      SeesExactly(log, agent, from, replay[i]);
    }
  }

  /** What a reader has no way to receive any more. */
  ghost predicate Lost(id: nat, after: nat, oldest: nat)
  {
    after < id < oldest
  }

  ghost predicate AnyLost(after: nat, oldest: nat)
  {
    exists id :: Lost(id, after, oldest)
  }

  /** Offers an event to every feed. */
  method DeliverAll(feeds: seq<Feed>, event: Event) returns (after: seq<Feed>)
    ensures after == DeliveredAll(feeds, event)
  {
    after := [];
    for i := 0 to |feeds|
      invariant |after| == i && forall k :: 0 <= k < i ==> after[k] == Delivered(feeds[k], event)
    {
      var feed := feeds[i];
      if feed.open && Visible(event, feed.agent) {
        if feed.held && |feed.queue| < SUBSCRIBER_BUFFER {
          feed := feed.(queue := feed.queue + [event]);
        } else {
          feed := feed.(open := false);
        }
      }
      after := after + [feed];
    }
  }

  /** The events of the ring that come after `after`, from when the agent has held its name. */
  method Replay(ring: seq<Event>, after: nat, since: nat, agent: Option<string>) returns (replay: seq<Event>)
    ensures replay == Sees(ring, agent, if after + 1 <= since then since else after + 1)
  {
    replay := [];
    ghost var from := if after + 1 <= since then since else after + 1;
    for i := 0 to |ring|
      invariant replay == Sees(ring[..i], agent, from)
    {
      assert ring[..i + 1] == ring[..i] + [ring[i]];
      SeesOneMore(ring[..i], ring[i], agent, from);
      if ring[i].id > after && ring[i].id >= since && Visible(ring[i], agent) {
        replay := replay + [ring[i]];
      }
    }
    assert ring[..|ring|] == ring;
  }

  function CloseOf(feeds: seq<Feed>, name: string): (r: seq<Feed>)
    ensures |r| == |feeds|
    ensures forall i :: 0 <= i < |feeds| ==>
              r[i] == if feeds[i].agent == Some(name) then feeds[i].(open := false) else feeds[i]
  {
    seq(|feeds|, i requires 0 <= i < |feeds| =>
      if feeds[i].agent == Some(name) then feeds[i].(open := false) else feeds[i])
  }

  function CloseLeft(feeds: seq<Feed>): (r: seq<Feed>)
    ensures |r| == |feeds|
    ensures forall i :: 0 <= i < |feeds| ==> r[i] == if feeds[i].held then feeds[i] else feeds[i].(open := false)
  {
    seq(|feeds|, i requires 0 <= i < |feeds| => if feeds[i].held then feeds[i] else feeds[i].(open := false))
  }

  class Events {
    var next: nat
    var ring: seq<Event>
    var feeds: seq<Feed>
    var handovers: map<string, nat>
    /** The first id, every event there was, when each name last changed hands, none forgotten, and
        since when the name of each feed had been held when it was opened. */
    ghost const first: nat
    ghost var log: seq<Event>
    ghost var handed: map<string, nat>
    ghost var born: seq<nat>

    constructor (seed: nat)
      ensures Valid() && next == seed && feeds == [] && log == [] && handed == map[]
    {
      next, ring, feeds, handovers := seed, [], [], map[];
      first, log, handed, born := seed, [], map[], [];
    }

    /** The oldest event that could be replayed. */
    function Oldest(): nat
      reads this
    {
      if ring == [] then next else ring[0].id
    }

    ghost predicate Valid()
      reads this
    {
      && next == first + |log| && Numbered(log, first) && ring == Recent(log)
      && HandoversOk(handovers, handed, Oldest(), next)
      && FeedsOk(feeds, born, handed, next)
    }

    method Publish(scope: Option<seq<string>>, json: string)
      requires Valid()
      modifies this
      ensures Valid() && next == old(next) + 1 && handed == old(handed)
      ensures log == old(log) + [Event(old(next), scope, json)]
      ensures feeds == DeliveredAll(old(feeds), Event(old(next), scope, json))
      ensures forall i :: 0 <= i < |feeds| ==> Offered(old(feeds)[i], scope, Event(old(next), scope, json), feeds[i])
    {
      var event := Event(next, scope, json);
      next := next + 1;
      if |ring| == EVENT_HISTORY {
        ring := ring[1..];
      }
      ring := ring + [event];
      log := log + [event];
      ghost var was := feeds;
      feeds := DeliverAll(feeds, event);
      FeedsDelivered(was, born, handed, event.id, event, feeds);
    }

    /** Opens a feed from after the event `after`, or tells the reader that there is no telling what it missed. */
    method Subscribe(after: Option<nat>, agent: Option<string>) returns (n: nat, resync: bool)
      requires Valid() && (after.Some? ==> after.value <= U64_MAX) && next <= U64_MAX
      modifies this`feeds, this`born
      ensures Valid()
      ensures resync <==> after.Some? && (after.value >= next || AnyLost(after.value, Oldest()))
      ensures n == |old(feeds)|
      ensures var replay := if after.None? || resync then [] else Sees(log, agent, From(handed, after, agent));
              feeds == CloseLeft(old(feeds)) + [Feed(agent, replay, [], true, true)]
    {
      var replay;
      replay, resync := Missed(after, agent);
      n := |feeds|;
      FeedsLeft(feeds, born, handed, next);
      FeedBegins(log, first, handed, agent, From(handed, after, agent), replay);
      var kept := CloseLeft(feeds);
      FeedsMore(kept, born, handed, next, Feed(agent, replay, [], true, true), Since(handed, agent));
      feeds := kept + [Feed(agent, replay, [], true, true)];
      born := born + [Since(handed, agent)];
    }

    /** What a reader missed since `after`, or that there is no telling. */
    method Missed(after: Option<nat>, agent: Option<string>) returns (replay: seq<Event>, resync: bool)
      requires Valid() && (after.Some? ==> after.value <= U64_MAX) && next <= U64_MAX
      ensures resync <==> after.Some? && (after.value >= next || AnyLost(after.value, Oldest()))
      ensures replay == if after.None? || resync then [] else Sees(log, agent, From(handed, after, agent))
    {
      resync, replay := false, [];
      if after.Some? {
        var following := if after.value == U64_MAX then U64_MAX else after.value + 1;
        resync := following < Oldest() || after.value >= next;
        assert following < Oldest() && after.value < next ==> Lost(after.value + 1, after.value, Oldest());
        if !resync {
          replay := Replay(ring, after.value, Since(handovers, agent), agent);
          ReplayIsAll(after.value, agent);
        }
      }
    }

    /** What the ring gives, with the handovers that are kept, is what all events and all handovers would give. */
    lemma {:induction false} ReplayIsAll(after: nat, agent: Option<string>)
      requires Valid() && Oldest() <= after + 1 && after < next
      ensures Sees(ring, agent, From(handovers, Some(after), agent)) == Sees(log, agent, From(handed, Some(after), agent))
    {
      FromKept(handovers, handed, Oldest(), next, after, agent);
      SeesRecent(log, first, agent, From(handed, Some(after), agent));
    }

    /** A name gets another holder. Its feeds close, and from then on a replay under it begins at the next event;
        records of handovers that could change no replay are dropped. */
    method HandOver(name: string)
      requires Valid()
      modifies this
      ensures Valid() && log == old(log) && next == old(next) && ring == old(ring)
      ensures handed == old(handed)[name := next]
      ensures feeds == CloseOf(old(feeds), name)
    {
      FeedsHanded(feeds, born, handed, next, name);
      var oldest := Oldest();
      handovers := map n | n in handovers && handovers[n] > oldest :: handovers[n];
      handovers := handovers[name := next];
      handed := handed[name := next];
      feeds := CloseOf(feeds, name);
    }

    /** A reader takes what comes next. */
    method Take(n: nat) returns (event: Option<Event>)
      requires Valid() && n < |feeds| && feeds[n].held
      modifies this`feeds
      ensures Valid()
      ensures event == if old(feeds[n]).Waiting() == [] then None else Some(old(feeds[n]).Waiting()[0])
      ensures feeds == if event.None? then old(feeds) else old(feeds)[n := old(feeds[n]).Less()]
    {
      var feed := feeds[n];
      if feed.replay != [] {
        FeedOkLess(feed, born[n], handed, next);
        event, feeds := Some(feed.replay[0]), feeds[n := feed.(replay := feed.replay[1..])];
      } else if feed.queue != [] {
        FeedOkLess(feed, born[n], handed, next);
        event, feeds := Some(feed.queue[0]), feeds[n := feed.(queue := feed.queue[1..])];
      } else {
        event := None;
      }
    }

    /** A reader goes away. */
    method Leave(n: nat)
      requires Valid() && n < |feeds|
      modifies this`feeds
      ensures Valid() && feeds == old(feeds)[n := old(feeds)[n].(held := false)]
    {
      FeedOkSame(feeds[n], feeds[n].(held := false), born[n], handed, next);
      feeds := feeds[n := feeds[n].(held := false)];
    }
  }

  // ---- readers -------------------------------------------------------------------------------

  /** A reader that connects again and again: the id it sends, if any; the feed it reads; all it has received;
      the first event it should hear of, known once it has an id or has connected; the first event it can
      still hear of; and whether it was ever told that it missed some. */
  datatype Client = Client(
    agent: Option<string>, mark: Option<nat>, feed: Option<nat>, got: seq<Event>, from: Option<nat>, base: nat, told: bool)

  /** What a reader has received and what is on its way to it, against all there was for it from its base on. */
  ghost predicate Account(c: Client, log: seq<Event>, feed: Feed)
  {
    var all := Sees(log, c.agent, c.base);
    c.got + feed.Waiting() <= all && (feed.open ==> c.got + feed.Waiting() == all)
  }

  /** A reader never told to start over, whose name has not changed hands, is owed an account. */
  ghost predicate Owed(c: Client, handed: map<string, nat>)
  {
    !c.told && Since(handed, c.agent) <= c.base
  }

  /** The reader's ids: the one it sends is that of the last event received, or the one it came with. */
  ghost predicate MarksOk(c: Client, next: nat)
  {
    && (c.mark.Some? ==> c.mark.value <= U64_MAX && c.from.Some?)
    && (c.mark.None? ==> c.got == [] && c.base <= next)
    && (c.got == [] && c.mark.Some? ==> c.mark.value + 1 == c.base)
    && (c.got != [] ==> c.mark == Some(c.got[|c.got| - 1].id))
    && (c.feed.Some? ==> c.from.Some?)
    && (c.from.Some? ==> c.from.value <= c.base)
    && ((c.feed.Some? || c.got != []) && !c.told ==> c.base <= next)
    && (c.base <= next || c.from == Some(c.base))
  }

  ghost predicate ClientOk(c: Client, log: seq<Event>, next: nat, handed: map<string, nat>, feeds: seq<Feed>)
  {
    && MarksOk(c, next)
    && (c.feed.Some? ==> c.feed.value < |feeds| && feeds[c.feed.value].agent == c.agent && feeds[c.feed.value].held)
    && (Owed(c, handed) ==>
          if c.feed.Some? then Account(c, log, feeds[c.feed.value]) else c.got <= Sees(log, c.agent, c.base))
  }

  ghost predicate Apart(clients: seq<Client>)
  {
    forall i, j :: 0 <= i < j < |clients| && clients[i].feed.Some? ==> clients[i].feed != clients[j].feed
  }

  ghost predicate Below(feeds: seq<Feed>, next: nat)
  {
    forall f, i :: 0 <= f < |feeds| && 0 <= i < |feeds[f].Waiting()| ==> feeds[f].Waiting()[i].id < next
  }

  // ---- what every deed does, with all events and all handovers at hand --------------------------

  datatype World = World(log: seq<Event>, handed: map<string, nat>, feeds: seq<Feed>, clients: seq<Client>)

  datatype Deed =
    | Emit(scope: Option<seq<string>>, json: string)
    | Rehand(name: string)
    | Connect(client: nat)
    | Receive(client: nat)
    | Disconnect(client: nat)

  /** The oldest event that could be replayed, if any is kept. */
  ghost function OldestOf(log: seq<Event>, first: nat): nat
  {
    first + |log| - |Recent(log)|
  }

  /** There is no telling what a reader that sends this id missed. */
  ghost predicate Unknown(log: seq<Event>, first: nat, mark: Option<nat>)
  {
    mark.Some? && (mark.value >= first + |log| || AnyLost(mark.value, OldestOf(log, first)))
  }

  function Published(w: World, event: Event): World
  {
    w.(log := w.log + [event], feeds := DeliveredAll(w.feeds, event))
  }

  function Rehanded(w: World, first: nat, name: string): World
  {
    w.(handed := w.handed[name := first + |w.log|], feeds := CloseOf(w.feeds, name))
  }

  /** A reader goes away. */
  function Parted(w: World, c: nat): World
    requires c < |w.clients|
  {
    var client := w.clients[c];
    if client.feed.Some? && client.feed.value < |w.feeds| then
      var n := client.feed.value;
      w.(feeds := w.feeds[n := w.feeds[n].(held := false)], clients := w.clients[c := client.(feed := None)])
    else w
  }

  /** What a reader becomes by connecting. */
  function Connected(c: Client, n: nat, resync: bool, next: nat): Client
  {
    c.(feed := Some(n), told := c.told || resync,
       from := if c.from.None? then Some(next) else c.from, base := if c.mark.None? then next else c.base)
  }

  /** The feed a reader gets: what it missed, if it says where it was and that can be told. */
  ghost function Opened(log: seq<Event>, first: nat, handed: map<string, nat>, agent: Option<string>, mark: Option<nat>): Feed
  {
    var replay := if mark.None? || Unknown(log, first, mark) then [] else Sees(log, agent, From(handed, mark, agent));
    Feed(agent, replay, [], true, true)
  }

  ghost function Joined(w: World, first: nat, c: nat): World
    requires c < |w.clients|
  {
    var client := w.clients[c];
    w.(feeds := CloseLeft(w.feeds) + [Opened(w.log, first, w.handed, client.agent, client.mark)],
       clients := w.clients[c := Connected(client, |w.feeds|, Unknown(w.log, first, client.mark), first + |w.log|)])
  }

  function Given(c: Client, event: Event): Client
  {
    c.(got := c.got + [event], mark := Some(event.id))
  }

  /** A reader takes the next event, if one is there; it goes away when its feed ended. */
  function Served(w: World, c: nat): World
    requires c < |w.clients|
  {
    var client := w.clients[c];
    if client.feed.None? || client.feed.value >= |w.feeds| then w
    else
      var n := client.feed.value;
      var feed := w.feeds[n];
      if feed.Waiting() != [] then
        w.(feeds := w.feeds[n := feed.Less()], clients := w.clients[c := Given(client, feed.Waiting()[0])])
      else if feed.open then w
      else Parted(w, c)
  }

  ghost function After(w: World, first: nat, deed: Deed): (r: World)
    ensures |r.clients| == |w.clients|
  {
    match deed
    case Emit(scope, json) => Published(w, Event(first + |w.log|, scope, json))
    case Rehand(name) => Rehanded(w, first, name)
    case Connect(c) => if c < |w.clients| then Joined(Parted(w, c), first, c) else w
    case Receive(c) => if c < |w.clients| then Served(w, c) else w
    case Disconnect(c) => if c < |w.clients| then Parted(w, c) else w
  }

  ghost function Story(w: World, first: nat, deeds: seq<Deed>): (r: World)
    ensures |r.clients| == |w.clients|
  {
    if deeds == [] then w else After(Story(w, first, deeds[..|deeds| - 1]), first, deeds[|deeds| - 1])
  }

  // ---- what every deed keeps -------------------------------------------------------------------

  ghost predicate WorldOk(w: World, first: nat)
  {
    && Numbered(w.log, first) && (forall n :: n in w.handed ==> w.handed[n] <= first + |w.log|)
    && Below(w.feeds, first + |w.log|) && Apart(w.clients)
    && forall i :: 0 <= i < |w.clients| ==> ClientOk(w.clients[i], w.log, first + |w.log|, w.handed, w.feeds)
  }

  lemma {:induction false} AccountPublished(c: Client, log: seq<Event>, feed: Feed, event: Event)
    requires Account(c, log, feed) && c.base <= event.id && feed.agent == c.agent && feed.held
    ensures Account(c, log + [event], Delivered(feed, event))
  {
    SeesOneMore(log, event, c.agent, c.base);
    var after := Delivered(feed, event);
    if feed.open && Visible(event, feed.agent) && after.open {
      assert after.Waiting() == feed.Waiting() + [event];
      assert c.got + (feed.Waiting() + [event]) == (c.got + feed.Waiting()) + [event];
    } else {
      assert after.Waiting() == feed.Waiting();
    }
  }

  lemma {:induction false} ClientPublished(c: Client, log: seq<Event>, handed: map<string, nat>, feeds: seq<Feed>, event: Event)
    requires ClientOk(c, log, event.id, handed, feeds)
    ensures ClientOk(c, log + [event], event.id + 1, handed, DeliveredAll(feeds, event))
  {
    if c.feed.Some? {
      if Owed(c, handed) {
        AccountPublished(c, log, feeds[c.feed.value], event);
      }
    } else {
      SeesOneMore(log, event, c.agent, c.base);
    }
  }

  lemma {:induction false} BelowPublished(feeds: seq<Feed>, event: Event)
    requires Below(feeds, event.id)
    ensures Below(DeliveredAll(feeds, event), event.id + 1)
  {
    var after := DeliveredAll(feeds, event);
    forall f, i | 0 <= f < |after| && 0 <= i < |after[f].Waiting()| ensures after[f].Waiting()[i].id < event.id + 1 {
      assert after[f] == Delivered(feeds[f], event);
      assert after[f].Waiting() == feeds[f].Waiting() || after[f].Waiting() == feeds[f].Waiting() + [event];
    }
  }

  lemma {:induction false} EmitOk(w: World, first: nat, scope: Option<seq<string>>, json: string)
    requires WorldOk(w, first)
    ensures WorldOk(After(w, first, Emit(scope, json)), first)
  {
    var event := Event(first + |w.log|, scope, json);
    assert After(w, first, Emit(scope, json)) == Published(w, event);
    PublishedOk(w, first, event);
  }

  lemma {:induction false} PublishedOk(w: World, first: nat, event: Event)
    requires WorldOk(w, first) && event.id == first + |w.log|
    ensures WorldOk(Published(w, event), first)
  {
    var after := Published(w, event);
    BelowPublished(w.feeds, event);
    forall i | 0 <= i < |w.clients| ensures ClientOk(w.clients[i], after.log, first + |after.log|, w.handed, after.feeds) {
      ClientPublished(w.clients[i], w.log, w.handed, w.feeds, event);
    }
  }

  /** Other feeds changed, and one that is still this reader's at most closed. */
  lemma {:induction false} ClientElsewhere(c: Client, log: seq<Event>, next: nat, handed: map<string, nat>, feeds: seq<Feed>, after: seq<Feed>)
    requires ClientOk(c, log, next, handed, feeds)
    requires c.feed.Some? ==>
               && c.feed.value < |after|
               && (after[c.feed.value] == feeds[c.feed.value] || after[c.feed.value] == feeds[c.feed.value].(open := false))
    ensures ClientOk(c, log, next, handed, after)
  {
    if c.feed.Some? {
      assert after[c.feed.value].Waiting() == feeds[c.feed.value].Waiting();
    }
  }

  lemma {:induction false} ClientHanded(c: Client, log: seq<Event>, next: nat, handed: map<string, nat>, feeds: seq<Feed>, name: string)
    requires ClientOk(c, log, next, handed, feeds) && (forall n :: n in handed ==> handed[n] <= next)
    ensures ClientOk(c, log, next, handed[name := next], CloseOf(feeds, name))
  {
    assert Owed(c, handed[name := next]) ==> Owed(c, handed);
    if c.feed.Some? {
      assert CloseOf(feeds, name)[c.feed.value].Waiting() == feeds[c.feed.value].Waiting();
    }
  }

  lemma {:induction false} RehandOk(w: World, first: nat, name: string)
    requires WorldOk(w, first)
    ensures WorldOk(After(w, first, Rehand(name)), first)
  {
    assert After(w, first, Rehand(name)) == Rehanded(w, first, name);
    RehandedOk(w, first, name);
  }

  lemma {:induction false} RehandedOk(w: World, first: nat, name: string)
    requires WorldOk(w, first)
    ensures WorldOk(Rehanded(w, first, name), first)
  {
    var after := Rehanded(w, first, name);
    forall f | 0 <= f < |w.feeds| ensures after.feeds[f].Waiting() == w.feeds[f].Waiting() {}
    forall i | 0 <= i < |w.clients| ensures ClientOk(w.clients[i], w.log, first + |w.log|, after.handed, after.feeds) {
      ClientHanded(w.clients[i], w.log, first + |w.log|, w.handed, w.feeds, name);
    }
  }

  /** A reader that is gone keeps what it received, which is the beginning of all there was. */
  lemma {:induction false} ClientLeft(c: Client, log: seq<Event>, next: nat, handed: map<string, nat>, feeds: seq<Feed>, after: seq<Feed>)
    requires ClientOk(c, log, next, handed, feeds)
    ensures ClientOk(c.(feed := None), log, next, handed, after)
  {
    if Owed(c, handed) && c.feed.Some? {
      assert c.got <= c.got + feeds[c.feed.value].Waiting();
      assert c.got <= Sees(log, c.agent, c.base);
    }
  }

  lemma {:induction false} PartedOk(w: World, first: nat, c: nat)
    requires WorldOk(w, first) && c < |w.clients|
    ensures WorldOk(Parted(w, c), first) && Parted(w, c).clients[c] == w.clients[c].(feed := None)
  {
    var after, client, next := Parted(w, c), w.clients[c], first + |w.log|;
    if client.feed.Some? {
      assert ClientOk(client, w.log, next, w.handed, w.feeds);
      forall f | 0 <= f < |w.feeds| ensures after.feeds[f].Waiting() == w.feeds[f].Waiting() {}
      forall i | 0 <= i < |w.clients| ensures ClientOk(after.clients[i], w.log, next, w.handed, after.feeds) {
        if i == c {
          ClientLeft(client, w.log, next, w.handed, w.feeds, after.feeds);
        } else {
          assert after.clients[i] == w.clients[i] && w.clients[i].feed != client.feed;
          ClientElsewhere(w.clients[i], w.log, next, w.handed, w.feeds, after.feeds);
        }
      }
      assert Apart(after.clients);
    }
  }

  lemma {:induction false} ReplayResumes(c: Client, log: seq<Event>, first: nat, handed: map<string, nat>)
    requires Numbered(log, first) && c.mark.Some? && Since(handed, c.agent) <= c.base
    requires if c.got == [] then c.mark.value + 1 == c.base else c.mark.value == c.got[|c.got| - 1].id
    requires c.got <= Sees(log, c.agent, c.base)
    ensures c.got + Sees(log, c.agent, From(handed, c.mark, c.agent)) == Sees(log, c.agent, c.base)
  {
    if c.got != [] {
      SeesInOrder(log, first, c.agent, c.base);
      SeesResumes(log, first, c.agent, c.base, c.got);
      assert c.got[|c.got| - 1] == Sees(log, c.agent, c.base)[|c.got| - 1];
    }
  }

  /** Connecting again with the last id loses nothing and repeats nothing, unless the reader is told to start over. */
  lemma {:induction false} ClientConnected(c: Client, log: seq<Event>, first: nat, handed: map<string, nat>, feeds: seq<Feed>, n: nat)
    requires Numbered(log, first) && MarksOk(c, first + |log|) && c.feed.None? && n < |feeds|
    requires Owed(c, handed) ==> c.got <= Sees(log, c.agent, c.base)
    requires feeds[n] == Opened(log, first, handed, c.agent, c.mark)
    ensures ClientOk(Connected(c, n, Unknown(log, first, c.mark), first + |log|), log, first + |log|, handed, feeds)
  {
    var after := Connected(c, n, Unknown(log, first, c.mark), first + |log|);
    if Owed(after, handed) {
      var feed := feeds[n];
      assert feed.Waiting() == feed.replay;
      if c.mark.None? {
        SeesNone(log, c.agent, after.base);
      } else {
        ReplayResumes(c, log, first, handed);
      }
      assert Account(after, log, feed);
    }
  }

  lemma {:induction false} JoinedBelow(w: World, first: nat, c: nat)
    requires WorldOk(w, first) && c < |w.clients|
    ensures Below(Joined(w, first, c).feeds, first + |w.log|)
  {
    var feeds, client := Joined(w, first, c).feeds, w.clients[c];
    SeesInOrder(w.log, first, client.agent, From(w.handed, client.mark, client.agent));
    forall f, i | 0 <= f < |feeds| && 0 <= i < |feeds[f].Waiting()| ensures feeds[f].Waiting()[i].id < first + |w.log| {
      if f < |w.feeds| {
        assert feeds[f].Waiting() == w.feeds[f].Waiting();
      } else {
        assert feeds[f].Waiting() == feeds[f].replay;
      }
    }
  }

  lemma {:induction false} JoinedOk(w: World, first: nat, c: nat)
    requires WorldOk(w, first) && c < |w.clients| && w.clients[c].feed.None?
    ensures WorldOk(Joined(w, first, c), first)
  {
    var after := Joined(w, first, c);
    JoinedBelow(w, first, c);
    forall i | 0 <= i < |w.clients|
      ensures ClientOk(after.clients[i], w.log, first + |w.log|, w.handed, after.feeds)
      ensures i != c ==> after.clients[i].feed != after.clients[c].feed && after.clients[i] == w.clients[i] {
      JoinedClient(w, first, c, i);
    }
    assert Apart(after.clients);
  }

  lemma {:induction false} JoinedClient(w: World, first: nat, c: nat, i: nat)
    requires WorldOk(w, first) && c < |w.clients| && w.clients[c].feed.None? && i < |w.clients|
    ensures var after := Joined(w, first, c);
      && ClientOk(after.clients[i], w.log, first + |w.log|, w.handed, after.feeds)
      && (i != c ==> after.clients[i].feed != after.clients[c].feed && after.clients[i] == w.clients[i])
  {
    var after := Joined(w, first, c);
    assert ClientOk(w.clients[i], w.log, first + |w.log|, w.handed, w.feeds);
    if i == c {
      ClientConnected(w.clients[c], w.log, first, w.handed, after.feeds, |w.feeds|);
    } else {
      ClientElsewhere(w.clients[i], w.log, first + |w.log|, w.handed, w.feeds, after.feeds);
    }
  }

  lemma {:induction false} ClientTook(c: Client, log: seq<Event>, next: nat, handed: map<string, nat>, feeds: seq<Feed>)
    requires ClientOk(c, log, next, handed, feeds) && c.feed.Some? && feeds[c.feed.value].Waiting() != []
    requires feeds[c.feed.value].Waiting()[0].id <= U64_MAX
    ensures var n := c.feed.value;
            ClientOk(Given(c, feeds[n].Waiting()[0]), log, next, handed, feeds[n := feeds[n].Less()])
  {
    var waiting := feeds[c.feed.value].Waiting();
    assert c.got + waiting == (c.got + [waiting[0]]) + waiting[1..];
  }

  lemma {:induction false} ServedOk(w: World, first: nat, c: nat)
    requires WorldOk(w, first) && c < |w.clients| && first + |w.log| <= U64_MAX
    ensures WorldOk(Served(w, c), first)
  {
    var after, client, next := Served(w, c), w.clients[c], first + |w.log|;
    assert ClientOk(client, w.log, next, w.handed, w.feeds);
    if client.feed.Some? {
      var feed := w.feeds[client.feed.value];
      if feed.Waiting() != [] {
        forall f, i | 0 <= f < |w.feeds| && 0 <= i < |after.feeds[f].Waiting()| ensures after.feeds[f].Waiting()[i].id < next {
          assert f == client.feed.value ==> after.feeds[f].Waiting()[i] == feed.Waiting()[i + 1];
        }
        forall i | 0 <= i < |w.clients| ensures ClientOk(after.clients[i], w.log, next, w.handed, after.feeds) {
          if i == c {
            ClientTook(client, w.log, next, w.handed, w.feeds);
          } else {
            assert w.clients[i].feed != client.feed;
            ClientElsewhere(w.clients[i], w.log, next, w.handed, w.feeds, after.feeds);
          }
        }
        assert Apart(after.clients);
      } else if !feed.open {
        PartedOk(w, first, c);
      }
    }
  }

  /** Every deed keeps every reader's account. */
  lemma {:induction false} AfterOk(w: World, first: nat, deed: Deed)
    requires WorldOk(w, first) && first + |w.log| <= U64_MAX
    ensures WorldOk(After(w, first, deed), first)
  {
    match deed
    case Emit(scope, json) => EmitOk(w, first, scope, json);
    case Rehand(name) => RehandOk(w, first, name);
    case Connect(c) => ConnectOk(w, first, c);
    case Receive(c) => ReceiveOk(w, first, c);
    case Disconnect(c) => DisconnectOk(w, first, c);
  }

  lemma {:induction false} ConnectOk(w: World, first: nat, c: nat)
    requires WorldOk(w, first)
    ensures WorldOk(After(w, first, Connect(c)), first)
  {
    if c < |w.clients| {
      PartedOk(w, first, c);
      JoinedOk(Parted(w, c), first, c);
    }
  }

  lemma {:induction false} ReceiveOk(w: World, first: nat, c: nat)
    requires WorldOk(w, first) && first + |w.log| <= U64_MAX
    ensures WorldOk(After(w, first, Receive(c)), first)
  {
    if c < |w.clients| {
      ServedOk(w, first, c);
    }
  }

  lemma {:induction false} DisconnectOk(w: World, first: nat, c: nat)
    requires WorldOk(w, first)
    ensures WorldOk(After(w, first, Disconnect(c)), first)
  {
    if c < |w.clients| {
      PartedOk(w, first, c);
    }
  }

  lemma {:induction false} StoryOk(w: World, first: nat, deeds: seq<Deed>)
    requires WorldOk(w, first) && first + |w.log| + |deeds| <= U64_MAX
    ensures WorldOk(Story(w, first, deeds), first) && |Story(w, first, deeds).log| <= |w.log| + |deeds|
  {
    if deeds != [] {
      StoryOk(w, first, deeds[..|deeds| - 1]);
      AfterOk(Story(w, first, deeds[..|deeds| - 1]), first, deeds[|deeds| - 1]);
    }
  }

  // ---- what a reader is told, and what it can miss ----------------------------------------------

  /** The reader connects with an id that leaves no telling what it missed. */
  ghost predicate TellsAt(w: World, first: nat, deeds: seq<Deed>, c: nat, k: nat)
    requires c < |w.clients| && k < |deeds|
  {
    var now := Story(w, first, deeds[..k]);
    deeds[k] == Connect(c) && Unknown(now.log, first, now.clients[c].mark)
  }

  lemma {:induction false} AfterTells(w: World, first: nat, deed: Deed, c: nat)
    requires c < |w.clients|
    ensures After(w, first, deed).clients[c].told <==>
            w.clients[c].told || (deed == Connect(c) && Unknown(w.log, first, w.clients[c].mark))
  {}

  /** A reader is told to start over exactly when it connects with an id that leaves no telling what it missed. */
  lemma {:induction false} ToldExactly(w: World, first: nat, deeds: seq<Deed>, c: nat)
    requires c < |w.clients|
    ensures Story(w, first, deeds).clients[c].told <==>
            w.clients[c].told || exists k :: 0 <= k < |deeds| && TellsAt(w, first, deeds, c, k)
  {
    if deeds != [] {
      var last := |deeds| - 1;
      var before := deeds[..last];
      ToldExactly(w, first, before, c);
      AfterTells(Story(w, first, before), first, deeds[last], c);
      forall k | 0 <= k < last ensures TellsAt(w, first, before, c, k) <==> TellsAt(w, first, deeds, c, k) {
        assert before[..k] == deeds[..k];
      }
      assert TellsAt(w, first, deeds, c, last) <==>
             deeds[last] == Connect(c) && Unknown(Story(w, first, before).log, first, Story(w, first, before).clients[c].mark);
    }
  }

  /** Something a reader should hear of, it can no longer hear of. */
  ghost predicate Misses(w: World, c: nat)
    requires c < |w.clients|
  {
    var client := w.clients[c];
    client.from.Some? && Skipped(w.log, client.agent, client.from.value, client.base)
  }

  /** Connecting makes the reader miss something: it has no id, as it received nothing, though something was
      published for it since it first connected. */
  ghost predicate Loses(w: World, c: nat)
    requires c < |w.clients|
  {
    var client := w.clients[c];
    client.mark.None? && client.from.Some? && Sees(w.log, client.agent, client.from.value) != []
  }

  ghost predicate LosesAt(w: World, first: nat, deeds: seq<Deed>, c: nat, k: nat)
    requires c < |w.clients| && k < |deeds|
  {
    deeds[k] == Connect(c) && Loses(Story(w, first, deeds[..k]), c)
  }

  /** The ids are in order, of the events and of one reader. */
  ghost predicate IdsOk(w: World, first: nat, c: nat)
    requires c < |w.clients|
  {
    Numbered(w.log, first) && MarksOk(w.clients[c], first + |w.log|)
  }

  lemma {:induction false} StoryIds(w: World, first: nat, deeds: seq<Deed>, c: nat)
    requires WorldOk(w, first) && first + |w.log| + |deeds| <= U64_MAX && c < |w.clients|
    ensures IdsOk(Story(w, first, deeds), first, c)
  {
    StoryOk(w, first, deeds);
    var after := Story(w, first, deeds);
    assert ClientOk(after.clients[c], after.log, first + |after.log|, after.handed, after.feeds);
  }

  /** Starting anew after all there is skips all there was to see. */
  lemma {:induction false} SkippedAll(log: seq<Event>, first: nat, agent: Option<string>, from: nat)
    requires Numbered(log, first)
    ensures Skipped(log, agent, from, first + |log|) <==> Sees(log, agent, from) != []
  {
    if Skipped(log, agent, from, first + |log|) {
      var i :| 0 <= i < |log| && from <= log[i].id < first + |log| && Visible(log[i], agent);
      SeesExactly(log, agent, from, log[i]);
    }
    if Sees(log, agent, from) != [] {
      var event := Sees(log, agent, from)[0];
      SeesExactly(log, agent, from, event);
      var i :| 0 <= i < |log| && log[i] == event;
      assert from <= log[i].id < first + |log| && Visible(log[i], agent);
    }
  }

  lemma {:induction false} ConnectLoses(w: World, first: nat, c: nat)
    requires c < |w.clients| && IdsOk(w, first, c)
    ensures Misses(After(w, first, Connect(c)), c) <==> Misses(w, c) || Loses(w, c)
  {
    var client, after := w.clients[c], After(w, first, Connect(c));
    assert after.log == w.log && after.clients[c].agent == client.agent;
    assert after.clients[c].from == (if client.from.None? then Some(first + |w.log|) else client.from);
    assert after.clients[c].base == (if client.mark.None? then first + |w.log| else client.base);
    if client.mark.None? && client.from.Some? {
      SkippedAll(w.log, first, client.agent, client.from.value);
    }
  }

  lemma {:induction false} AfterMisses(w: World, first: nat, deed: Deed, c: nat)
    requires c < |w.clients| && IdsOk(w, first, c)
    ensures Misses(After(w, first, deed), c) <==> Misses(w, c) || (deed == Connect(c) && Loses(w, c))
  {
    var client := w.clients[c];
    if deed == Connect(c) {
      ConnectLoses(w, first, c);
    } else {
      var after := After(w, first, deed);
      assert after.clients[c].agent == client.agent && after.clients[c].from == client.from && after.clients[c].base == client.base;
      if deed.Emit? && client.from.Some? {
        SkippedOneMore(w.log, Event(first + |w.log|, deed.scope, deed.json), client.agent, client.from.value, client.base);
      }
    }
  }

  lemma {:induction false} SkippedOneMore(log: seq<Event>, event: Event, agent: Option<string>, from: nat, base: nat)
    requires base <= event.id || from == base
    ensures Skipped(log + [event], agent, from, base) <==> Skipped(log, agent, from, base)
  {
    if Skipped(log, agent, from, base) {
      var i :| 0 <= i < |log| && from <= log[i].id < base && Visible(log[i], agent);
      assert (log + [event])[i] == log[i];
    }
  }

  /** A reader comes to miss something exactly when it reconnects without an id, having received nothing, though
      something was published for it since it first connected. */
  lemma {:induction false} MissesExactly(w: World, first: nat, deeds: seq<Deed>, c: nat)
    requires WorldOk(w, first) && first + |w.log| + |deeds| <= U64_MAX && c < |w.clients|
    ensures Misses(Story(w, first, deeds), c) <==>
            Misses(w, c) || exists k :: 0 <= k < |deeds| && LosesAt(w, first, deeds, c, k)
  {
    if deeds != [] {
      var last := |deeds| - 1;
      var before := deeds[..last];
      MissesExactly(w, first, before, c);
      StoryIds(w, first, before, c);
      AfterMisses(Story(w, first, before), first, deeds[last], c);
      LosesEarlier(w, first, deeds, c);
    }
  }

  lemma {:induction false} LosesEarlier(w: World, first: nat, deeds: seq<Deed>, c: nat)
    requires c < |w.clients| && deeds != []
    ensures var last := |deeds| - 1;
      && (forall k :: 0 <= k < last ==> (LosesAt(w, first, deeds[..last], c, k) <==> LosesAt(w, first, deeds, c, k)))
      && (LosesAt(w, first, deeds, c, last) <==> deeds[last] == Connect(c) && Loses(Story(w, first, deeds[..last]), c))
  {
    var last := |deeds| - 1;
    forall k | 0 <= k < last ensures LosesAt(w, first, deeds[..last], c, k) <==> LosesAt(w, first, deeds, c, k) {
      assert deeds[..last][..k] == deeds[..k];
    }
  }

  /** What a reader that is owed an account has received: the events it may see from its base on, each once and in
      order, up to the last it received; and when it is connected with nothing on the way, all of them. That is
      all since it first connected, or since its id, unless it came to miss something. */
  lemma {:induction false} Heard(w: World, first: nat, c: nat)
    requires WorldOk(w, first) && c < |w.clients| && Owed(w.clients[c], w.handed)
    ensures var client := w.clients[c];
            && client.got <= Sees(w.log, client.agent, client.base)
            && (client.feed.Some? && w.feeds[client.feed.value].open && w.feeds[client.feed.value].Waiting() == [] ==>
                  && client.got == Sees(w.log, client.agent, client.base)
                  && (client.got == Sees(w.log, client.agent, client.from.value) <==> !Misses(w, c)))
  {
    var client := w.clients[c];
    assert ClientOk(client, w.log, first + |w.log|, w.handed, w.feeds);
    if client.feed.Some? {
      assert client.got <= client.got + w.feeds[client.feed.value].Waiting();
      if w.feeds[client.feed.value].Waiting() == [] {
        assert client.got + [] == client.got;
      }
      SkippedShows(w.log, client.agent, client.from.value, client.base);
    }
  }

  lemma {:induction false} BaseRises(w: World, first: nat, deeds: seq<Deed>, c: nat)
    requires WorldOk(w, first) && first + |w.log| + |deeds| <= U64_MAX && c < |w.clients|
    ensures Story(w, first, deeds).clients[c].base >= w.clients[c].base
    ensures Story(w, first, deeds).clients[c].agent == w.clients[c].agent
  {
    if deeds != [] {
      BaseRises(w, first, deeds[..|deeds| - 1], c);
      StoryIds(w, first, deeds[..|deeds| - 1], c);
      AfterBase(Story(w, first, deeds[..|deeds| - 1]), first, deeds[|deeds| - 1], c);
    }
  }

  lemma {:induction false} AfterBase(w: World, first: nat, deed: Deed, c: nat)
    requires c < |w.clients| && IdsOk(w, first, c)
    ensures var after := After(w, first, deed).clients[c];
            after.base >= w.clients[c].base && after.agent == w.clients[c].agent
  {}

  /** What is before a reader's base it never receives, whatever comes, unless it is told to start over or its name
      changes hands. */
  lemma {:induction false} NeverHeard(w: World, first: nat, deeds: seq<Deed>, c: nat, event: Event)
    requires WorldOk(w, first) && first + |w.log| + |deeds| <= U64_MAX && c < |w.clients|
    requires event.id < w.clients[c].base
    ensures var later := Story(w, first, deeds);
            Owed(later.clients[c], later.handed) ==> event !in later.clients[c].got
  {
    var later := Story(w, first, deeds);
    var client := later.clients[c];
    if Owed(client, later.handed) {
      StoryOk(w, first, deeds);
      BaseRises(w, first, deeds, c);
      Heard(later, first, c);
      SeesExactly(later.log, client.agent, client.base, event);
    }
  }

  // ---- the readers and the server ---------------------------------------------------------------

  /** Readers that may have heard from this server, or another, before. */
  function Fresh(agents: seq<(Option<string>, Option<nat>)>): (r: seq<Client>)
    ensures |r| == |agents|
  {
    seq(|agents|, i requires 0 <= i < |agents| =>
      var (agent, mark) := agents[i];
      if mark.None? then Client(agent, None, None, [], None, 0, false)
      else Client(agent, mark, None, [], Some(mark.value + 1), mark.value + 1, false))
  }

  class Run {
    const events: Events
    var clients: seq<Client>

    constructor (events: Events, agents: seq<(Option<string>, Option<nat>)>)
      requires events.Valid() && events.feeds == []
      requires forall i :: 0 <= i < |agents| && agents[i].1.Some? ==> agents[i].1.value <= U64_MAX
      ensures Valid() && this.events == events && clients == Fresh(agents)
      ensures |clients| == |agents| && forall i :: 0 <= i < |agents| ==>
                && clients[i].agent == agents[i].0 && clients[i].mark == agents[i].1
                && clients[i].feed.None? && clients[i].got == [] && !clients[i].told
                && (if clients[i].mark.None? then clients[i].from.None? && clients[i].base == 0
                    else clients[i].from == Some(clients[i].base) && clients[i].base == clients[i].mark.value + 1)
    {
      this.events := events;
      clients := Fresh(agents);
    }

    ghost function Now(): World
      reads this, events
    {
      World(events.log, events.handed, events.feeds, clients)
    }

    ghost predicate Valid()
      reads this, events
    {
      events.Valid() && WorldOk(Now(), events.first)
    }

    /** A reader goes away. */
    method Part(c: nat)
      requires events.Valid() && c < |clients| && (clients[c].feed.Some? ==> clients[c].feed.value < |events.feeds|)
      modifies this`clients, events
      ensures events.Valid() && Now() == Parted(old(Now()), c)
    {
      if clients[c].feed.Some? {
        events.Leave(clients[c].feed.value);
        clients := clients[c := clients[c].(feed := None)];
      }
    }

    /** A reader connects, or connects again, with the id of the last event it received. */
    method Join(c: nat)
      requires Valid() && c < |clients| && events.next <= U64_MAX
      modifies this`clients, events
      ensures events.Valid() && Now() == After(old(Now()), events.first, Connect(c))
    {
      assert ClientOk(clients[c], events.log, events.next, events.handed, events.feeds);
      Part(c);
      Open(c);
    }

    method Open(c: nat)
      requires events.Valid() && c < |clients| && events.next <= U64_MAX
      requires clients[c].mark.Some? ==> clients[c].mark.value <= U64_MAX
      modifies this`clients, events
      ensures events.Valid() && Now() == Joined(old(Now()), events.first, c)
    {
      var n, resync := events.Subscribe(clients[c].mark, clients[c].agent);
      clients := clients[c := Connected(clients[c], n, resync, events.next)];
    }

    /** A reader takes the next event, if one is there; it goes away when its feed ended. */
    method Serve(c: nat)
      requires Valid() && c < |clients|
      modifies this`clients, events
      ensures events.Valid() && Now() == After(old(Now()), events.first, Receive(c))
    {
      var client := clients[c];
      assert ClientOk(client, events.log, events.next, events.handed, events.feeds);
      if client.feed.None? {
        return;
      }
      var event := events.Take(client.feed.value);
      if event.Some? {
        clients := clients[c := Given(client, event.value)];
      } else if !events.feeds[client.feed.value].open {
        Part(c);
      }
    }

    method Do(deed: Deed)
      requires Valid() && events.next <= U64_MAX
      modifies this`clients, events
      ensures events.Valid() && Now() == After(old(Now()), events.first, deed)
    {
      match deed
      case Emit(scope, json) => events.Publish(scope, json);
      case Rehand(name) => events.HandOver(name);
      case Connect(c) => if c < |clients| { Join(c); }
      case Receive(c) => if c < |clients| { Serve(c); }
      case Disconnect(c) => if c < |clients| {
        assert ClientOk(clients[c], events.log, events.next, events.handed, events.feeds);
        Part(c);
      }
    }

    method Step(deed: Deed)
      requires Valid() && events.next <= U64_MAX
      modifies this`clients, events
      ensures Valid() && Now() == After(old(Now()), events.first, deed) && events.next <= old(events.next) + 1
    {
      AfterOk(Now(), events.first, deed);
      Do(deed);
    }

    /** Any run of events, handovers, connections that come and go, and readers that take their time: the ring and
        the handovers kept do what all events and all handovers would, and every reader's account is kept. */
    method Play(deeds: seq<Deed>)
      requires Valid() && events.next + |deeds| <= U64_MAX
      modifies this`clients, events
      ensures Valid() && Now() == Story(old(Now()), events.first, deeds)
    {
      assert deeds[..0] == [];
      for k := 0 to |deeds|
        invariant Valid() && Now() == Story(old(Now()), events.first, deeds[..k])
        invariant events.next <= old(events.next) + k
      {
        assert deeds[..k + 1][..k] == deeds[..k];
        Step(deeds[k]);
      }
      assert deeds[..|deeds|] == deeds;
    }
  }

  /** A reader connects, goes away before anything comes, and connects again after an event for everyone: it is
      connected, has received nothing, nothing is on its way, and it was never told that it missed anything. */
  method ReaderCanMiss(seed: nat, json: string) returns (run: Run, event: Event)
    requires seed + 4 <= U64_MAX
    ensures fresh(run) && run.Valid() && run.events.first == seed && |run.clients| == 1 && run.events.log == [event]
    ensures var reader := run.clients[0];
            && reader.from == Some(seed) && Sees([event], reader.agent, seed) == [event]
            && !reader.told && reader.got == [] && event.id < reader.base
            && reader.feed.Some? && run.events.feeds[reader.feed.value] == Feed(reader.agent, [], [], true, true)
  {
    event := Event(seed, None, json);
    var events := new Events(seed);
    run := new Run(events, [(None, None)]);
    ghost var start := run.Now();
    var deeds := [Connect(0), Disconnect(0), Emit(None, json), Connect(0)];
    run.Play(deeds);
    StoryOfMiss(start, seed, json);
  }

  lemma {:induction false} StoryOfMiss(w: World, seed: nat, json: string)
    requires w == World([], map[], [], [Client(None, None, None, [], None, 0, false)])
    ensures var after := Story(w, seed, [Connect(0), Disconnect(0), Emit(None, json), Connect(0)]);
            && after.log == [Event(seed, None, json)] && Sees(after.log, None, seed) == after.log
            && |after.clients| == 1 && after.feeds != [] && after.feeds[|after.feeds| - 1] == Feed(None, [], [], true, true)
            && after.clients[0] == Client(None, None, Some(|after.feeds| - 1), [], Some(seed), seed + 1, false)
  {
    var deeds := [Connect(0), Disconnect(0), Emit(None, json), Connect(0)];
    assert deeds[..3] == [Connect(0), Disconnect(0), Emit(None, json)];
    assert deeds[..3][..2] == [Connect(0), Disconnect(0)];
    assert deeds[..3][..2][..1] == [Connect(0)];
    var joined := After(w, seed, Connect(0));
    assert joined == Story(w, seed, [Connect(0)]);
    var parted := After(joined, seed, Disconnect(0));
    assert parted == Story(w, seed, [Connect(0), Disconnect(0)]);
    var told := After(parted, seed, Emit(None, json));
    assert told == Story(w, seed, deeds[..3]);
    assert told.log == [Event(seed, None, json)];
    SeesOneMore([], Event(seed, None, json), None, seed);
    assert [] + told.log == told.log;
  }
}
