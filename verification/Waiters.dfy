/**
 Requests that wait for something to change.

 A request that finds nothing registers the topics it waits for and sleeps, in one hold of the
 lock; whoever changes something wakes those that wait for it before it lets go of the lock.
 `Waiters` is the index of who waits for what, and `Room` the protocol around it, in which no
 wake-up is lost: a request asleep has had nothing it waits for change since it last looked.
 */
module Waiting {
  import opened Common

  datatype Topic = Inbox(name: string) | Chat(name: string) | Key(key: string)

  /** Where the thread of a waiting request is: asleep on its condition variable, notified or timed out
      and on its way to the lock, or holding the lock. */
  datatype Signal = Asleep | Roused | Running

  function Notified(signal: Signal): Signal
  {
    if signal == Asleep then Roused else signal
  }

  /** The index holds exactly the registrations, the other way round, and no topic nobody waits for. */
  ghost predicate Inverse(byTopic: map<Topic, set<nat>>, topics: map<nat, seq<Topic>>)
  {
    && (forall t, id :: t in byTopic && id in byTopic[t] ==> id in topics && t in topics[id])
    && (forall id, t :: id in topics && t in topics[id] ==> t in byTopic && id in byTopic[t])
    && (forall t :: t in byTopic ==> byTopic[t] != {})
  }

  /** `index` is `byTopic` with `id` under each of its topics. */
  ghost predicate Listed(byTopic: map<Topic, set<nat>>, wanted: seq<Topic>, id: nat, index: map<Topic, set<nat>>)
  {
    && (forall t :: t in index <==> t in byTopic || t in wanted)
    && (forall t :: t in index ==> index[t] == (if t in byTopic then byTopic[t] else {}) + if t in wanted then {id} else {})
  }

  lemma {:induction false} ListedInverse(
      byTopic: map<Topic, set<nat>>, topics: map<nat, seq<Topic>>, wanted: seq<Topic>, id: nat, index: map<Topic, set<nat>>)
    requires Inverse(byTopic, topics) && id !in topics && Listed(byTopic, wanted, id, index)
    ensures Inverse(index, topics[id := wanted])
  {
    forall t | t in index ensures index[t] != {} {
      if t in wanted {
        assert id in index[t];
      }
    }
  }

  class Waiters {
    var next: nat
    var signals: map<nat, Signal>
    var byTopic: map<Topic, set<nat>>
    /** What each waiting request registered. */
    ghost var topics: map<nat, seq<Topic>>

    constructor ()
      ensures Valid() && signals == map[] && byTopic == map[] && topics == map[]
    {
      next, signals, byTopic, topics := 0, map[], map[], map[];
    }

    ghost predicate Valid()
      reads this
    {
      && signals.Keys == topics.Keys
      && (forall id :: id in signals ==> id < next)
      && Inverse(byTopic, topics)
    }

    /** Registers a request for its topics, which may repeat. */
    method Add(wanted: seq<Topic>) returns (id: nat)
      requires Valid()
      modifies this
      ensures Valid() && id !in old(signals) && id == old(next) && next == id + 1
      ensures topics == old(topics)[id := wanted] && signals == old(signals)[id := Running]
    {
      id := next;
      next := next + 1;
      signals := signals[id := Running];
      Enlist(id, wanted);
      topics := topics[id := wanted];
    }

    /** Puts a request's id under each of its topics. */
    method Enlist(id: nat, wanted: seq<Topic>)
      requires Inverse(byTopic, topics) && id !in topics
      modifies this`byTopic
      ensures Inverse(byTopic, topics[id := wanted])
    {
      var index := byTopic;
      for i := 0 to |wanted|
        invariant Listed(byTopic, wanted[..i], id, index)
      {
        var ids := if wanted[i] in index then index[wanted[i]] else {};
        assert wanted[..i + 1] == wanted[..i] + [wanted[i]];
        index := index[wanted[i] := ids + {id}];
      }
      assert wanted[..|wanted|] == wanted;
      ListedInverse(byTopic, topics, wanted, id, index);
      byTopic := index;
    }

    /** Forgets a request, given the topics it registered. */
    method Remove(id: nat, wanted: seq<Topic>)
      requires Valid() && id in topics && topics[id] == wanted
      modifies this
      ensures Valid() && next == old(next)
      ensures topics == old(topics) - {id} && signals == old(signals) - {id}
    {
      signals := signals - {id};
      var index := byTopic;
      for i := 0 to |wanted|
        invariant forall t :: t in index ==> t in byTopic && index[t] != {}
        invariant forall t :: t in index ==> index[t] == byTopic[t] - if t in wanted[..i] then {id} else {}
        invariant forall t :: t in byTopic && t !in index ==> t in wanted[..i] && byTopic[t] == {id}
      {
        var topic := wanted[i];
        assert wanted[..i + 1] == wanted[..i] + [topic];
        if topic in index {
          var ids := index[topic] - {id};
          index := if ids == {} then index - {topic} else index[topic := ids];
        }
      }
      assert wanted[..|wanted|] == wanted;
      byTopic := index;
      topics := topics - {id};
    }

    /** Wakes the requests that wait for any of the topics, and no other. */
    method Wake(changed: seq<Topic>)
      requires Valid()
      modifies this`signals
      ensures Valid() && signals.Keys == old(signals).Keys
      ensures forall id :: id in signals ==>
                signals[id] == if Waits(topics[id], changed) then Notified(old(signals)[id]) else old(signals)[id]
    {
      for i := 0 to |changed|
        invariant signals.Keys == old(signals).Keys
        invariant forall id :: id in signals ==>
                    signals[id] == if Waits(topics[id], changed[..i]) then Notified(old(signals)[id]) else old(signals)[id]
      {
        assert changed[..i + 1] == changed[..i] + [changed[i]];
        WakeOne(changed[i]);
      }
      assert changed[..|changed|] == changed;
    }

    /** Wakes the requests that wait for one topic. */
    method WakeOne(topic: Topic)
      requires Valid()
      modifies this`signals
      ensures Valid() && signals.Keys == old(signals).Keys
      ensures forall id :: id in signals ==>
                signals[id] == if topic in topics[id] then Notified(old(signals)[id]) else old(signals)[id]
    {
      var ids := if topic in byTopic then byTopic[topic] else {};
      signals := map id | id in signals :: if id in ids then Notified(signals[id]) else signals[id];
    }

    /** Sets where a request's thread is. */
    method Set(id: nat, signal: Signal)
      requires Valid() && id in signals
      modifies this`signals
      ensures Valid() && signals == old(signals)[id := signal]
    {
      signals := signals[id := signal];
    }

    /** Whether some request waits for a key. */
    predicate KeysAwaited()
      reads this
    {
      exists t :: t in byTopic && t.Key?
    }
  }

  /** One of the changed topics is one of those wanted. */
  ghost predicate Waits(wanted: seq<Topic>, changed: seq<Topic>)
  {
    exists t :: t in wanted && t in changed
  }

  // ---- changes ---------------------------------------------------------------------------------

  /** What an operation changes: the keys a command writes, all keys at once, or what waits in an
      inbox or a room. A command says which keys it wrote only when asked to. */
  datatype Change = Written(keys: seq<string>) | Flushed(keys: seq<string>) | Posted(topic: Topic)

  ghost predicate Concerns(change: Change, topic: Topic)
  {
    match change
    case Written(keys) => topic.Key? && topic.key in keys
    case Flushed(keys) => topic.Key?
    case Posted(posted) => topic == posted
  }

  /** A change to something a request waits for. */
  ghost predicate Touches(change: Change, wanted: seq<Topic>)
  {
    exists t :: t in wanted && Concerns(change, t)
  }

  /** One subscriber: whether its filter lets key changes through, and whether it is still there. */
  datatype Subscription = Subscription(keys: bool, alive: bool)

  /** Some change since `seen` is to something wanted. */
  ghost predicate Missed(log: seq<Change>, seen: nat, wanted: seq<Topic>)
  {
    exists k :: seen <= k < |log| && Touches(log[k], wanted)
  }

  lemma {:induction false} MissedOneMore(log: seq<Change>, change: Change, seen: nat, wanted: seq<Topic>)
    requires Missed(log + [change], seen, wanted)
    ensures Missed(log, seen, wanted) || Touches(change, wanted)
  {
    var k :| seen <= k < |log + [change]| && Touches((log + [change])[k], wanted);
    if k < |log| {
      assert Touches(log[k], wanted);
    }
  }

  lemma {:induction false} WaitsMore(wanted: seq<Topic>, before: seq<Topic>, wake: seq<Topic>, change: Change)
    requires forall t :: t in wanted ==> (t in wake <==> t in before || Concerns(change, t))
    ensures Waits(wanted, wake) <==> Waits(wanted, before) || Touches(change, wanted)
  {
    if Waits(wanted, before) {
      var t :| t in wanted && t in before;
      assert t in wake;
    }
    if Touches(change, wanted) {
      var t :| t in wanted && Concerns(change, t);
      assert t in wake;
    }
  }

  /** One of the changes is to something wanted. */
  ghost predicate TouchedBy(changes: seq<Change>, wanted: seq<Topic>)
  {
    exists i :: 0 <= i < |changes| && Touches(changes[i], wanted)
  }

  lemma {:induction false} TouchedOneMore(changes: seq<Change>, i: nat, wanted: seq<Topic>)
    requires i < |changes|
    ensures TouchedBy(changes[..i + 1], wanted) <==> TouchedBy(changes[..i], wanted) || Touches(changes[i], wanted)
  {
    if TouchedBy(changes[..i], wanted) {
      var k :| 0 <= k < i && Touches(changes[..i][k], wanted);
      assert changes[..i + 1][k] == changes[k];
    }
    assert changes[..i + 1][i] == changes[i];
  }

  // ---- what every step does, woken directly ----------------------------------------------------

  /** A step that a thread takes while it holds the lock. */
  datatype Step =
    | Operation(changes: seq<Change>)
    | Wait(topics: seq<Topic>, changes: seq<Change>, found: bool, mayWait: bool)
    | Rouse(id: nat)
    | Look(id: nat, alive: bool, changes: seq<Change>, found: bool, late: bool)
    | Come(subscription: Subscription)
    | Go(i: nat)

  /** All that changed; and of each waiting request its topics, where its thread is, and how much had changed
      when it last looked. */
  datatype Hall = Hall(
    log: seq<Change>, next: nat, topics: map<nat, seq<Topic>>, signals: map<nat, Signal>, seen: map<nat, nat>,
    subscriptions: seq<Subscription>)

  /** Whoever waits for something that changes is woken, and nobody else. */
  ghost function Woken(signals: map<nat, Signal>, topics: map<nat, seq<Topic>>, changes: seq<Change>): map<nat, Signal>
    requires signals.Keys == topics.Keys
  {
    map id | id in signals :: if TouchedBy(changes, topics[id]) then Notified(signals[id]) else signals[id]
  }

  ghost function Changed(h: Hall, changes: seq<Change>): (r: Hall)
    requires h.signals.Keys == h.topics.Keys
    ensures r.signals.Keys == r.topics.Keys
  {
    h.(log := h.log + changes, signals := Woken(h.signals, h.topics, changes))
  }

  function Slept(h: Hall, id: nat): Hall
  {
    h.(signals := h.signals[id := Asleep], seen := h.seen[id := |h.log|])
  }

  function Gone(h: Hall, id: nat): Hall
  {
    h.(topics := h.topics - {id}, signals := h.signals - {id}, seen := h.seen - {id})
  }

  ghost function Looked(h: Hall, id: nat, alive: bool, changes: seq<Change>, again: bool): (r: Hall)
    requires h.signals.Keys == h.topics.Keys && id in h.signals
    ensures r.signals.Keys == r.topics.Keys
  {
    var up := h.(signals := h.signals[id := Running]);
    if !alive then Gone(up, id)
    else
      var after := Changed(up, changes);
      if again then Slept(after, id) else Gone(after, id)
  }

  ghost function After(h: Hall, step: Step): (r: Hall)
    requires h.signals.Keys == h.topics.Keys
    ensures r.signals.Keys == r.topics.Keys
  {
    match step
    case Operation(changes) => Changed(h, changes)
    case Wait(topics, changes, found, mayWait) =>
      var after := Changed(h, changes);
      if found || !mayWait then after
      else Slept(after.(next := h.next + 1, topics := after.topics[h.next := topics]), h.next)
    case Rouse(id) => if id in h.signals then h.(signals := h.signals[id := Roused]) else h
    case Look(id, alive, changes, found, late) =>
      if id in h.signals && h.signals[id] == Roused then Looked(h, id, alive, changes, !found && !late) else h
    case Come(subscription) => h.(subscriptions := h.subscriptions + [subscription])
    case Go(i) =>
      if i < |h.subscriptions| then h.(subscriptions := h.subscriptions[i := h.subscriptions[i].(alive := false)]) else h
  }

  ghost function Story(h: Hall, steps: seq<Step>): (r: Hall)
    requires h.signals.Keys == h.topics.Keys
    ensures r.signals.Keys == r.topics.Keys
  {
    if steps == [] then h else After(Story(h, steps[..|steps| - 1]), steps[|steps| - 1])
  }

  /** A change posts to one of the topics, writes a key among them, or writes all keys when there is one. */
  predicate Reaches(change: Change, topics: seq<Topic>)
  {
    || (change.Posted? && change.topic in topics)
    || (change.Written? && exists key :: key in change.keys && Key(key) in topics)
    || (change.Flushed? && exists topic :: topic in topics && topic.Key?)
  }

  /** An operation wakes exactly the requests asleep that wait for what it posts to, for a key it writes, or for any key
      when it writes all. */
  lemma {:induction false} WakesExactly(h: Hall, changes: seq<Change>, id: nat)
    requires h.signals.Keys == h.topics.Keys && id in h.signals
    ensures var concerned := exists i :: 0 <= i < |changes| && Reaches(changes[i], h.topics[id]);
            After(h, Operation(changes)).signals[id] == if concerned && h.signals[id] == Asleep then Roused else h.signals[id]
  {
    forall i | 0 <= i < |changes|
      ensures Touches(changes[i], h.topics[id]) <==> Reaches(changes[i], h.topics[id])
    {
      TouchesExactly(changes[i], h.topics[id]);
    }
  }

  lemma {:induction false} TouchesExactly(change: Change, topics: seq<Topic>)
    ensures Touches(change, topics) <==> Reaches(change, topics)
  {
    if Touches(change, topics) {
      var t :| t in topics && Concerns(change, t);
      assert change.Written? ==> Key(t.key) == t;
    }
    if change.Posted? && change.topic in topics {
      assert Concerns(change, change.topic);
    }
    if change.Written? && exists key :: key in change.keys && Key(key) in topics {
      var key :| key in change.keys && Key(key) in topics;
      assert Concerns(change, Key(key));
    }
    if change.Flushed? && exists topic :: topic in topics && topic.Key? {
      var topic :| topic in topics && topic.Key?;
      assert Concerns(change, topic);
    }
  }

  // ---- the protocol -------------------------------------------------------------------------------

  /** What the lock protects. */
  class Room {
    const waiters: Waiters
    var wake: seq<Topic>
    var subscriptions: seq<Subscription>
    /** The topics that each waiting thread keeps for itself. */
    var wanted: map<nat, seq<Topic>>
    /** All that has changed, and how much of it had when each request last looked. */
    ghost var log: seq<Change>
    ghost var seen: map<nat, nat>

    constructor ()
      ensures Valid() && fresh(waiters) && wake == [] && log == []
    {
      waiters := new Waiters();
      wake, subscriptions, wanted, log, seen := [], [], map[], [], map[];
    }

    ghost function Now(): Hall
      reads this, waiters
    {
      Hall(log, waiters.next, waiters.topics, waiters.signals, seen, subscriptions)
    }

    /** While the lock is held: a request asleep that missed a change is about to be woken. */
    ghost predicate Held()
      reads this, waiters
    {
      && waiters.Valid() && seen.Keys == waiters.signals.Keys && wanted == waiters.topics
      && (forall id :: id in seen ==> seen[id] <= |log|)
      && (forall id :: id in seen && waiters.signals[id] == Asleep && Missed(log, seen[id], waiters.topics[id]) ==>
            Waits(waiters.topics[id], wake))
    }

    /** While it is not: nothing is left to wake, and no request asleep missed a change. */
    ghost predicate Valid()
      reads this, waiters
    {
      && Held() && wake == []
      && (forall id :: id in seen ==> waiters.signals[id] != Running)
    }

    /** No wake-up is lost: nothing a request asleep waits for has changed since it last looked. */
    lemma {:induction false} NoneLost(id: nat, k: nat, topic: Topic)
      requires Valid() && id in seen && waiters.signals[id] == Asleep
      requires seen[id] <= k < |log| && topic in waiters.topics[id]
      ensures log[k] != Posted(topic)
      ensures topic.Key? ==> !log[k].Flushed? && (log[k].Written? ==> topic.key !in log[k].keys)
    {
      assert !Missed(log, seen[id], waiters.topics[id]);
      assert !Touches(log[k], waiters.topics[id]);
      assert !Concerns(log[k], topic);
    }

    /** Whether commands are asked which keys they wrote: someone waits for a key, or may hear of one. */
    predicate Asked()
      reads this, waiters
    {
      waiters.KeysAwaited() || exists i :: 0 <= i < |subscriptions| && subscriptions[i].keys && subscriptions[i].alive
    }

    /** The keys an operation reports: a command not asked reports none. */
    function Reported(change: Change): seq<string>
      reads this, waiters
    {
      if change.Posted? || !Asked() then [] else change.keys
    }

    /** Whoever waits for a key, or is there to hear of keys, makes commands report those they wrote. */
    lemma {:induction false} ReportsExactly(change: Change)
      requires waiters.Valid() && !change.Posted?
      ensures var heard := || (exists id, t :: id in waiters.topics && t in waiters.topics[id] && t.Key?)
                           || (exists subscription :: subscription in subscriptions && subscription.keys && subscription.alive);
              Reported(change) == if heard then change.keys else []
    {
      if waiters.KeysAwaited() {
        var t :| t in waiters.byTopic && t.Key?;
        var id :| id in waiters.byTopic[t];
        assert id in waiters.topics && t in waiters.topics[id];
      }
      if exists subscription :: subscription in subscriptions && subscription.keys && subscription.alive {
        var subscription :| subscription in subscriptions && subscription.keys && subscription.alive;
        var i :| 0 <= i < |subscriptions| && subscriptions[i] == subscription;
        assert subscriptions[i].keys && subscriptions[i].alive;
      }
    }

    /** The keys that requests wait for. */
    method AwaitedKeys() returns (keys: seq<Topic>)
      requires waiters.Valid()
      ensures forall t :: t in keys <==> t in waiters.byTopic && t.Key?
    {
      keys := [];
      var rest := set t | t in waiters.byTopic && t.Key?;
      while rest != {}
        invariant forall t :: t in keys || t in rest <==> t in waiters.byTopic && t.Key?
        decreases |rest|
      {
        var t :| t in rest;
        keys, rest := keys + [t], rest - {t};
      }
    }

    /** Does what a request asks under the lock, and notes who is to be woken. */
    method Perform(change: Change)
      requires Held()
      modifies this`wake, this`log
      ensures Held() && log == old(log) + [change]
      ensures forall id :: id in seen ==>
                (Waits(waiters.topics[id], wake) <==> Waits(waiters.topics[id], old(wake)) || Touches(change, waiters.topics[id]))
    {
      Note(change);
      forall id | id in seen && waiters.signals[id] == Asleep && Missed(log + [change], seen[id], waiters.topics[id])
        ensures Waits(waiters.topics[id], wake)
      {
        MissedOneMore(log, change, seen[id], waiters.topics[id]);
      }
      log := log + [change];
    }

    /** Notes the topics of a change that someone waits for. */
    method Note(change: Change)
      requires waiters.Valid() && seen.Keys == waiters.signals.Keys
      modifies this`wake
      ensures forall id :: id in seen ==>
                (Waits(waiters.topics[id], wake) <==> Waits(waiters.topics[id], old(wake)) || Touches(change, waiters.topics[id]))
    {
      ghost var before := wake;
      if change.Flushed? {
        var keys := AwaitedKeys();
        wake := wake + keys;
      }
      if change.Posted? {
        wake := wake + [change.topic];
      } else if waiters.byTopic != map[] {
        var reported := Reported(change);
        var topics := seq(|reported|, i requires 0 <= i < |reported| => Key(reported[i]));
        assert forall i :: 0 <= i < |reported| ==> topics[i] == Key(reported[i]);
        wake := wake + topics;
      }
      forall id, t | id in seen && t in waiters.topics[id] ensures t in wake <==> t in before || Concerns(change, t) {
        assert t in waiters.byTopic;
        if change.Written? && Concerns(change, t) {
          assert waiters.KeysAwaited();
          var i :| 0 <= i < |change.keys| && change.keys[i] == t.key;
        }
      }
      forall id | id in seen
        ensures Waits(waiters.topics[id], wake) <==> Waits(waiters.topics[id], before) || Touches(change, waiters.topics[id]) {
        WaitsMore(waiters.topics[id], before, wake, change);
      }
    }

    method PerformAll(changes: seq<Change>)
      requires Held()
      modifies this`wake, this`log
      ensures Held() && log == old(log) + changes
      ensures forall id :: id in seen ==>
                (Waits(waiters.topics[id], wake) <==> Waits(waiters.topics[id], old(wake)) || TouchedBy(changes, waiters.topics[id]))
    {
      for i := 0 to |changes|
        invariant Held() && log == old(log) + changes[..i]
        invariant forall id :: id in seen ==>
                    (Waits(waiters.topics[id], wake) <==> Waits(waiters.topics[id], old(wake)) || TouchedBy(changes[..i], waiters.topics[id]))
      {
        Perform(changes[i]);
        assert changes[..i + 1] == changes[..i] + [changes[i]];
        forall id | id in seen
          ensures TouchedBy(changes[..i + 1], waiters.topics[id]) <==>
                  TouchedBy(changes[..i], waiters.topics[id]) || Touches(changes[i], waiters.topics[id]) {
          TouchedOneMore(changes, i, waiters.topics[id]);
        }
      }
      assert changes[..|changes|] == changes;
    }

    /** Wakes who is to be woken, before the lock is let go of. */
    method Settle()
      requires Held()
      modifies this`wake, waiters`signals
      ensures Held() && wake == [] && waiters.signals.Keys == old(waiters.signals).Keys
      ensures forall id :: id in waiters.signals ==>
                waiters.signals[id] ==
                if Waits(waiters.topics[id], old(wake)) then Notified(old(waiters.signals)[id]) else old(waiters.signals)[id]
    {
      var changed := wake;
      wake := [];
      waiters.Wake(changed);
    }

    /** Makes changes, and wakes whoever waits for any of them before the lock is let go of. */
    method Change(changes: seq<Change>)
      requires Held() && wake == []
      modifies this`wake, this`log, waiters`signals
      ensures Held() && wake == [] && Now() == Changed(old(Now()), changes)
    {
      PerformAll(changes);
      Settle();
      assert waiters.signals == Woken(old(waiters.signals), waiters.topics, changes);
    }

    // ---- what happens in one hold of the lock ----------------------------------------------------

    /** Any operation that does not wait. */
    method Run(changes: seq<Change>)
      requires Valid()
      modifies this, waiters
      ensures Valid() && Now() == After(old(Now()), Operation(changes))
    {
      Change(changes);
    }

    /** A request that may wait: it looks once, and if it finds nothing and may wait, it registers and
        sleeps before anything else can change. */
    method Begin(topics: seq<Topic>, changes: seq<Change>, found: bool, mayWait: bool) returns (id: Option<nat>)
      requires Valid()
      modifies this, waiters
      ensures Valid() && (id.Some? <==> !found && mayWait) && Now() == After(old(Now()), Wait(topics, changes, found, mayWait))
      ensures id.Some? ==> id.value in seen && waiters.topics[id.value] == topics && waiters.signals[id.value] == Asleep
    {
      Change(changes);
      if found || !mayWait {
        return None;
      }
      var n := Enroll(topics);
      id := Some(n);
    }

    /** Registers a request for its topics, and it sleeps. */
    method Enroll(topics: seq<Topic>) returns (id: nat)
      requires Valid()
      modifies this`wanted, this`seen, waiters
      ensures Valid() && id == old(waiters.next) && id in seen
      ensures Now() == Slept(old(Now()).(next := id + 1, topics := old(waiters.topics)[id := topics]), id)
    {
      id := Register(topics);
      Sleep(id);
    }

    method Register(topics: seq<Topic>) returns (id: nat)
      requires Valid()
      modifies this`wanted, this`seen, waiters
      ensures Alone(id) && id == old(waiters.next)
      ensures Now() == old(Now()).(next := id + 1, topics := old(waiters.topics)[id := topics],
                                   signals := old(waiters.signals)[id := Running], seen := old(seen)[id := |log|])
    {
      id := waiters.Add(topics);
      wanted, seen := wanted[id := topics], seen[id := |log|];
    }

    /** A request's sleep runs out, or it wakes for no reason. */
    method Stir(id: nat)
      requires Valid() && id in waiters.signals
      modifies waiters
      ensures Valid() && Now() == After(old(Now()), Rouse(id))
    {
      waiters.Set(id, Roused);
    }

    /** A request on its way to the lock gets it. If its client is there it looks again; unless it found
        something or has waited long enough, it sleeps again. */
    method Resume(id: nat, alive: bool, changes: seq<Change>, found: bool, late: bool)
      requires Valid() && id in waiters.signals && waiters.signals[id] == Roused
      modifies this, waiters
      ensures Valid() && Now() == After(old(Now()), Look(id, alive, changes, found, late))
      ensures id in seen <==> alive && !found && !late
    {
      ghost var done := found || late;
      assert After(Now(), Look(id, alive, changes, found, late)) == Looked(Now(), id, alive, changes, !done);
      Rise(id);
      if alive {
        Again(id, changes, found || late);
      } else {
        Finish(id);
      }
    }

    /** A request's thread gets the lock. */
    method Rise(id: nat)
      requires Valid() && id in waiters.signals
      modifies waiters`signals
      ensures Alone(id) && Now() == old(Now()).(signals := old(waiters.signals)[id := Running])
    {
      waiters.Set(id, Running);
    }

    /** Looks again, then sleeps or leaves. */
    method Again(id: nat, changes: seq<Change>, done: bool)
      requires Alone(id)
      modifies this, waiters
      ensures Valid() && (id in seen <==> !done)
      ensures Now() == if done then Gone(Changed(old(Now()), changes), id) else Slept(Changed(old(Now()), changes), id)
    {
      Change(changes);
      if done {
        Finish(id);
      } else {
        Sleep(id);
      }
    }

    /** The lock is held by the thread of one waiting request, with nobody left to wake. */
    ghost predicate Alone(id: nat)
      reads this, waiters
    {
      && Held() && wake == [] && id in seen
      && (forall other :: other in seen && other != id ==> waiters.signals[other] != Running)
    }

    method Sleep(id: nat)
      requires Alone(id)
      modifies this`seen, waiters`signals
      ensures Valid() && Now() == Slept(old(Now()), id)
    {
      seen := seen[id := |log|];
      waiters.Set(id, Asleep);
    }

    method Finish(id: nat)
      requires Alone(id)
      modifies this`seen, this`wanted, waiters
      ensures Valid() && Now() == Gone(old(Now()), id)
    {
      waiters.Remove(id, wanted[id]);
      wanted, seen := wanted - {id}, seen - {id};
    }

    /** Subscribers come and go. */
    method Subscribe(subscription: Subscription)
      requires Valid()
      modifies this`subscriptions
      ensures Valid() && Now() == After(old(Now()), Come(subscription))
    {
      subscriptions := subscriptions + [subscription];
    }

    method Depart(i: nat)
      requires Valid() && i < |subscriptions|
      modifies this`subscriptions
      ensures Valid() && Now() == After(old(Now()), Go(i))
    {
      subscriptions := subscriptions[i := subscriptions[i].(alive := false)];
    }

    // ---- whole runs ---------------------------------------------------------------------------------

    /** Any run of the steps threads may take, in any order the lock lets them: the index, and keys reported only
        when asked for, wake exactly those that waking everyone concerned would. */
    method Play(steps: seq<Step>)
      requires Valid()
      modifies this, waiters
      ensures Valid() && Now() == Story(old(Now()), steps)
    {
      assert steps[..0] == [];
      for i := 0 to |steps|
        invariant Valid() && Now() == Story(old(Now()), steps[..i])
      {
        assert steps[..i + 1][..i] == steps[..i];
        Take(steps[i]);
      }
      assert steps[..|steps|] == steps;
    }

    method Take(step: Step)
      requires Valid()
      modifies this, waiters
      ensures Valid() && Now() == After(old(Now()), step)
    {
      match step
      case Operation(changes) => Run(changes);
      case Wait(topics, changes, found, mayWait) => var _ := Begin(topics, changes, found, mayWait);
      case Rouse(id) => if id in waiters.signals { Stir(id); }
      case Look(id, alive, changes, found, late) =>
        if id in waiters.signals && waiters.signals[id] == Roused { Resume(id, alive, changes, found, late); }
      case Come(subscription) => Subscribe(subscription);
      case Go(i) => if i < |subscriptions| { Depart(i); }
    }
  }
}
