/**
 Who hears of an event, said of the agents its scope names.
 */
module FeedLaws {
  import opened Common
  import opened EventFeed

  /** No event for other agents alone. */
  ghost predicate Meant(events: seq<Event>, agent: Option<string>)
  {
    forall i :: 0 <= i < |events| && agent.Some? && events[i].scope.Some? ==> agent.value in events[i].scope.value
  }

  /** Nobody received, or has on its way, an event for other agents alone. */
  ghost predicate Private(w: World)
  {
    && (forall i :: 0 <= i < |w.clients| ==> Meant(w.clients[i].got, w.clients[i].agent))
    && (forall f :: 0 <= f < |w.feeds| ==> Meant(w.feeds[f].Waiting(), w.feeds[f].agent))
  }

  lemma {:induction false} SeesMeant(log: seq<Event>, agent: Option<string>, from: nat)
    ensures Meant(Sees(log, agent, from), agent)
  {
    var all := Sees(log, agent, from);
    forall i | 0 <= i < |all| && agent.Some? && all[i].scope.Some? ensures agent.value in all[i].scope.value {
      SeesExactly(log, agent, from, all[i]);
    }
  }

  lemma {:induction false} PublishedPrivate(w: World, event: Event)
    requires Private(w)
    ensures Private(Published(w, event))
  {
    var after := Published(w, event);
    forall f | 0 <= f < |after.feeds| ensures Meant(after.feeds[f].Waiting(), after.feeds[f].agent) {
      var was, now := w.feeds[f], after.feeds[f];
      assert now.Waiting() == was.Waiting() || now.Waiting() == was.Waiting() + [event];
    }
  }

  lemma {:induction false} RehandedPrivate(w: World, first: nat, name: string)
    requires Private(w)
    ensures Private(Rehanded(w, first, name))
  {
    var after := Rehanded(w, first, name);
    forall f | 0 <= f < |after.feeds| ensures Meant(after.feeds[f].Waiting(), after.feeds[f].agent) {
      assert after.feeds[f].Waiting() == w.feeds[f].Waiting();
    }
  }

  lemma {:induction false} PartedPrivate(w: World, c: nat)
    requires Private(w) && c < |w.clients|
    ensures Private(Parted(w, c))
  {
    var after := Parted(w, c);
    forall f | 0 <= f < |after.feeds| ensures Meant(after.feeds[f].Waiting(), after.feeds[f].agent) {
      assert after.feeds[f].Waiting() == w.feeds[f].Waiting();
    }
  }

  lemma {:induction false} JoinedPrivate(w: World, first: nat, c: nat)
    requires Private(w) && c < |w.clients|
    ensures Private(Joined(w, first, c))
  {
    var after, client := Joined(w, first, c), w.clients[c];
    forall f | 0 <= f < |after.feeds| ensures Meant(after.feeds[f].Waiting(), after.feeds[f].agent) {
      if f < |w.feeds| {
        assert after.feeds[f].Waiting() == w.feeds[f].Waiting();
      } else {
        SeesMeant(w.log, client.agent, From(w.handed, client.mark, client.agent));
        assert after.feeds[f].Waiting() == after.feeds[f].replay;
      }
    }
  }

  lemma {:induction false} ServedPrivate(w: World, first: nat, c: nat)
    requires WorldOk(w, first) && Private(w) && c < |w.clients|
    ensures Private(Served(w, c))
  {
    var after, client := Served(w, c), w.clients[c];
    assert ClientOk(client, w.log, first + |w.log|, w.handed, w.feeds);
    if client.feed.Some? {
      var n := client.feed.value;
      var waiting := w.feeds[n].Waiting();
      if waiting != [] {
        forall f | 0 <= f < |after.feeds| ensures Meant(after.feeds[f].Waiting(), after.feeds[f].agent) {
          assert f == n ==> after.feeds[f].Waiting() == waiting[1..];
        }
        assert Meant(client.got + [waiting[0]], client.agent);
      } else {
        PartedPrivate(w, c);
      }
    }
  }

  lemma {:induction false} AfterPrivate(w: World, first: nat, deed: Deed)
    requires WorldOk(w, first) && Private(w)
    ensures Private(After(w, first, deed))
  {
    match deed
    case Emit(scope, json) => PublishedPrivate(w, Event(first + |w.log|, scope, json));
    case Rehand(name) => RehandedPrivate(w, first, name);
    case Connect(c) => if c < |w.clients| {
      PartedPrivate(w, c);
      JoinedPrivate(Parted(w, c), first, c);
    }
    case Receive(c) => if c < |w.clients| {
      ServedPrivate(w, first, c);
    }
    case Disconnect(c) => if c < |w.clients| {
      PartedPrivate(w, c);
    }
  }

  /** Through any run nobody receives, or has on its way, an event for other agents alone. */
  lemma {:induction false} StoryPrivate(w: World, first: nat, deeds: seq<Deed>)
    requires WorldOk(w, first) && Private(w) && first + |w.log| + |deeds| <= U64_MAX
    ensures Private(Story(w, first, deeds))
  {
    if deeds != [] {
      var before := deeds[..|deeds| - 1];
      StoryPrivate(w, first, before);
      StoryOk(w, first, before);
      AfterPrivate(Story(w, first, before), first, deeds[|deeds| - 1]);
    }
  }

  /** What a reader that is owed an account has received are events that name its agent, or nobody, from its base on; and
      when it is connected with nothing on the way, all of them. */
  lemma {:induction false} HeardExactly(w: World, first: nat, c: nat, event: Event)
    requires WorldOk(w, first) && c < |w.clients| && Owed(w.clients[c], w.handed)
    ensures var client := w.clients[c];
            var concerned := client.agent.Some? && event.scope.Some? ==> client.agent.value in event.scope.value;
            && (event in client.got ==> event in w.log && event.id >= client.base && concerned)
            && (client.feed.Some? && w.feeds[client.feed.value].open && w.feeds[client.feed.value].Waiting() == [] ==>
                  (event in client.got <==> event in w.log && event.id >= client.base && concerned))
  {
    var client := w.clients[c];
    Heard(w, first, c);
    SeesExactly(w.log, client.agent, client.base, event);
  }

  /** A name's open feeds hold nothing from before it last changed hands. */
  lemma {:induction false} NothingBefore(events: Events, f: nat, i: nat)
    requires events.Valid() && f < |events.feeds| && events.feeds[f].open && i < |events.feeds[f].Waiting()|
    ensures var agent := events.feeds[f].agent;
            agent.Some? && agent.value in events.handed ==> events.feeds[f].Waiting()[i].id >= events.handed[agent.value]
  {
    assert FeedOk(events.feeds[f], events.born[f], events.handed, events.next);
  }
}
