/**
 One connection of an event loop that never blocks: it takes bytes as they arrive, answers each
 request once it is whole, and writes replies as the client takes them.

 `Whole` says what the connection does with a stream that is there all at once. The class `Conn`
 gets the stream in pieces, stops for replies that pile up, and hands requests that wait to a
 thread; whatever the pieces, what it writes is what `Whole` says.
 */
module Connection {
  import opened Common
  import opened Heads

  const READ_SIZE: nat := 64 * 1024
  const MAX_OUTPUT: nat := 64 * 1024

  datatype Parsed<+Req> = Request(request: Req, length: nat) | Bad(status: nat, message: string) | Gone

  /** What a service does with a request: passes it on (to be read in full, or to wait for
      something), gives its response, or panics. */
  datatype Verdict<+Resp> = Pass | Say(response: Resp) | Panicked

  /** A server, seen from one connection: how it parses, judges, answers and encodes. It may remember: each
      request finds the state that the ones before it on the connection left. */
  datatype Service<!S, !Req, !Resp> = Service(
    maxBody: nat,
    parse: bytes -> Parsed<Req>,
    refuse: (S, Req) -> (S, Verdict<Resp>),
    answer: (S, Req, bytes) -> (S, Verdict<Resp>),
    failure: (nat, string) -> Resp,
    keepAlive: Req -> bool,
    headOnly: Req -> bool,
    encode: (Resp, bool, bool) -> bytes)
  {
    /** The request a head describes, unless its body is larger than any allowed. */
    function Judge(head: bytes): (r: Parsed<Req>)
      ensures r.Request? ==> r.length <= maxBody
    {
      var parsed := parse(head);
      if parsed.Request? && parsed.length > maxBody then Bad(413, "request body too large") else parsed
    }

    /** A request with a body may be refused from its head alone. */
    function Refusal(state: S, request: Req, length: nat): (S, Option<Resp>)
    {
      if length == 0 then (state, None)
      else
        var (after, verdict) := refuse(state, request);
        match verdict
        case Pass => (after, None)
        case Say(response) => (after, Some(response))
        case Panicked => (after, Some(failure(500, "internal error")))
    }

    /** The bytes of a reply after which the connection closes. */
    function Failing(response: Resp): bytes
    {
      encode(response, false, false)
    }
  }

  datatype Phase<+Req, +Resp> =
    | Idle
    | Head(scan: HeadScan)
    | Body(request: Req, length: nat)
    | Refused(remaining: nat, response: Resp)
  {
    /** The phase, forgetting how far a head was looked through. */
    function Bare(): (r: Phase<Req, Resp>)
      ensures !r.Head?
    {
      if Head? then Idle else this
    }
  }

  // ---- a stream that is there all at once --------------------------------------------------

  /** What the bytes not yet read lead to next. */
  datatype Turn<+S, +Req, +Resp> =
    | Wait(phase: Phase<Req, Resp>, used: nat)
    | Reply(out: bytes, state: S, phase: Phase<Req, Resp>, used: nat)
    | Shut(out: bytes)
    | HandOff(state: S, request: Req, body: bytes, used: nat)

  function Next<S, Req, Resp>(
      svc: Service<S, Req, Resp>, state: S, phase: Phase<Req, Resp>, unread: bytes): (r: Turn<S, Req, Resp>)
    requires !phase.Head?
    ensures r.Wait? || r.Reply? || r.HandOff? ==> r.used <= |unread|
    ensures r.Wait? || r.Reply? ==> !r.phase.Head?
    ensures r.Reply? ==> if phase.Idle? then r.used > 0 else r.phase.Idle?
  {
    match phase
    case Idle => (
      match FrameHead(unread)
      case Partial => Wait(Idle, 0)
      case TooLarge => Shut(svc.Failing(svc.failure(431, "request head too large")))
      case Framed(end, text) => HeadTurn(svc, state, text, end))
    case Body(request, length) =>
      if |unread| < length then Wait(phase, 0)
      else BodyTurn(svc, state, request, unread[..length])
    case Refused(remaining, response) =>
      if |unread| < remaining then Wait(Refused(remaining - |unread|, response), |unread|)
      else Shut(svc.Failing(response))
  }

  function HeadTurn<S, Req, Resp>(
      svc: Service<S, Req, Resp>, state: S, text: bytes, end: nat): (r: Turn<S, Req, Resp>)
    ensures r.Shut? || (r.Reply? && r.used == end && (r.phase.Body? || r.phase.Refused?))
  {
    match svc.Judge(text)
    case Bad(status, message) => Shut(svc.Failing(svc.failure(status, message)))
    case Gone => Shut([])
    case Request(request, length) =>
      var (after, refusal) := svc.Refusal(state, request, length);
      var phase := if refusal.Some? then Refused(length, refusal.value) else Body(request, length);
      Reply([], after, phase, end)
  }

  function BodyTurn<S, Req, Resp>(
      svc: Service<S, Req, Resp>, state: S, request: Req, body: bytes): (r: Turn<S, Req, Resp>)
    ensures r.Reply? || r.HandOff? ==> r.used == |body|
    ensures r.Reply? ==> r.phase.Idle?
    ensures !r.Wait?
  {
    var (after, verdict) := svc.answer(state, request, body);
    match verdict
    case Pass => HandOff(after, request, body, |body|)
    case Panicked => Shut(svc.Failing(svc.failure(500, "internal error")))
    case Say(response) =>
      var out := svc.encode(response, svc.keepAlive(request), svc.headOnly(request));
      if svc.keepAlive(request) then Reply(out, after, Idle, |body|) else Shut(out)
  }

  /** Where a connection is once it has done what it can: waiting for more, with what it has read
      and not used; handing a request off, with what came after it; or closing. */
  datatype End<+S, +Req, +Resp> =
    | More(state: S, phase: Phase<Req, Resp>, rest: bytes)
    | Moved(state: S, request: Req, body: bytes, rest: bytes)
    | Closed

  datatype Outcome<+S, +Req, +Resp> = Outcome(out: bytes, end: End<S, Req, Resp>)
  {
    function After(before: bytes): Outcome<S, Req, Resp>
    {
      Outcome(before + out, end)
    }
  }

  /** The replies to all the requests in `unread`, one after another. */
  function Whole<S, Req, Resp>(
      svc: Service<S, Req, Resp>, state: S, phase: Phase<Req, Resp>, unread: bytes): (r: Outcome<S, Req, Resp>)
    requires !phase.Head?
    ensures r.end.More? ==> !r.end.phase.Head?
    decreases |unread|, if phase.Idle? then 0 else 1
  {
    match Next(svc, state, phase, unread)
    case Wait(now, used) => Outcome([], More(state, now, unread[used..]))
    case Shut(out) => Outcome(out, Closed)
    case HandOff(after, request, body, used) => Outcome([], Moved(after, request, body, unread[used..]))
    case Reply(out, after, now, used) => Whole(svc, after, now, unread[used..]).After(out)
  }

  // ---- more of the stream ----------------------------------------------------------------------

  /** A turn that did not wait for more is the same with more. */
  lemma {:induction false} NextGrows<S, Req, Resp>(svc: Service<S, Req, Resp>, state: S, phase: Phase<Req, Resp>, unread: bytes, more: bytes)
    requires !phase.Head?
    ensures var turn := Next(svc, state, phase, unread);
      if turn.Wait? then
        Next(svc, state, turn.phase, unread[turn.used..]).Wait?
        && Next(svc, state, turn.phase, unread[turn.used..]) == Wait(turn.phase, 0)
        && (turn.used > 0 ==> phase.Refused? && turn.used == |unread|)
      else Next(svc, state, phase, unread + more) == turn
  {
    FrameGrows(unread, more);
    if phase.Body? && |unread| >= phase.length {
      assert (unread + more)[..phase.length] == unread[..phase.length];
    }
    assert unread[0..] == unread;
  }

  /** What `first` leads to once more of the stream has arrived. */
  function Resumed<S, Req, Resp>(
      svc: Service<S, Req, Resp>, first: Outcome<S, Req, Resp>, more: bytes): Outcome<S, Req, Resp>
    requires first.end.More? ==> !first.end.phase.Head?
  {
    match first.end
    case More(state, phase, rest) => Whole(svc, state, phase, rest + more).After(first.out)
    case Moved(state, request, body, rest) => Outcome(first.out, Moved(state, request, body, rest + more))
    case Closed => first
  }

  lemma {:induction false} ResumedAfter<S, Req, Resp>(
      svc: Service<S, Req, Resp>, first: Outcome<S, Req, Resp>, more: bytes, out: bytes)
    requires first.end.More? ==> !first.end.phase.Head?
    ensures Resumed(svc, first.After(out), more) == Resumed(svc, first, more).After(out)
  {
    if first.end.More? {
      var tail := Whole(svc, first.end.state, first.end.phase, first.end.rest + more);
      assert (out + first.out) + tail.out == out + (first.out + tail.out);
    }
  }

  /** Replies to more of a stream continue the replies to less of it, from where those left off. */
  lemma {:induction false} WholeSplits<S, Req, Resp>(
      svc: Service<S, Req, Resp>, state: S, phase: Phase<Req, Resp>, unread: bytes, more: bytes)
    requires !phase.Head?
    ensures Whole(svc, state, phase, unread + more) == Resumed(svc, Whole(svc, state, phase, unread), more)
    decreases |unread|, if phase.Idle? then 0 else 1
  {
    var turn := Next(svc, state, phase, unread);
    if turn.Wait? {
      WaitSplits(svc, state, phase, unread, more);
    } else {
      NextGrows(svc, state, phase, unread, more);
      if turn.HandOff? || turn.Reply? {
        assert (unread + more)[turn.used..] == unread[turn.used..] + more;
      }
      if turn.Reply? {
        var rest := unread[turn.used..];
        WholeSplits(svc, turn.state, turn.phase, rest, more);
        ResumedAfter(svc, Whole(svc, turn.state, turn.phase, rest), more, turn.out);
      }
    }
  }

  lemma {:induction false} WaitSplits<S, Req, Resp>(svc: Service<S, Req, Resp>, state: S, phase: Phase<Req, Resp>, unread: bytes, more: bytes)
    requires !phase.Head? && Next(svc, state, phase, unread).Wait?
    ensures var turn := Next(svc, state, phase, unread);
      Whole(svc, state, phase, unread + more) == Whole(svc, state, turn.phase, unread[turn.used..] + more).After([])
  {
    var turn := Next(svc, state, phase, unread);
    var whole := Whole(svc, state, phase, unread + more);
    assert [] + whole.out == whole.out;
    if phase.Refused? {
      assert unread[turn.used..] + more == more;
      var now := Whole(svc, state, turn.phase, more);
      assert [] + now.out == now.out;
      if |unread + more| < phase.remaining {
        assert (unread + more)[|unread + more|..] == more[|more|..];
      }
    } else {
      assert unread[turn.used..] == unread;
    }
  }

  // ---- a stream of well-formed requests -------------------------------------------------------

  datatype Asked<+Req> = Asked(head: bytes, request: Req, body: bytes)

  /** The head ends where it says, and describes the request and the length of its body. */
  ghost predicate Sound<S, Req, Resp>(svc: Service<S, Req, Resp>, asked: Asked<Req>)
  {
    var framed := FrameHead(asked.head);
    && framed.Framed? && framed.end == |asked.head|
    && svc.parse(framed.head) == Request(asked.request, |asked.body|) && |asked.body| <= svc.maxBody
  }

  function Stream<Req>(all: seq<Asked<Req>>): bytes
  {
    if all == [] then [] else all[0].head + (all[0].body + Stream(all[1..]))
  }

  /** One reply to each request, up to one that waits or closes the connection. One with a body may be refused before its
      body is looked at. */
  function Answers<S, Req, Resp>(svc: Service<S, Req, Resp>, state: S, all: seq<Asked<Req>>): Outcome<S, Req, Resp>
  {
    if all == [] then Outcome([], More(state, Idle, []))
    else
      var asked := all[0];
      var (judged, refused) := if asked.body == [] then (state, Pass) else svc.refuse(state, asked.request);
      match refused
      case Say(response) => Outcome(svc.encode(response, false, false), End.Closed)
      case Panicked => Outcome(svc.encode(svc.failure(500, "internal error"), false, false), End.Closed)
      case Pass =>
        var (after, verdict) := svc.answer(judged, asked.request, asked.body);
        match verdict
        case Pass => Outcome([], Moved(after, asked.request, asked.body, Stream(all[1..])))
        case Panicked => Outcome(svc.encode(svc.failure(500, "internal error"), false, false), End.Closed)
        case Say(response) =>
          var keep := svc.keepAlive(asked.request);
          var out := svc.encode(response, keep, svc.headOnly(asked.request));
          if keep then Answers(svc, after, all[1..]).After(out) else Outcome(out, End.Closed)
  }

  lemma {:induction false} LaterSound<S, Req, Resp>(svc: Service<S, Req, Resp>, all: seq<Asked<Req>>)
    requires all != [] && forall i :: 0 <= i < |all| ==> Sound(svc, all[i])
    ensures forall i :: 0 <= i < |all[1..]| ==> Sound(svc, all[1..][i])
  {
    forall i | 0 <= i < |all[1..]| ensures Sound(svc, all[1..][i]) {
      assert all[1..][i] == all[i + 1];
    }
  }

  /** Requests sent one after another get their replies one after another. */
  lemma {:induction false} StreamAnswers<S, Req, Resp>(svc: Service<S, Req, Resp>, state: S, all: seq<Asked<Req>>)
    requires forall i :: 0 <= i < |all| ==> Sound(svc, all[i])
    ensures Whole(svc, state, Idle, Stream(all)) == Answers(svc, state, all)
  {
    var stream := Stream(all);
    assert stream[0..] == stream;
    if all != [] {
      var asked := all[0];
      var rest := asked.body + Stream(all[1..]);
      FrameGrows(asked.head, rest);
      assert stream[|asked.head|..] == rest;
      var (judged, refusal) := svc.Refusal(state, asked.request, |asked.body|);
      if refusal.None? {
        BodyAnswers(svc, judged, asked, Stream(all[1..]));
        LaterSound(svc, all);
        var (after, verdict) := svc.answer(judged, asked.request, asked.body);
        StreamAnswers(svc, after, all[1..]);
      }
      HeadAnswers(svc, state, stream, |asked.head|, FrameHead(stream).head, asked.request, |asked.body|);
    }
  }

  lemma {:induction false} HeadAnswers<S, Req, Resp>(svc: Service<S, Req, Resp>, state: S, stream: bytes, end: nat, text: bytes, request: Req, length: nat)
    requires FrameHead(stream) == Framed(end, text) && svc.Judge(text) == Request(request, length)
    requires length <= |stream| - end
    ensures var (judged, refusal) := svc.Refusal(state, request, length);
      Whole(svc, state, Idle, stream) ==
        if refusal.Some? then Outcome(svc.Failing(refusal.value), End.Closed)
        else Whole(svc, judged, Body(request, length), stream[end..])
  {
    var (judged, refusal) := svc.Refusal(state, request, length);
    if refusal.Some? {
      var whole := Whole(svc, judged, Phase.Refused(length, refusal.value), stream[end..]);
      assert [] + whole.out == whole.out;
    } else {
      var whole := Whole(svc, judged, Body(request, length), stream[end..]);
      assert [] + whole.out == whole.out;
    }
  }

  function AfterBody<S, Req, Resp>(svc: Service<S, Req, Resp>, turn: Turn<S, Req, Resp>, later: bytes): Outcome<S, Req, Resp>
    requires !turn.Wait? && (turn.Reply? ==> !turn.phase.Head?)
  {
    match turn
    case Shut(out) => Outcome(out, End.Closed)
    case HandOff(after, request, body, _) => Outcome([], Moved(after, request, body, later))
    case Reply(out, after, now, _) => Whole(svc, after, now, later).After(out)
  }

  lemma {:induction false} BodyAnswers<S, Req, Resp>(svc: Service<S, Req, Resp>, state: S, asked: Asked<Req>, later: bytes)
    ensures Whole(svc, state, Body(asked.request, |asked.body|), asked.body + later) ==
            AfterBody(svc, BodyTurn(svc, state, asked.request, asked.body), later)
  {
    assert (asked.body + later)[..|asked.body|] == asked.body;
    assert (asked.body + later)[|asked.body|..] == later;
  }

  // ---- what is answered and what is left ------------------------------------------------------

  /** What a service comes to say to a stream, as `Whole` has it. */
  type Tale<!S, !Req, !Resp> = (S, Phase<Req, Resp>, bytes) -> Outcome<S, Req, Resp>

  ghost predicate Tells<S(!new), Req(!new), Resp(!new)>(tale: Tale<S, Req, Resp>, svc: Service<S, Req, Resp>)
  {
    forall state: S, phase: Phase<Req, Resp>, unread: bytes {:trigger Whole(svc, state, phase, unread)} ::
      !phase.Head? ==> tale(state, phase, unread) == Whole(svc, state, phase, unread)
  }

  /** What was answered, and what is left to answer, make up what the stream means. */
  ghost predicate Agrees<S, Req, Resp>(
      tale: Tale<S, Req, Resp>, meant: Outcome<S, Req, Resp>, replies: bytes, closing: bool,
      leaving: Option<(Req, bytes)>, state: S, phase: Phase<Req, Resp>, unread: bytes)
  {
    if closing then leaving.None? && meant == Outcome(replies, End.Closed)
    else if leaving.Some? then meant == Outcome(replies, Moved(state, leaving.value.0, leaving.value.1, unread))
    else meant == tale(state, phase.Bare(), unread).After(replies)
  }

  lemma {:induction false} AgreesFurther<S(!new), Req(!new), Resp(!new)>(
      tale: Tale<S, Req, Resp>, svc: Service<S, Req, Resp>, origin: S, received: bytes, replies: bytes, closing: bool,
      leaving: Option<(Req, bytes)>, state: S, phase: Phase<Req, Resp>, unread: bytes, chunk: bytes)
    requires Tells(tale, svc) && Agrees(tale, tale(origin, Idle, received), replies, closing, leaving, state, phase, unread)
    ensures Agrees(tale, tale(origin, Idle, received + chunk), replies, closing, leaving, state, phase, unread + chunk)
  {
    WholeSplits(svc, origin, Idle, received, chunk);
    if !closing && leaving.None? {
      WholeSplits(svc, state, phase.Bare(), unread, chunk);
      ResumedAfter(svc, Whole(svc, state, phase.Bare(), unread), chunk, replies);
    }
  }

  /** What one turn makes of the replies so far. */
  ghost predicate TurnAgrees<S, Req, Resp>(
      tale: Tale<S, Req, Resp>, meant: Outcome<S, Req, Resp>, replies: bytes, unread: bytes, turn: Turn<S, Req, Resp>)
    requires !turn.Shut? ==> turn.used <= |unread|
  {
    match turn
    case Wait(now, used) => true
    case Reply(out, after, now, used) => Agrees(tale, meant, replies + out, false, None, after, now, unread[used..])
    case Shut(out) => meant == Outcome(replies + out, End.Closed)
    case HandOff(after, request, body, used) => meant == Outcome(replies, Moved(after, request, body, unread[used..]))
  }

  lemma {:induction false} AgreesTurn<S(!new), Req(!new), Resp(!new)>(
      tale: Tale<S, Req, Resp>, svc: Service<S, Req, Resp>, meant: Outcome<S, Req, Resp>, replies: bytes, state: S,
      phase: Phase<Req, Resp>, unread: bytes)
    requires Tells(tale, svc) && Agrees(tale, meant, replies, false, None, state, phase, unread)
    ensures TurnAgrees(tale, meant, replies, unread, Next(svc, state, phase.Bare(), unread))
  {
    var whole := Whole(svc, state, phase.Bare(), unread);
    match Next(svc, state, phase.Bare(), unread)
    case Wait(now, used) =>
    case Reply(out, after, now, used) =>
      var rest := Whole(svc, after, now, unread[used..]);
      assert replies + (out + rest.out) == (replies + out) + rest.out;
    case Shut(out) =>
    case HandOff(after, request, body, used) =>
      assert replies + [] == replies;
  }

  lemma {:induction false} AgreesOversized<S(!new), Req(!new), Resp(!new)>(
      tale: Tale<S, Req, Resp>, svc: Service<S, Req, Resp>, meant: Outcome<S, Req, Resp>, replies: bytes, state: S,
      phase: Phase<Req, Resp>, unread: bytes)
    requires Tells(tale, svc) && Agrees(tale, meant, replies, false, None, state, phase, unread)
    requires phase.Head? && FrameHead(unread).TooLarge?
    ensures meant == Outcome(replies + svc.Failing(svc.failure(431, "request head too large")), End.Closed)
  {
    AgreesTurn(tale, svc, meant, replies, state, phase, unread);
  }

  lemma {:induction false} AgreesHead<S(!new), Req(!new), Resp(!new)>(
      tale: Tale<S, Req, Resp>, svc: Service<S, Req, Resp>, meant: Outcome<S, Req, Resp>, replies: bytes, state: S,
      phase: Phase<Req, Resp>, unread: bytes, text: bytes, end: nat)
    requires Tells(tale, svc) && Agrees(tale, meant, replies, false, None, state, phase, unread)
    requires phase.Head? && FrameHead(unread) == Framed(end, text)
    ensures TurnAgrees(tale, meant, replies, unread, HeadTurn(svc, state, text, end))
  {
    AgreesTurn(tale, svc, meant, replies, state, phase, unread);
  }

  lemma {:induction false} AgreesBody<S(!new), Req(!new), Resp(!new)>(
      tale: Tale<S, Req, Resp>, svc: Service<S, Req, Resp>, meant: Outcome<S, Req, Resp>, replies: bytes, state: S,
      phase: Phase<Req, Resp>, unread: bytes)
    requires Tells(tale, svc) && Agrees(tale, meant, replies, false, None, state, phase, unread)
    requires phase.Body? && phase.length <= |unread|
    ensures TurnAgrees(tale, meant, replies, unread, BodyTurn(svc, state, phase.request, unread[..phase.length]))
  {
    AgreesTurn(tale, svc, meant, replies, state, phase, unread);
  }

  lemma {:induction false} AgreesPast<S(!new), Req(!new), Resp(!new)>(
      tale: Tale<S, Req, Resp>, svc: Service<S, Req, Resp>, meant: Outcome<S, Req, Resp>, replies: bytes, state: S,
      phase: Phase<Req, Resp>, unread: bytes)
    requires Tells(tale, svc) && Agrees(tale, meant, replies, false, None, state, phase, unread)
    requires phase.Refused?
    ensures if phase.remaining <= |unread| then meant == Outcome(replies + svc.Failing(phase.response), End.Closed)
            else Agrees(tale, meant, replies, false, None, state, Phase.Refused(phase.remaining - |unread|, phase.response), [])
  {
    AgreesTurn(tale, svc, meant, replies, state, phase, unread);
    if |unread| < phase.remaining {
      var now := Phase<Req, Resp>.Refused(phase.remaining - |unread|, phase.response);
      assert Whole(svc, state, phase, unread) == Whole(svc, state, now, []) by {
        assert unread[|unread|..] == [];
      }
    }
  }

  /** Nothing can be done with what has been read until more comes. */
  ghost predicate Stalled<Req, Resp>(phase: Phase<Req, Resp>, unread: bytes)
  {
    match phase
    case Idle => FrameHead(unread).Partial?
    case Head(_) => FrameHead(unread).Partial?
    case Body(_, length) => |unread| < length
    case Refused(remaining, _) => unread == [] && remaining > 0
  }

  /** A connection that stalled needs no reply but those it gave. */
  lemma {:induction false} StalledWaits<S, Req, Resp>(svc: Service<S, Req, Resp>, state: S, phase: Phase<Req, Resp>, unread: bytes)
    requires Stalled(phase, unread)
    ensures Whole(svc, state, phase.Bare(), unread) == Outcome([], More(state, phase.Bare(), unread))
  {
    assert unread[0..] == unread;
  }

  /** What a stream leads to never has more left than there was, and begins a request only by using some. */
  lemma {:induction false} WholeUses<S, Req, Resp>(svc: Service<S, Req, Resp>, state: S, phase: Phase<Req, Resp>, unread: bytes)
    requires !phase.Head?
    ensures var end := Whole(svc, state, phase, unread).end;
      end.More? ==> |end.rest| <= |unread| && (phase.Idle? && |end.rest| == |unread| ==> end.phase.Idle?)
    decreases |unread|, if phase.Idle? then 0 else 1
  {
    var turn := Next(svc, state, phase, unread);
    if turn.Reply? {
      WholeUses(svc, turn.state, turn.phase, unread[turn.used..]);
    }
  }

  /** A connection that has not stalled has something to do. */
  lemma {:induction false} MovesOn<S, Req, Resp>(svc: Service<S, Req, Resp>, state: S, phase: Phase<Req, Resp>, unread: bytes)
    requires !Stalled(phase, unread)
    ensures Whole(svc, state, phase.Bare(), unread) != Outcome([], More(state, phase.Bare(), unread))
  {
    var bare := phase.Bare();
    var whole, turn := Whole(svc, state, bare, unread), Next(svc, state, bare, unread);
    if turn.Reply? {
      var rest := unread[turn.used..];
      WholeUses(svc, turn.state, turn.phase, rest);
      assert whole.end == Whole(svc, turn.state, turn.phase, rest).end;
      assert whole.end.More? ==> |whole.end.rest| < |unread| || whole.end.phase != bare;
    } else if turn.Wait? {
      assert phase.Refused? && turn.used == |unread| && (|unread| > 0 ==> unread[turn.used..] != unread);
    }
  }

  /** The length of a response, encoded. */
  function Length<S, Req, Resp>(svc: Service<S, Req, Resp>, response: Resp, keep: bool, headOnly: bool): nat
  {
    |svc.encode(response, keep, headOnly)|
  }

  /** A reply is what some response is encoded to, or nothing. */
  ghost predicate OneReply<S, Req, Resp(!new)>(svc: Service<S, Req, Resp>, length: nat)
  {
    length == 0 || exists response, keep, headOnly :: length == Length(svc, response, keep, headOnly)
  }

  // ---- a stream that comes in pieces ---------------------------------------------------------

  /** What reading from a socket that does not block gives. */
  datatype Got = Bytes(chunk: bytes) | Eof | Nothing | Interrupted | Broken

  /** A read takes no more than the room it was given. */
  predicate Gets(arrivals: seq<Got>)
  {
    forall i :: 0 <= i < |arrivals| && arrivals[i].Bytes? ==> 0 < |arrivals[i].chunk| <= READ_SIZE
  }

  /** The bytes that a row of reads takes. */
  function Taken(arrivals: seq<Got>): (r: bytes)
  {
    if arrivals == [] then [] else (if arrivals[0].Bytes? then arrivals[0].chunk else []) + Taken(arrivals[1..])
  }

  lemma {:induction false} TakenTwice(first: seq<Got>, later: seq<Got>)
    ensures Taken(first + later) == Taken(first) + Taken(later)
  {
    if first == [] {
      assert first + later == later;
    } else {
      assert (first + later)[1..] == first[1..] + later;
      TakenTwice(first[1..], later);
    }
  }

  lemma {:induction false} TakenMore(arrivals: seq<Got>, count: nat)
    requires count < |arrivals|
    ensures Taken(arrivals[..count + 1]) == Taken(arrivals[..count]) + Taken([arrivals[count]])
  {
    TakenTwice(arrivals[..count], [arrivals[count]]);
    assert arrivals[..count] + [arrivals[count]] == arrivals[..count + 1];
  }

  /** How many reads are made while there is room for as many bytes: until the client closed its end, nothing
      is there, a read failed, or one was short. */
  function Draws(arrivals: seq<Got>, room: int): (r: nat)
    ensures r <= |arrivals|
  {
    if arrivals == [] || room <= 0 then 0
    else
      match arrivals[0]
      case Interrupted => 1 + Draws(arrivals[1..], room)
      case Bytes(chunk) => if |chunk| < READ_SIZE then 1 else 1 + Draws(arrivals[1..], room - |chunk|)
      case _ => 1
  }

  predicate Last(arrivals: seq<Got>, got: Got)
  {
    arrivals != [] && arrivals[|arrivals| - 1] == got
  }

  lemma {:induction false} TakenOn(arrivals: seq<Got>, at: nat, count: nat)
    requires at <= |arrivals| && count <= |arrivals| - at
    ensures Taken(arrivals[..at + count]) == Taken(arrivals[..at]) + Taken(arrivals[at..][..count])
  {
    TakenTwice(arrivals[..at], arrivals[at..][..count]);
    assert arrivals[at..][..count] == arrivals[at..at + count];
    assert arrivals[..at] + arrivals[at..at + count] == arrivals[..at + count];
  }

  /** What writing to a socket that does not block gives: how much it took at once, at most what it was given. */
  datatype Put = Took(count: nat) | Full | Again | Lost

  /** How much of what waits a row of writes takes, and whether the client takes no more, ever. */
  function Flow(puts: seq<Put>, waiting: nat): (r: (nat, bool))
    ensures r.0 <= waiting
  {
    if waiting == 0 || puts == [] then (0, true)
    else
      match puts[0]
      case Took(count) =>
        if count == 0 then (0, false)
        else
          var taken := if count < waiting then count else waiting;
          var later := Flow(puts[1..], waiting - taken);
          (taken + later.0, later.1)
      case Full => (0, true)
      case Again => Flow(puts[1..], waiting)
      case Lost => (0, false)
  }

  /** Goes on writing from where it was, until all is written or the client takes no more for now. */
  method WriteFrom(puts: seq<Put>, length: nat, from: nat) returns (written: nat, ok: bool)
    requires from <= length
    ensures written == from + Flow(puts, length - from).0 && ok == Flow(puts, length - from).1
    ensures !ok ==> written < length
  {
    written, ok := from, true;
    var k := 0;
    while k < |puts| && written < length
      invariant k <= |puts| && from <= written <= length && ok
      invariant Flow(puts, length - from) ==
                (written - from + Flow(puts[k..], length - written).0, Flow(puts[k..], length - written).1)
      decreases |puts| - k
    {
      var put := puts[k];
      assert puts[k..][0] == put && puts[k..][1..] == puts[k + 1..];
      k := k + 1;
      match put
      case Took(count) =>
        if count == 0 {
          return written, false;
        }
        written := if count < length - written then written + count else length;
      case Full => return written, true;
      case Again =>
      case Lost => return written, false;
    }
  }

  /** What made answering stop. */
  datatype Stop<+Req> = Input | Output | Closing | Leaving(request: Req, body: bytes)

  /** What a connection does once it has written what it could. */
  datatype Step<+Req> = Keep | Retry | Close | Leave(request: Req, body: bytes)

  /** What decides how a connection goes on: how much room there is to read, if reading is wanted at all, how much
      of its replies is unsent, and how it stands. */
  datatype Look = Look(room: Option<int>, waiting: nat, ended: bool, closing: bool, full: bool, moving: bool, stuck: bool)
  {
    /** All that can be answered for now has been. */
    predicate Settled()
    {
      full || closing || moving || stuck
    }
  }

  /** A new connection wants to read, and has nothing to write. */
  const FRESH := Look(Some(if READ_SIZE > MAX_HEAD + 1 then READ_SIZE else MAX_HEAD + 1), 0, false, false, false, false, true)

  /** What a connection does after it has written: it closes when the client takes no more, stays while replies are
      unsent, and else hands off, closes, answers on or waits, in this order. */
  predicate Decides<Req>(look: Look, puts: seq<Put>, step: Step<Req>)
  {
    var (wrote, ok) := Flow(puts, look.waiting);
    if !ok then step.Close?
    else if wrote < look.waiting then step.Keep?
    else if look.moving then step.Leave?
    else if look.closing || look.ended then step.Close?
    else if look.full then step.Retry?
    else step.Keep?
  }

  class Conn<S(!new), Req(!new), Resp(!new)> {
    const service: Service<S, Req, Resp>
    /** What the service has become, by this connection's requests. */
    var state: S
    var input: bytes
    var start: nat
    var output: bytes
    var written: nat
    var phase: Phase<Req, Resp>
    var ended: bool
    var closing: bool
    var full: bool
    var moving: Option<(Req, bytes)>

    /** What the service was to begin with, all that has been read, and all that has been written and
        is no longer in the buffer. */
    ghost const origin: S
    ghost const tale: Tale<S, Req, Resp>
    ghost var received: bytes
    ghost var gone: bytes
    /** The length of the last reply. */
    ghost var last: nat

    constructor (service: Service<S, Req, Resp>, state: S)
      ensures Valid() && Settled() && this.service == service && this.origin == state
      ensures received == gone == output == [] && written == 0 && WantsRead() && !full && Room() >= READ_SIZE
      ensures Looks() == FRESH
    {
      this.service, this.state, this.origin := service, state, state;
      input, start, output, written, phase := [], 0, [], 0, Idle;
      ended, closing, full, moving := false, false, false, None;
      received, gone, last := [], [], 0;
      tale := (s: S, p: Phase<Req, Resp>, u: bytes) => if p.Head? then Outcome([], End.Closed) else Whole(service, s, p, u);
      new;
      assert Replies() + Meant().out == Meant().out;
    }

    function Unread(): bytes
      reads this
      requires start <= |input|
    {
      input[start..]
    }

    predicate Pending()
      reads this
    {
      written < |output|
    }

    /** How the connection stands. */
    ghost function Looks(): Look
      reads this
      requires start <= |input| && written <= |output|
    {
      Look(if WantsRead() then Some(Room()) else None, |output| - written, ended, closing, full, moving.Some?, Stuck())
    }

    /** Everything the client has been sent. */
    ghost function Sent(): bytes
      reads this
      requires written <= |output|
    {
      gone + output[..written]
    }

    /** Everything the client has been or will be sent, of what has been answered. */
    ghost function Replies(): bytes
      reads this
    {
      gone + output
    }

    /** What the whole stream so far leads to. */
    ghost function Meant(): Outcome<S, Req, Resp>
      reads this
    {
      tale(origin, Idle, received)
    }

    /** What is still to be done with what has been read. */
    ghost function Ahead(): Outcome<S, Req, Resp>
      reads this
      requires start <= |input|
    {
      tale(state, phase.Bare(), Unread())
    }

    ghost predicate Bounded()
      reads this
    {
      && OneReply(service, last)
      && start <= |input| && written <= |output|
      && |output| - written < MAX_OUTPUT + last
      && |input| - start < service.maxBody + 2 * READ_SIZE
      && (phase.Body? ==> phase.length <= service.maxBody)
      && (phase.Head? ==> ScanOk(phase.scan, Unread()))
    }

    ghost predicate Agree(leaving: Option<(Req, bytes)>)
      reads this
      requires start <= |input|
    {
      Tells(tale, service) && Agrees(tale, Meant(), Replies(), closing, leaving, state, phase, Unread())
    }

    ghost predicate Valid()
      reads this
    {
      Bounded() && Agree(moving)
    }

    /** Nothing is left to answer in what has been read. */
    ghost predicate Stuck()
      reads this
      requires start <= |input|
    {
      Stalled(phase, Unread())
    }

    /** What holds once all that can be answered for now has been. */
    ghost predicate Settled()
      reads this
      requires start <= |input|
    {
      full || closing || moving.Some? || Stuck()
    }

    /** How much more may be read before the request has what it needs. */
    function Room(): int
      reads this
    {
      var need :=
        match phase
        case Body(_, length) => length + READ_SIZE
        case Refused(_, _) => READ_SIZE
        case Idle => if READ_SIZE > MAX_HEAD + 1 then READ_SIZE else MAX_HEAD + 1
        case Head(_) => if READ_SIZE > MAX_HEAD + 1 then READ_SIZE else MAX_HEAD + 1;
      need - (|input| - start)
    }

    /** Whether to read now: not while replies wait, and no more than the request needs. */
    predicate WantsRead()
      reads this
    {
      !ended && !closing && moving.None? && !Pending() && Room() > 0
    }

    /** Reading is wanted exactly while nothing else is to be done first and what is unread could not hold the body being
        waited for, if any, and 64 KiB more. */
    lemma {:induction false} WantsExactly()
      requires start <= |input|
      ensures var most := 64 * 1024 + if phase.Body? then phase.length else 0;
              && Room() == most - |Unread()|
              && (WantsRead() <==> !ended && !closing && moving.None? && written >= |output| && |Unread()| < most)
    {}

    /** Takes one read's bytes. */
    method Extend(chunk: bytes)
      requires Valid() && WantsRead() && 0 < |chunk| <= READ_SIZE
      modifies this`input, this`received
      ensures Valid() && received == old(received) + chunk && Unread() == old(Unread()) + chunk
      ensures Room() == old(Room()) - |chunk|
    {
      AgreesFurther(tale, service, origin, received, Replies(), closing, moving, state, phase, Unread(), chunk);
      if phase.Head? {
        ScanGrows(phase.scan, Unread(), chunk);
      }
      assert (input + chunk)[start..] == Unread() + chunk;
      input, received := input + chunk, received + chunk;
    }

    /** Drops what has been answered from the buffer, once it is all of it or much. */
    method Compact()
      requires Valid()
      modifies this`input, this`start
      ensures Valid() && Unread() == old(Unread()) && Room() == old(Room())
    {
      ghost var before := Unread();
      if start == |input| {
        input, start := [], 0;
      } else if start >= READ_SIZE {
        input, start := input[start..], 0;
      }
      assert Unread() == before;
    }

    /** Takes what one read gave, and says whether to read again. */
    method Take(got: Got) returns (ok: bool, again: bool)
      requires Valid() && WantsRead() && (got.Bytes? ==> 0 < |got.chunk| <= READ_SIZE)
      modifies this`input, this`received, this`ended
      ensures Valid() && received == old(received) + Taken([got]) && Unread() == old(Unread()) + Taken([got])
      ensures again ==> ok && WantsRead()
      ensures ended == (old(ended) || got == Eof) && ok == (got != Broken)
      ensures again <==> got == Interrupted || (got.Bytes? && |got.chunk| == READ_SIZE && Room() > 0)
      ensures Room() == old(Room()) - |Taken([got])|
    {
      assert [got][1..] == [] && Taken([]) == [];
      ok, again := got != Broken, got == Interrupted;
      match got
      case Eof =>
        ended := true;
      case Bytes(chunk) =>
        Extend(chunk);
        again := !(|chunk| < READ_SIZE || !WantsRead());
      case Nothing =>
      case Interrupted =>
      case Broken =>
    }

    /** Reads what has arrived, while it is wanted: until the client closed its end, nothing is there, a read
        failed, or one was short. */
    method Read(arrivals: seq<Got>) returns (ok: bool, count: nat)
      requires Valid() && WantsRead() && Gets(arrivals)
      modifies this`input, this`start, this`received, this`ended
      ensures Valid() && count <= |arrivals| && received == old(received) + Taken(arrivals[..count])
      ensures count == Draws(arrivals, old(Room())) && Unread() == old(Unread()) + Taken(arrivals[..count])
      ensures ended == Last(arrivals[..count], Eof) && ok == !Last(arrivals[..count], Broken)
    {
      Compact();
      var again := true;
      ok, count := true, 0;
      ghost var before, unread, room := received, Unread(), Room();
      assert before + [] == before && unread + [] == unread && arrivals[0..] == arrivals;
      while again && count < |arrivals|
        invariant Reading(arrivals, before, unread, room, count, ok, again)
        decreases |arrivals| - count
      {
        ok, again := TakeNext(arrivals, before, unread, room, count);
        count := count + 1;
      }
    }

    /** The first `count` reads are taken, and whether to go on. */
    ghost predicate Reading(arrivals: seq<Got>, before: bytes, unread: bytes, room: int, count: nat, ok: bool, again: bool)
      reads this
    {
      && count <= |arrivals| && Valid() && (again ==> ok && WantsRead())
      && received == before + Taken(arrivals[..count]) && Unread() == unread + Taken(arrivals[..count])
      && count + (if again then Draws(arrivals[count..], Room()) else 0) == Draws(arrivals, room)
      && ended == Last(arrivals[..count], Eof) && ok == !Last(arrivals[..count], Broken)
    }

    method TakeNext(arrivals: seq<Got>, ghost before: bytes, ghost unread: bytes, ghost room: int, count: nat)
      returns (ok: bool, again: bool)
      requires count < |arrivals| && Gets(arrivals) && Reading(arrivals, before, unread, room, count, true, true)
      modifies this`input, this`received, this`ended
      ensures Reading(arrivals, before, unread, room, count + 1, ok, again)
    {
      TakenMore(arrivals, count);
      assert arrivals[count..][0] == arrivals[count] && arrivals[count..][1..] == arrivals[count + 1..];
      ok, again := Take(arrivals[count]);
      assert before + Taken(arrivals[..count]) + Taken([arrivals[count]]) == before + (Taken(arrivals[..count]) + Taken([arrivals[count]]));
      assert unread + Taken(arrivals[..count]) + Taken([arrivals[count]]) == unread + (Taken(arrivals[..count]) + Taken([arrivals[count]]));
    }

    // ---- answering ----------------------------------------------------------------------

    /** Answering goes on: replies have room, and nothing ends the connection or takes it away. */
    ghost predicate Answering()
      reads this
    {
      Valid() && !closing && moving.None? && |output| - written < MAX_OUTPUT
    }

    /** Appends the last reply of the connection, encoded as such. */
    method Fail(response: Resp)
      requires Answering() && Meant() == Outcome(Replies() + service.Failing(response), End.Closed)
      modifies this`output, this`closing, this`last
      ensures Valid() && closing && output == old(output) + service.Failing(response)
    {
      var out := service.Failing(response);
      assert |out| == Length(service, response, false, false);
      Finish(out);
    }

    /** Queues the last bytes of the connection. */
    method Finish(out: bytes)
      requires Answering() && Meant() == Outcome(Replies() + out, End.Closed) && OneReply(service, |out|)
      modifies this`output, this`closing, this`last
      ensures Valid() && closing && output == old(output) + out
    {
      assert gone + (output + out) == Replies() + out;
      output, closing, last := output + out, true, |out|;
    }

    /** Queues a reply, and goes on. */
    method Proceed(out: bytes, after: S, now: Phase<Req, Resp>, used: nat)
      requires Answering() && used <= |Unread()| && !now.Head? && (now.Body? ==> now.length <= service.maxBody)
      requires OneReply(service, |out|)
      requires Agrees(tale, Meant(), Replies() + out, false, None, after, now, Unread()[used..])
      modifies this`output, this`last, this`state, this`phase, this`start
      ensures Valid() && phase == now && start == old(start) + used && output == old(output) + out
    {
      assert gone + (output + out) == Replies() + out;
      assert input[start + used..] == Unread()[used..];
      output, last, state, phase, start := output + out, if out == [] then last else |out|, after, now, start + used;
    }

    /** Looks on for the end of the head, and judges the request once it is there. False when that
        takes more bytes. A head that was measured is never one that broke off. */
    method AnswerHead() returns (again: bool)
      requires Answering() && phase.Head?
      modifies this`output, this`last, this`state, this`phase, this`start, this`closing
      ensures Valid() && old(output) <= output && start >= old(start)
      ensures again ==> closing || (start > old(start) && (phase.Body? || phase.Refused?))
      ensures !again ==> closing || Stuck()
    {
      var now, end := ScanEnd(phase.scan, Unread());
      if end.None? {
        phase := Head(now);
        if |Unread()| > MAX_HEAD {
          AgreesOversized(tale, service, Meant(), Replies(), state, phase, Unread());
          Fail(service.failure(431, "request head too large"));
        }
        return false;
      }
      var judged := ParseHead(Unread()[..end.value]);
      if FrameHead(Unread()).Framed? {
        MeasuredIsWhole(Unread());
      }
      again := true;
      match judged
      case Oversized =>
        AgreesOversized(tale, service, Meant(), Replies(), state, phase, Unread());
        Fail(service.failure(431, "request head too large"));
      case Text(text) =>
        AnswerRequest(text, end.value);
    }

    /** Judges a request from its head. */
    method AnswerRequest(text: bytes, end: nat)
      requires Answering() && phase.Head? && FrameHead(Unread()) == Framed(end, text)
      modifies this`output, this`last, this`state, this`phase, this`start, this`closing
      ensures Valid() && old(output) <= output && start >= old(start)
      ensures closing || (start > old(start) && (phase.Body? || phase.Refused?))
    {
      AgreesHead(tale, service, Meant(), Replies(), state, phase, Unread(), text, end);
      match service.Judge(text)
      case Bad(status, message) =>
        Fail(service.failure(status, message));
      case Gone =>
        Finish([]);
      case Request(request, length) =>
        var (after, refusal) := service.Refusal(state, request, length);
        Proceed([], after, if refusal.Some? then Phase.Refused(length, refusal.value) else Body(request, length), end);
    }

    /** Answers a request that is there in full, unless it has to wait. */
    method AnswerBody() returns (leaving: Option<(Req, bytes)>)
      requires Answering() && phase.Body? && phase.length <= |Unread()|
      modifies this`output, this`last, this`state, this`phase, this`start, this`closing
      ensures Bounded() && Agree(leaving) && old(output) <= output && start >= old(start)
      ensures leaving.None? ==> closing || phase.Idle?
      ensures leaving.Some? ==> output == old(output) && !closing
    {
      var request, length := phase.request, phase.length;
      AgreesBody(tale, service, Meant(), Replies(), state, phase, Unread());
      var (after, verdict) := service.answer(state, request, Unread()[..length]);
      match verdict
      case Pass =>
        var body := Unread()[..length];
        assert input[start + length..] == Unread()[length..];
        state, phase, start := after, Idle, start + length;
        return Some((request, body));
      case Panicked =>
        Fail(service.failure(500, "internal error"));
        phase, start := Idle, start + length;
        return None;
      case Say(response) =>
        AnswerSaid(response, after);
        return None;
    }

    /** Queues the reply to a request, the last one if the client keeps the connection no longer. */
    method AnswerSaid(response: Resp, after: S)
      requires Answering() && phase.Body? && phase.length <= |Unread()|
      requires service.answer(state, phase.request, Unread()[..phase.length]) == (after, Say(response))
      requires TurnAgrees(tale, Meant(), Replies(), Unread(), BodyTurn(service, state, phase.request, Unread()[..phase.length]))
      modifies this`output, this`last, this`state, this`phase, this`start, this`closing
      ensures Valid() && old(output) <= output && start >= old(start) && phase.Idle?
    {
      var request, length := phase.request, phase.length;
      var keep := service.keepAlive(request);
      var out := service.encode(response, keep, service.headOnly(request));
      assert |out| == Length(service, response, keep, service.headOnly(request));
      if keep {
        Proceed(out, after, Idle, length);
      } else {
        Finish(out);
        phase, start := Idle, start + length;
      }
    }

    /** Skips what has come of a body that was refused; the refusal is queued exactly when all of it has been skipped. */
    method AnswerRefused() returns (again: bool)
      requires Answering() && phase.Refused?
      modifies this`output, this`last, this`phase, this`start, this`closing
      ensures Valid() && old(output) <= output && start >= old(start)
      ensures if again then closing else Stuck()
    {
      AgreesPast(tale, service, Meant(), Replies(), state, phase, Unread());
      var response := phase.response;
      var skipped := if phase.remaining < |Unread()| then phase.remaining else |Unread()|;
      var remaining := phase.remaining - skipped;
      if remaining > 0 {
        start, phase := start + skipped, Phase.Refused(remaining, response);
        assert Unread() == [];
        return false;
      }
      Fail(response);
      start, phase := start + skipped, Idle;
      return true;
    }

    /** Takes turns as long as it can: it ends stalled, with output over its limit, closing, or with a request
        to hand off. */
    method Answer() returns (stop: Stop<Req>)
      requires Valid()
      modifies this`output, this`last, this`state, this`phase, this`start, this`closing
      ensures Bounded() && old(output) <= output
      ensures match stop {
          case Input => Valid() && (closing || moving.Some? || Stuck())
          case Output => Valid() && |output| - written >= MAX_OUTPUT
          case Closing => Valid() && closing
          case Leaving(request, body) => Agree(Some((request, body))) && moving.None? && !closing
        }
    {
      while true
        invariant Valid() && old(output) <= output
        decreases !closing, |input| - start, if phase.Body? then 2 else if phase.Idle? then 1 else 0
      {
        if closing {
          return Closing;
        }
        if moving.Some? {
          return Input;
        }
        if |output| - written >= MAX_OUTPUT {
          return Output;
        }
        match phase
        case Idle =>
          if Unread() == [] {
            return Input;
          }
          phase := Head(HeadScan(0, 0, false));
        case Head(_) =>
          var again := AnswerHead();
          if !again {
            return Input;
          }
        case Body(_, length) =>
          if |Unread()| < length {
            return Input;
          }
          var leaving := AnswerBody();
          if leaving.Some? {
            return Leaving(leaving.value.0, leaving.value.1);
          }
        case Refused(_, _) =>
          var again := AnswerRefused();
          if !again {
            return Input;
          }
      }
    }

    /** The stream leads further than what was sent: more replies, a request to hand off, or a close. */
    ghost predicate Behind()
      reads this
      requires start <= |input| && written <= |output|
    {
      Meant() != Outcome(Sent(), if closing then End.Closed else More(state, phase.Bare(), Unread()))
    }

    /** With all replies written, the connection is behind exactly when it neither closes nor needs more bytes. */
    lemma {:induction false} Quiet()
      requires Valid() && !Pending()
      ensures moving.None? ==> (Behind() <==> !closing && !Stuck())
      ensures moving.None? ==> (Sent() == Meant().out <==> closing || Ahead().out == [])
      ensures moving.Some? ==> Sent() == Meant().out
      ensures moving.None? && Stuck() ==> Ahead().out == []
    {
      assert Sent() == Replies();
      assert Tells(tale, service);
      if moving.None? && !closing {
        assert Ahead() == Whole(service, state, phase.Bare(), Unread());
        if Stuck() {
          StalledWaits(service, state, phase, Unread());
        } else {
          MovesOn(service, state, phase, Unread());
        }
      }
    }

    // ---- what the loop calls ---------------------------------------------------------------------

    /** Takes in what the socket has, if it is wanted, and takes turns on it; nothing is sent. Afterwards the
        connection is settled, or a request leaves with no reply before it unsent. */
    method Receive(readable: bool, arrivals: seq<Got>) returns (ok: bool, leaving: Option<(Req, bytes)>, count: nat)
      requires Valid() && Gets(arrivals)
      modifies this`input, this`start, this`received, this`ended, this`output, this`last, this`state, this`phase, this`closing, this`full, this`moving
      ensures Bounded() && count <= |arrivals| && received == old(received) + Taken(arrivals[..count])
      ensures old(output) <= output && Sent() == old(Sent())
      ensures !ok ==> Valid()
      ensures ok && leaving.None? ==> Valid() && Settled()
      ensures leaving.Some? ==> ok && Agree(leaving) && !Pending() && !closing
      ensures count == if readable && old(WantsRead()) then Draws(arrivals, old(Room())) else 0
      ensures ended == (old(ended) || Last(arrivals[..count], Eof)) && ok == !Last(arrivals[..count], Broken)
      ensures full ==> old(full) || |output| - written >= MAX_OUTPUT
    {
      ok, count := ReadIfWanted(readable, arrivals);
      leaving := None;
      if ok {
        leaving := AnswerAll();
      }
    }

    method ReadIfWanted(readable: bool, arrivals: seq<Got>) returns (ok: bool, count: nat)
      requires Valid() && Gets(arrivals)
      modifies this`input, this`start, this`received, this`ended
      ensures Valid() && count <= |arrivals| && received == old(received) + Taken(arrivals[..count])
      ensures count == if readable && old(WantsRead()) then Draws(arrivals, old(Room())) else 0
      ensures ended == (old(ended) || Last(arrivals[..count], Eof)) && ok == !Last(arrivals[..count], Broken)
    {
      ok, count := true, 0;
      if readable && WantsRead() {
        ok, count := Read(arrivals);
      }
    }

    /** Takes turns, and keeps a request that is to leave back while replies before it are unsent. */
    method AnswerAll() returns (leaving: Option<(Req, bytes)>)
      requires Valid()
      modifies this`output, this`last, this`state, this`phase, this`start, this`closing, this`full, this`moving
      ensures Bounded() && old(output) <= output
      ensures leaving.None? ==> Valid() && Settled()
      ensures leaving.Some? ==> Agree(leaving) && !Pending() && !closing
      ensures full ==> old(full) || |output| - written >= MAX_OUTPUT
    {
      leaving := None;
      var stop := Answer();
      match stop
      case Leaving(request, body) =>
        if Pending() {
          moving := Some((request, body));
        } else {
          leaving := Some((request, body));
        }
      case Output => full := true;
      case Input =>
      case Closing =>
    }

    /** Writes what the client takes. False when it takes no more, ever. */
    method Write(puts: seq<Put>) returns (ok: bool)
      requires Valid()
      modifies this`output, this`written, this`gone
      ensures Valid() && Replies() == old(Replies()) && old(Sent()) <= Sent()
      ensures ok == Flow(puts, old(|output| - written)).1
      ensures |Sent()| == |old(Sent())| + Flow(puts, old(|output| - written)).0
      ensures !ok ==> Pending()
      ensures old(Settled()) ==> Settled()
    {
      var now;
      now, ok := WriteFrom(puts, |output|, written);
      written := now;
      Forget();
    }

    /** Drops replies from the buffer once all are written. */
    method Forget()
      requires Valid()
      modifies this`output, this`written, this`gone
      ensures Valid() && Replies() == old(Replies()) && Sent() == old(Sent())
      ensures Pending() == old(Pending()) && (old(Pending()) ==> written == old(written) && output == old(output))
    {
      if !Pending() {
        gone, output, written := gone + output, [], 0;
        assert gone + [] == gone;
      }
    }

    /** Sends what the client takes of the replies queued, and decides what becomes of the connection. One that
        closes with all of them sent is behind the stream exactly when its client had closed its end, replies had
        filled up, and more could have been done at once. */
    method Reply(puts: seq<Put>) returns (step: Step<Req>)
      requires Valid() && Settled()
      modifies this`output, this`written, this`gone, this`full, this`moving
      ensures Bounded() && Replies() == old(Replies()) && old(Sent()) <= Sent()
      ensures |Sent()| == |old(Sent())| + Flow(puts, old(|output| - written)).0
      ensures full == (old(full) && !step.Retry?) && moving == (if step.Leave? then None else old(moving))
      ensures Decides(old(Looks()), puts, step) && Looks().waiting == old(Looks()).waiting - Flow(puts, old(Looks()).waiting).0
      ensures Looks().ended == old(ended) && Looks().closing == old(closing)
      ensures step.Keep? ==> Valid() && Settled() && (Pending() || (Stuck() && !Behind() && Sent() == Meant().out && WantsRead()))
      ensures step.Retry? ==> Valid() && !Pending() && old(full) && !ended && !closing
      ensures step.Leave? ==> Agree(Some((step.request, step.body))) && !closing && !Pending() && Sent() == Meant().out
      ensures step.Close? ==> Valid() && (Pending() || closing || ended)
      ensures step.Close? && !Pending() ==> (Behind() <==> ended && full && !closing && !Stuck())
      ensures step.Close? && !Pending() ==> (Sent() == Meant().out <==> closing || Ahead().out == [])
    {
      var ok := Write(puts);
      if !ok {
        return Close;
      }
      if Pending() {
        return Keep;
      }
      step := Onward();
    }

    /** What becomes of a connection whose replies are all written. */
    method Onward() returns (step: Step<Req>)
      requires Valid() && Settled() && !Pending()
      modifies this`full, this`moving
      ensures Bounded() && Decides(old(Looks()), [], step)
      ensures full == (old(full) && !step.Retry?) && moving == (if step.Leave? then None else old(moving))
      ensures step.Keep? ==> Valid() && Settled() && Stuck() && !Behind() && Sent() == Meant().out && WantsRead()
      ensures step.Retry? ==> Valid()
      ensures step.Leave? ==> Agree(Some((step.request, step.body))) && !closing && Sent() == Meant().out
      ensures step.Close? ==> Valid() && (Behind() <==> ended && full && !closing && !Stuck())
      ensures step.Close? ==> (Sent() == Meant().out <==> closing || Ahead().out == [])
    {
      assert Sent() == Replies();
      Quiet();
      if moving.Some? {
        var (request, body) := moving.value;
        moving := None;
        return Leave(request, body);
      }
      if closing || ended {
        return Close;
      }
      if full {
        full := false;
        return Retry;
      }
      return Keep;
    }

    // ---- whole runs -----------------------------------------------------------------------------

    lemma {:induction false} Reads()
      requires Tells(tale, service)
      ensures Meant() == Whole(service, origin, Idle, received)
    {
      var whole := Whole(service, origin, Idle, received);
    }

    /** What was sent is the beginning of what the stream means. */
    lemma {:induction false} Told(leaving: Option<(Req, bytes)>)
      requires Bounded() && Agree(leaving)
      ensures Sent() <= Meant().out
      ensures leaving.Some? && !Pending() ==>
                Meant() == Outcome(Sent(), Moved(state, leaving.value.0, leaving.value.1, Unread()))
    {
      assert Sent() <= Replies();
    }

    /** Where a round leaves the connection, and what the client has been sent by then. */
    ghost predicate Stands(step: Step<Req>, broken: bool)
      reads this
    {
      && Bounded() && Sent() <= Meant().out
      && Tells(tale, service)
      && (step.Keep? || step.Retry? ==> Valid())
      && (step.Keep? ==> Settled())
      && (step.Keep? && !Pending() ==> Stuck() && WantsRead() && !Behind() && Sent() == Meant().out)
      && (step.Leave? ==> !Pending() && Meant() == Outcome(Sent(), Moved(state, step.request, step.body, Unread())))
      && (step.Close? && !broken && !Pending() ==> (Behind() <==> ended && full && !closing && !Stuck()))
    }

    /** One round: answers on, if replies had filled up; receives what has arrived, if the connection is readable;
        and writes what the client takes. */
    method Turns(again: bool, arrivals: seq<Got>, round: Round) returns (step: Step<Req>, broken: bool, count: nat, ghost made: Made<Req>)
      requires Valid() && (again || Settled()) && Gets(arrivals)
      modifies this
      ensures Stands(step, broken) && old(Sent()) <= Sent() && |Sent()| == |old(Sent())| + made.wrote
      ensures count <= |arrivals| && received == old(received) + Taken(arrivals[..count])
      ensures made.Fits(round, arrivals) && made.after == Looks() && made.step == step && made.took == count
      ensures broken == Last(arrivals[..count], Broken)
      ensures made.Begins(again, old(Looks()))
    {
      if again {
        var leaving := AnswerOn();
        if leaving.Some? {
          step := Leave(leaving.value.0, leaving.value.1);
          made := Made(Looks(), false, 0, Looks(), true, 0, step, Looks());
          return step, false, 0, made;
        }
      }
      step, broken, count, made := Exchange(arrivals, round);
    }

    /** Answers on with what has been received. */
    method AnswerOn() returns (leaving: Option<(Req, bytes)>)
      requires Valid()
      modifies this
      ensures Bounded() && received + [] == received == old(received) && Sent() == old(Sent()) && ended == old(ended)
      ensures leaving.None? ==> Valid() && Settled()
      ensures leaving.Some? ==> Stands(Leave(leaving.value.0, leaving.value.1), false) && !Pending() && !closing
    {
      var ok, none;
      ok, leaving, none := Receive(false, []);
      assert received + [] == received;
      if leaving.Some? {
        Told(leaving);
      }
    }

    method Exchange(arrivals: seq<Got>, round: Round) returns (step: Step<Req>, broken: bool, count: nat, ghost made: Made<Req>)
      requires Valid() && Settled() && Gets(arrivals)
      modifies this
      ensures Stands(step, broken) && old(Sent()) <= Sent() && |Sent()| == |old(Sent())| + made.wrote
      ensures count <= |arrivals| && received == old(received) + Taken(arrivals[..count])
      ensures made.Fits(round, arrivals) && made.read && made.begun == old(Looks())
      ensures made.after == Looks() && made.step == step && made.took == count
      ensures broken == Last(arrivals[..count], Broken)
    {
      ghost var begun := Looks();
      var ok, leaving, taken := Receive(round.readable, arrivals);
      ghost var served := Looks();
      broken, count := !ok, taken;
      ghost var wrote;
      step, wrote := Conclude(ok, leaving, round.puts);
      made := Made(begun, true, count, served, leaving.Some?, wrote, step, Looks());
    }

    /** What follows once what came is answered: nothing more when the read failed or a request leaves at once; otherwise
        the client is sent what it takes. */
    method Conclude(ok: bool, leaving: Option<(Req, bytes)>, puts: seq<Put>) returns (step: Step<Req>, ghost wrote: nat)
      requires Bounded() && (leaving.None? ==> Valid()) && (ok && leaving.None? ==> Settled())
      requires leaving.Some? ==> ok && Agree(leaving) && !Pending() && !closing
      modifies this`output, this`written, this`gone, this`full, this`moving
      ensures Stands(step, !ok) && old(Sent()) <= Sent() && |Sent()| == |old(Sent())| + wrote
      ensures Concludes(old(Looks()), !ok, leaving.Some?, puts, wrote, step, Looks())
    {
      wrote := 0;
      if !ok {
        Told(moving);
        return Close, 0;
      }
      if leaving.Some? {
        Told(leaving);
        return Leave(leaving.value.0, leaving.value.1), 0;
      }
      wrote := Flow(puts, |output| - written).0;
      step := Reply(puts);
      Told(if step.Leave? then Some((step.request, step.body)) else moving);
    }

    /** A run of rounds. However the stream is cut into reads and the replies into writes, and wherever
        the run stops, the client has been sent what the whole stream means, up to where replies wait. */
    method Play(again: bool, arrivals: seq<Got>, rounds: seq<Round>)
      returns (step: Step<Req>, broken: bool, at: nat, ghost made: seq<Made<Req>>)
      requires Valid() && (again || Settled()) && Gets(arrivals) && rounds != []
      modifies this
      ensures Stands(step, broken) && old(Sent()) <= Sent()
      ensures Ran(made, rounds, arrivals, at, step, Looks(), broken)
      ensures received == old(received) + Taken(arrivals[..at]) && |Sent()| == |old(Sent())| + Wrote(made)
      ensures made[0].Begins(again, old(Looks()))
      decreases |rounds|, 1
    {
      ghost var first;
      step, broken, at, first := Turns(again, arrivals, rounds[0]);
      made := [first];
      RanOne(first, rounds, arrivals);
      if (step.Keep? || step.Retry?) && |rounds| > 1 {
        step, broken, at, made := PlayOn(first, old(received), old(Sent()), arrivals, rounds, at, step.Retry?);
      }
    }

    /** The rounds after the first. */
    method PlayOn(ghost first: Made<Req>, ghost was: bytes, ghost sent: bytes, arrivals: seq<Got>, rounds: seq<Round>, at: nat, again: bool)
      returns (step: Step<Req>, broken: bool, total: nat, ghost made: seq<Made<Req>>)
      requires Valid() && (again || Settled()) && Gets(arrivals) && |rounds| > 1
      requires at <= |arrivals| && at == first.took && received == was + Taken(arrivals[..at]) && !Last(arrivals[..at], Broken)
      requires sent <= Sent() && |Sent()| == |sent| + first.wrote
      requires first.Fits(rounds[0], arrivals) && first.after == Looks() && (first.step.Keep? || again) && again == first.step.Retry?
      modifies this
      ensures Stands(step, broken) && sent <= Sent()
      ensures Ran(made, rounds, arrivals, total, step, Looks(), broken) && made[0] == first
      ensures received == was + Taken(arrivals[..total]) && |Sent()| == |sent| + Wrote(made)
      decreases |rounds|, 0
    {
      ghost var so, held := Sent(), received;
      var count;
      step, broken, count, made := Play(again, arrivals[at..], rounds[1..]);
      total := at + count;
      made := RanMore(first, made, rounds, arrivals, count, step, Looks(), broken, sent, so, Sent(), was, held, received);
    }
  }

  /** In a round a connection may be readable, and the client takes some of what is written. */
  datatype Round = Round(readable: bool, puts: seq<Put>)

  /** What a round did: how the connection stood when it began to read, whether it came to that, how many reads it
      made, how it stood once what came was answered, whether a request left at once, how much was written, what it did then and how it stood
      in the end. */
  datatype Made<Req> = Made(begun: Look, read: bool, took: nat, served: Look, atOnce: bool, wrote: nat, step: Step<Req>, after: Look)
  {
    /** It read all there was while it was wanted, and if no read failed and nothing left at once, wrote what the
        client took and went on accordingly. */
    predicate Fits(round: Round, arrivals: seq<Got>)
    {
      && (read || atOnce) && took == (if read && round.readable && begun.room.Some? then Draws(arrivals, begun.room.value) else 0)
      && served.ended == (begun.ended || Last(arrivals[..took], Eof))
      && Concludes(served, Last(arrivals[..took], Broken), atOnce, round.puts, wrote, step, after)
    }

    /** It began to read where the connection stood, unless it answered on first. */
    predicate Begins(again: bool, stood: Look)
    {
      begun.ended == stood.ended && if again then begun.Settled() || atOnce else read && begun == stood
    }
  }

  /** What a round does with what it answered. */
  predicate Concludes<Req>(served: Look, broken: bool, atOnce: bool, puts: seq<Put>, wrote: nat, step: Step<Req>, after: Look)
  {
    if broken then step.Close? && !atOnce && wrote == 0 && after == served
    else if atOnce then step.Leave? && wrote == 0 && after == served && served.waiting == 0 && !served.closing
    else
      && Decides(served, puts, step) && wrote == Flow(puts, served.waiting).0
      && after.waiting == served.waiting - wrote && after.ended == served.ended && after.closing == served.closing
      && after.full == (served.full && !step.Retry?) && after.moving == (served.moving && !step.Leave?)
  }

  /** A round after another: one that closes or leaves is the last. */
  predicate Follows<Req>(one: Made<Req>, next: Made<Req>)
  {
    (one.step.Keep? || one.step.Retry?) && next.Begins(one.step.Retry?, one.after)
  }

  /** Rounds one after another, which make `at` reads in all. They go on until one closes or leaves. */
  predicate AllFit<Req>(made: seq<Made<Req>>, rounds: seq<Round>, arrivals: seq<Got>, at: nat)
  {
    && 0 < |made| <= |rounds| && made[0].Fits(rounds[0], arrivals) && made[0].took <= at
    && if |made| == 1 then at == made[0].took && (made[0].step.Keep? || made[0].step.Retry? ==> |rounds| == 1)
       else Follows(made[0], made[1]) && AllFit(made[1..], rounds[1..], arrivals[made[0].took..], at - made[0].took)
  }

  function Wrote<Req>(made: seq<Made<Req>>): nat
  {
    if made == [] then 0 else made[0].wrote + Wrote(made[1..])
  }

  /** A run of rounds that came to this. */
  predicate Ran<Req(==)>(made: seq<Made<Req>>, rounds: seq<Round>, arrivals: seq<Got>, at: nat, step: Step<Req>, after: Look, broken: bool)
  {
    && at <= |arrivals| && AllFit(made, rounds, arrivals, at) && broken == Last(arrivals[..at], Broken)
    && made[|made| - 1].step == step && made[|made| - 1].after == after
  }

  lemma {:induction false} RanOne<Req>(first: Made<Req>, rounds: seq<Round>, arrivals: seq<Got>)
    requires rounds != [] && first.Fits(rounds[0], arrivals)
    ensures first.step.Keep? || first.step.Retry? ==> !Last(arrivals[..first.took], Broken)
    ensures first.step.Close? || first.step.Leave? || |rounds| == 1 ==>
              Ran([first], rounds, arrivals, first.took, first.step, first.after, Last(arrivals[..first.took], Broken))
    ensures Wrote([first]) == first.wrote
  {
    assert Wrote([first][1..]) == 0;
  }

  lemma {:induction false} RanMore<Req>(first: Made<Req>, more: seq<Made<Req>>, rounds: seq<Round>, arrivals: seq<Got>, count: nat,
                                       step: Step<Req>, after: Look, broken: bool,
                                       a: bytes, b: bytes, c: bytes, was: bytes, held: bytes, now: bytes) returns (all: seq<Made<Req>>)
    requires rounds != [] && first.Fits(rounds[0], arrivals) && Ran(more, rounds[1..], arrivals[first.took..], count, step, after, broken)
    requires Follows(first, more[0]) && !Last(arrivals[..first.took], Broken)
    requires a <= b <= c && |b| == |a| + first.wrote && |c| == |b| + Wrote(more)
    requires held == was + Taken(arrivals[..first.took]) && now == held + Taken(arrivals[first.took..][..count])
    ensures Ran(all, rounds, arrivals, first.took + count, step, after, broken) && all[0] == first
    ensures a <= c && |c| == |a| + Wrote(all) && now == was + Taken(arrivals[..first.took + count])
  {
    all := [first] + more;
    OneMore(first, more, rounds, arrivals, count);
    ReceivedOn(was, held, now, arrivals, first.took, count);
    LastOn(arrivals, first.took, count, Broken);
  }

  lemma {:induction false} OneMore<Req>(first: Made<Req>, more: seq<Made<Req>>, rounds: seq<Round>, arrivals: seq<Got>, count: nat)
    requires rounds != [] && first.Fits(rounds[0], arrivals) && AllFit(more, rounds[1..], arrivals[first.took..], count)
    requires Follows(first, more[0])
    ensures AllFit([first] + more, rounds, arrivals, first.took + count)
    ensures Wrote([first] + more) == first.wrote + Wrote(more)
  {
    assert ([first] + more)[1..] == more;
  }

  lemma {:induction false} ReceivedOn(was: bytes, held: bytes, now: bytes, arrivals: seq<Got>, at: nat, count: nat)
    requires at <= |arrivals| && count <= |arrivals| - at
    requires held == was + Taken(arrivals[..at]) && now == held + Taken(arrivals[at..][..count])
    ensures now == was + Taken(arrivals[..at + count])
  {
    TakenOn(arrivals, at, count);
  }

  lemma {:induction false} LastOn(arrivals: seq<Got>, at: nat, count: nat, got: Got)
    requires at <= |arrivals| && count <= |arrivals| - at
    ensures Last(arrivals[..at + count], got) <==> if count == 0 then Last(arrivals[..at], got) else Last(arrivals[at..][..count], got)
  {}

  /** A conversation from its beginning. What the client has been sent, however the stream was cut and
      whatever pauses the writing made, is the beginning of the replies to the stream read in one
      piece; all of them once the connection waits with nothing to write; and those before the request
      it leaves with. When it closes with all replies written, no read or write having failed, it has done all
      the stream leads to, unless the client closed its end while replies had filled up and more could have been
      done at once. */
  method Converse<S(!new), Req(!new), Resp(!new)>(service: Service<S, Req, Resp>, state: S, arrivals: seq<Got>, rounds: seq<Round>)
    returns (conn: Conn<S, Req, Resp>, step: Step<Req>, broken: bool, at: nat, ghost made: seq<Made<Req>>)
    requires Gets(arrivals) && rounds != []
    ensures fresh(conn) && conn.Bounded() && at <= |arrivals|
    ensures Ran(made, rounds, arrivals, at, step, conn.Looks(), broken) && made[0].read && made[0].begun == FRESH
    ensures |conn.Sent()| == Wrote(made)
    ensures var whole := Whole(service, state, Idle, Taken(arrivals[..at]));
            && conn.Sent() <= whole.out
            && (step.Keep? && !conn.Pending() ==>
                  whole == Outcome(conn.Sent(), More(conn.state, conn.phase.Bare(), conn.Unread())) && conn.WantsRead())
            && (step.Leave? ==> whole == Outcome(conn.Sent(), Moved(conn.state, step.request, step.body, conn.Unread())))
            && (step.Close? && !broken && !conn.Pending() ==>
                  (whole == Outcome(conn.Sent(), if conn.closing then End.Closed else More(conn.state, conn.phase.Bare(), conn.Unread()))
                   <==> !(conn.ended && conn.full && !conn.closing && !Stalled(conn.phase, conn.Unread()))))
  {
    conn := new Conn(service, state);
    step, broken, at, made := conn.Play(false, arrivals, rounds);
    assert [] + Taken(arrivals[..at]) == Taken(arrivals[..at]);
    conn.Reads();
  }

  // ---- a connection cut short ------------------------------------------------------------------

  /** The shortest head: one line and a blank one. */
  function ShortHead(line: byte): bytes
  {
    [line, LF, LF]
  }

  lemma {:induction false} ShortHeadFramed(line: byte)
    requires line != LF && line != CR
    ensures FrameHead(ShortHead(line)) == Framed(3, ShortHead(line))
  {
    var head := ShortHead(line);
    assert NextLine(head, 0) == Some(1) by {
      assert NextLine(head, 1) == Some(1);
    }
    assert NextLine(head, 2) == Some(2);
    assert !Blank(head, 0, 1) && Blank(head, 2, 2);
    assert HeadEndFrom(head, 2, true) == Some(3);
    assert head[0..3] == head;
  }

  const LONG: nat := READ_SIZE - 3

  /** A service whose replies are large. A head whose line starts with 1 has a long body, any other none. */
  function Plain(): Service<(), nat, ()>
  {
    Service(READ_SIZE, (head: bytes) => if head != [] && head[0] == 1 then Request(LONG, LONG) else Request(0, 0),
            (state: (), request: nat) => (state, Pass), (state: (), request: nat, body: bytes) => (state, Say(())),
            (status: nat, message: string) => (), (request: nat) => true, (request: nat) => false,
            (response: (), keep: bool, headOnly: bool) => seq(MAX_OUTPUT, i => 0))
  }

  function LongBody(): bytes
  {
    seq(LONG, i => 0)
  }

  function BothRequests(): seq<Asked<nat>>
  {
    [Asked(ShortHead(1), LONG, LongBody()), Asked(ShortHead(2), 0, [])]
  }

  /** What the two requests lead to: a reply to each. */
  lemma {:induction false} BothMean(stream: bytes)
    requires stream == ShortHead(1) + (LongBody() + ShortHead(2))
    ensures var whole := Whole(Plain(), (), Idle, stream); whole.end.More? && |whole.out| == 2 * MAX_OUTPUT
  {
    ShortHeadFramed(1);
    ShortHeadFramed(2);
    var all: seq<Asked<nat>> := BothRequests();
    forall i | 0 <= i < |all| ensures Sound(Plain(), all[i]) {}
    StreamAnswers(Plain(), (), all);
    var later: seq<Asked<nat>> := all[1..];
    assert later == [all[1]] && later[1..] == [];
    assert Stream(all[1..]) == ShortHead(2);
    assert Stream(all) == stream;
    var second := Answers(Plain(), (), all[1..]);
    assert Answers(Plain(), (), []) == Outcome([], More((), Idle, []));
    assert |second.out| == MAX_OUTPUT && second.end.More?;
  }

  /** The first head alone leaves the connection waiting for the body. */
  lemma {:induction false} HeadMeans()
    ensures Whole(Plain(), (), Idle, ShortHead(1)) == Outcome([], More((), Body(LONG, LONG), []))
  {
    ShortHeadFramed(1);
    var head := ShortHead(1);
    assert head[3..] == [];
    assert HeadTurn(Plain(), (), head, 3) == Turn.Reply([], (), Body(LONG, LONG), 3);
    assert Whole(Plain(), (), Body(LONG, LONG), []) == Outcome([], More((), Body(LONG, LONG), []));
  }

  lemma {:induction false} TakenPair(chunk: bytes)
    ensures Taken([Bytes(chunk), Eof]) == chunk && Taken([Bytes(chunk)]) == chunk
  {
    assert [Bytes(chunk), Eof][1..] == [Eof] && [Eof][1..] == [] && [Bytes(chunk)][1..] == [];
    assert chunk + [] == chunk;
  }

  lemma {:induction false} DrawsPair(chunk: bytes, room: int)
    requires 0 < |chunk| <= READ_SIZE <= room
    ensures Draws([Bytes(chunk)], room) == 1 && (|chunk| == READ_SIZE < room ==> Draws([Bytes(chunk), Eof], room) == 2)
  {
    assert [Bytes(chunk), Eof][1..] == [Eof] && [Bytes(chunk)][1..] == [];
  }

  /** All that arrives is read, and the connection does not end with it. */
  method Arrive<S(!new), Req(!new), Resp(!new)>(conn: Conn<S, Req, Resp>, arrivals: seq<Got>)
    requires conn.Valid() && conn.WantsRead() && Gets(arrivals)
    requires Draws(arrivals, conn.Room()) == |arrivals| && !Last(arrivals, Broken)
    requires Whole(conn.service, conn.origin, Idle, conn.received + Taken(arrivals)).end.More?
    modifies conn
    ensures conn.Valid() && conn.Settled() && !conn.closing && conn.moving.None?
    ensures conn.received == old(conn.received) + Taken(arrivals) && conn.ended == Last(arrivals, Eof)
    ensures conn.gone == old(conn.gone) && conn.written == old(conn.written)
    ensures conn.full ==> old(conn.full) || |conn.output| - conn.written >= MAX_OUTPUT
  {
    var ok, leaving, count := conn.Receive(true, arrivals);
    assert arrivals[..count] == arrivals;
    conn.Reads();
  }

  /** The connection has a request's head and waits for its body. */
  ghost predicate AwaitsBody(conn: Conn<(), nat, ()>)
    reads conn
  {
    && conn.Valid() && conn.Settled() && conn.service == Plain() && conn.received == ShortHead(1)
    && conn.gone == [] && conn.output == [] && conn.written == 0 && conn.WantsRead() && !conn.full
    && conn.phase == Body(LONG, LONG) && conn.Unread() == []
  }

  method HeadAlone(conn: Conn<(), nat, ()>)
    requires conn.Valid() && conn.Settled() && conn.service == Plain() && conn.received == []
    requires conn.gone == [] && conn.output == [] && conn.written == 0 && conn.WantsRead() && !conn.full
    requires conn.Room() >= READ_SIZE
    modifies conn
    ensures AwaitsBody(conn)
  {
    HeadArrives(conn);
    HeadWaits(conn);
    WriteNone(conn);
  }

  method HeadArrives(conn: Conn<(), nat, ()>)
    requires conn.Valid() && conn.WantsRead() && conn.service == Plain() && conn.received == []
    requires conn.Room() >= READ_SIZE && !conn.full
    modifies conn
    ensures conn.Valid() && conn.Settled() && !conn.ended && conn.received == ShortHead(1)
    ensures conn.gone == old(conn.gone) && conn.written == old(conn.written)
    ensures conn.full ==> |conn.output| - conn.written >= MAX_OUTPUT
  {
    var arrivals := [Bytes(ShortHead(1))];
    TakenPair(ShortHead(1));
    DrawsPair(ShortHead(1), conn.Room());
    assert Whole(Plain(), (), Idle, ShortHead(1)).end.More? by { HeadMeans(); }
    assert conn.origin == () && conn.received + Taken(arrivals) == ShortHead(1);
    Arrive(conn, arrivals);
  }

  /** With nothing to write, a connection that is to stay is kept as it is. */
  method WriteNone<S(!new), Req(!new), Resp(!new)>(conn: Conn<S, Req, Resp>)
    requires conn.Valid() && conn.Settled() && conn.gone == [] && conn.output == [] && conn.written == 0
    requires !conn.full && !conn.closing && !conn.ended && conn.moving.None?
    modifies conn`output, conn`written, conn`gone, conn`full, conn`moving
    ensures conn.Valid() && conn.Settled() && conn.gone == [] && conn.output == [] && conn.written == 0
    ensures !conn.full && conn.moving.None?
  {
    var step := conn.Reply([]);
  }

  lemma {:induction false} HeadWaits(conn: Conn<(), nat, ()>)
    requires conn.Valid() && conn.Settled() && conn.service == Plain()
    requires conn.full ==> |conn.output| - conn.written >= MAX_OUTPUT
    requires conn.received == ShortHead(1)
    ensures conn.Replies() == [] && conn.Stuck() && !conn.closing && conn.moving.None? && !conn.full
    ensures conn.phase == Body(LONG, LONG) && conn.Unread() == []
  {
    HeadMeans();
    conn.Reads();
    assert conn.origin == () && conn.Meant() == Outcome([], More((), Body(LONG, LONG), []));
    assert conn.Ahead().After(conn.Replies()) == conn.Meant();
    assert conn.Replies() == [];
    StalledWaits(conn.service, conn.state, conn.phase, conn.Unread());
  }

  method BodyAndEnd(conn: Conn<(), nat, ()>, chunk: bytes)
    requires AwaitsBody(conn) && chunk == LongBody() + ShortHead(2)
    modifies conn
    ensures conn.Valid() && conn.Settled() && conn.received == ShortHead(1) + chunk
    ensures conn.gone == [] && conn.written == 0 && conn.ended && !conn.closing && conn.moving.None?
  {
    TakenPair(chunk);
    DrawsPair(chunk, conn.Room());
    var arrivals := [Bytes(chunk), Eof];
    BothMean(conn.received + chunk);
    assert conn.origin == () && conn.received + Taken(arrivals) == conn.received + chunk;
    Arrive(conn, arrivals);
  }

  /** A client sends a head; then, at one time, the body, another request, and its end. The reply to the first
      request fills up, and once it is written the connection closes: the second is never answered. */
  method ClosingCutsShort() returns (conn: Conn<(), nat, ()>, arrivals: seq<Got>, step: Step<nat>)
    ensures fresh(conn) && conn.Valid() && step.Close? && !conn.Pending()
    ensures conn.received == Taken(arrivals) && Last(arrivals, Eof)
    ensures conn.Sent() < Whole(Plain(), (), Idle, Taken(arrivals)).out && conn.Behind()
  {
    conn := new Conn(Plain(), ());
    HeadAlone(conn);
    var chunk := LongBody() + ShortHead(2);
    BodyAndEnd(conn, chunk);
    arrivals := [Bytes(ShortHead(1)), Bytes(chunk), Eof];
    assert Taken(arrivals) == ShortHead(1) + chunk by {
      assert arrivals[1..] == [Bytes(chunk), Eof];
      TakenPair(chunk);
    }
    BothMean(Taken(arrivals));
    conn.Reads();
    step := WriteAll(conn);
    conn.Told(None);
  }

  method WriteAll(conn: Conn<(), nat, ()>) returns (step: Step<nat>)
    requires conn.Valid() && conn.Settled() && conn.service == Plain() && conn.gone == [] && conn.written == 0
    requires conn.ended && !conn.closing && conn.moving.None? && conn.Meant().end.More?
    modifies conn`output, conn`written, conn`gone, conn`full, conn`moving
    ensures conn.Valid() && step.Close? && !conn.Pending() && conn.moving.None? && |conn.Sent()| < 2 * MAX_OUTPUT
  {
    assert conn.last <= MAX_OUTPUT;
    step := conn.Reply([Took(2 * MAX_OUTPUT)]);
  }
}
