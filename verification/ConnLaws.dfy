/**
 What a connection makes of one request after another, said by what its service's own functions give:
 how it parses, refuses, answers, fails and encodes.
 */
module ConnectionLaws {
  import opened Common
  import opened Heads
  import opened Connection

  /** A response after which the connection closes. */
  function Last<S, Req, Resp>(svc: Service<S, Req, Resp>, response: Resp): Outcome<S, Req, Resp>
  {
    Outcome(svc.encode(response, false, false), End.Closed)
  }

  /** No whole head yet: nothing is done. Too large a one: it is answered 431, and the connection closes. */
  lemma {:induction false} HeadMissing<S, Req, Resp>(svc: Service<S, Req, Resp>, state: S, stream: bytes)
    ensures FrameHead(stream).Partial? ==> Whole(svc, state, Idle, stream) == Outcome([], More(state, Idle, stream))
    ensures FrameHead(stream).TooLarge? ==>
              Whole(svc, state, Idle, stream) == Last(svc, svc.failure(431, "request head too large"))
  {
    assert stream[0..] == stream;
  }

  /** A head that does not parse is answered so, or not at all when there is no more to come, and a body larger than any
      allowed is answered 413. Either closes the connection. */
  lemma {:induction false} HeadBad<S, Req, Resp>(svc: Service<S, Req, Resp>, state: S, stream: bytes)
    requires FrameHead(stream).Framed?
    ensures var whole := Whole(svc, state, Idle, stream);
            match svc.parse(FrameHead(stream).head) {
              case Bad(status, message) => whole == Last(svc, svc.failure(status, message))
              case Gone => whole == Outcome([], End.Closed)
              case Request(request, length) => length > svc.maxBody ==> whole == Last(svc, svc.failure(413, "request body too large"))
            }
  {}

  /** A request without a body is not refused, only answered. */
  lemma {:induction false} BodilessAnswered<S, Req, Resp>(svc: Service<S, Req, Resp>, state: S, stream: bytes, request: Req)
    requires FrameHead(stream).Framed? && svc.parse(FrameHead(stream).head) == Request(request, 0)
    ensures Whole(svc, state, Idle, stream) == Answered(svc, svc.answer(state, request, []), request, [], stream[FrameHead(stream).end..])
  {
    var end := FrameHead(stream).end;
    HeadTurned(svc, state, stream, state, Body(request, 0));
    assert stream[end..][..0] == [] && stream[end..][0..] == stream[end..];
    BodyAnswered(svc, state, request, 0, stream[end..]);
  }

  /** A request with a body that is all there: what `refuse` says, its body read past, is the last that is sent; when it
      panics, 500 is; and when it lets the request pass, it is answered, in the state it left. */
  lemma {:induction false} BodyJudged<S, Req, Resp>(svc: Service<S, Req, Resp>, state: S, stream: bytes, request: Req, length: nat)
    requires FrameHead(stream).Framed? && svc.parse(FrameHead(stream).head) == Request(request, length)
    requires 0 < length <= svc.maxBody && length <= |stream| - FrameHead(stream).end
    ensures var whole, rest := Whole(svc, state, Idle, stream), stream[FrameHead(stream).end..];
            var (after, verdict) := svc.refuse(state, request);
            match verdict {
              case Say(response) => whole == Last(svc, response)
              case Panicked => whole == Last(svc, svc.failure(500, "internal error"))
              case Pass => whole == Answered(svc, svc.answer(after, request, rest[..length]), request, rest[..length], rest[length..])
            }
  {
    var rest := stream[FrameHead(stream).end..];
    var (after, verdict) := svc.refuse(state, request);
    match verdict {
      case Say(response) => HeadTurned(svc, state, stream, after, Phase.Refused(length, response));
      case Panicked => HeadTurned(svc, state, stream, after, Phase.Refused(length, svc.failure(500, "internal error")));
      case Pass =>
        HeadTurned(svc, state, stream, after, Body(request, length));
        BodyAnswered(svc, after, request, length, rest);
    }
  }

  /** A body that is not all there is waited for, refused or not, and nothing is sent for it yet. */
  lemma {:induction false} BodyAwaited<S, Req, Resp>(svc: Service<S, Req, Resp>, state: S, stream: bytes, request: Req, length: nat)
    requires FrameHead(stream).Framed? && svc.parse(FrameHead(stream).head) == Request(request, length)
    requires |stream| - FrameHead(stream).end < length <= svc.maxBody
    ensures var whole, rest := Whole(svc, state, Idle, stream), stream[FrameHead(stream).end..];
            var (after, verdict) := svc.refuse(state, request);
            match verdict {
              case Say(response) => whole == Outcome([], More(after, Phase.Refused(length - |rest|, response), []))
              case Panicked => whole == Outcome([], More(after, Phase.Refused(length - |rest|, svc.failure(500, "internal error")), []))
              case Pass => whole == Outcome([], More(after, Body(request, length), rest))
            }
  {
    var rest := stream[FrameHead(stream).end..];
    var (after, verdict) := svc.refuse(state, request);
    assert rest[0..] == rest && rest[|rest|..] == [];
    match verdict {
      case Say(response) => HeadTurned(svc, state, stream, after, Phase.Refused(length, response));
      case Panicked => HeadTurned(svc, state, stream, after, Phase.Refused(length, svc.failure(500, "internal error")));
      case Pass => HeadTurned(svc, state, stream, after, Body(request, length));
    }
  }

  /** What an answer leads to, with what comes after the request. */
  function Answered<S, Req, Resp>(svc: Service<S, Req, Resp>, given: (S, Verdict<Resp>), request: Req, body: bytes, later: bytes): Outcome<S, Req, Resp>
  {
    match given.1
    case Pass => Outcome([], Moved(given.0, request, body, later))
    case Panicked => Last(svc, svc.failure(500, "internal error"))
    case Say(response) =>
      var out := svc.encode(response, svc.keepAlive(request), svc.headOnly(request));
      if svc.keepAlive(request) then
        var next := Whole(svc, given.0, Idle, later);
        Outcome(out + next.out, next.end)
      else Outcome(out, End.Closed)
  }

  lemma {:induction false} HeadTurned<S, Req, Resp>(
      svc: Service<S, Req, Resp>, state: S, stream: bytes, after: S, phase: Phase<Req, Resp>)
    requires FrameHead(stream).Framed? && !phase.Head?
    requires HeadTurn(svc, state, FrameHead(stream).head, FrameHead(stream).end) == Turn.Reply([], after, phase, FrameHead(stream).end)
    ensures Whole(svc, state, Idle, stream) == Whole(svc, after, phase, stream[FrameHead(stream).end..])
  {
    var whole := Whole(svc, after, phase, stream[FrameHead(stream).end..]);
    assert [] + whole.out == whole.out;
  }

  lemma {:induction false} BodyAnswered<S, Req, Resp>(svc: Service<S, Req, Resp>, state: S, request: Req, length: nat, rest: bytes)
    requires length <= |rest|
    ensures Whole(svc, state, Body(request, length), rest) ==
            Answered(svc, svc.answer(state, request, rest[..length]), request, rest[..length], rest[length..])
  {}
}
