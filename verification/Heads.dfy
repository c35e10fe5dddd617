/**
 The end of a request head, found in all the bytes at once or as they come.

 A head is a run of lines ended by a blank one; blank lines before the first that is not
 are skipped. `HeadEnd` is the definition, `HeadScan` keeps what a search needs to go on, so
 that no byte is gone over twice.
 */
module Heads {
  import opened Common

  const LF: byte := 10
  const CR: byte := 13

  /** A line without its line feed, and without the carriage return before that. */
  function TrimEol(line: bytes): bytes
  {
    var text := if line != [] && line[|line| - 1] == LF then line[..|line| - 1] else line;
    if text != [] && text[|text| - 1] == CR then text[..|text| - 1] else text
  }

  /** No line feed lies between the two marks. */
  ghost predicate NoneIn(buf: bytes, from: nat, to: nat)
    requires to <= |buf|
  {
    forall i :: from <= i < to ==> buf[i] != LF
  }

  /** Where the next line feed is. */
  function NextLine(buf: bytes, from: nat): (r: Option<nat>)
    requires from <= |buf|
    ensures r.None? <==> NoneIn(buf, from, |buf|)
    ensures r.Some? ==> from <= r.value < |buf| && buf[r.value] == LF && NoneIn(buf, from, r.value)
    decreases |buf| - from
  {
    if from == |buf| then None
    else if buf[from] == LF then Some(from)
    else NextLine(buf, from + 1)
  }

  /** Nothing but a line ending goes from `from` to the line feed. */
  predicate Blank(buf: bytes, from: nat, newline: nat)
    requires from <= newline < |buf|
  {
    newline == from || (newline == from + 1 && buf[from] == CR)
  }

  lemma {:induction false} BlankIsTrimmed(buf: bytes, from: nat, newline: nat)
    requires from <= newline < |buf| && buf[newline] == LF
    ensures Blank(buf, from, newline) <==> TrimEol(buf[from..newline + 1]) == []
  {
    var line := buf[from..newline + 1];
    assert line[|line| - 1] == LF;
    if newline > from {
      assert line[..|line| - 1][|line| - 2] == buf[newline - 1];
    }
  }

  /** The length of the head, reading line by line from `from`; `started` once a line was not blank. */
  function HeadEndFrom(buf: bytes, from: nat, started: bool): (r: Option<nat>)
    requires from <= |buf|
    ensures r.Some? ==> from < r.value <= |buf|
    decreases |buf| - from
  {
    match NextLine(buf, from)
    case None => None
    case Some(newline) =>
      var blank := Blank(buf, from, newline);
      if blank && started then Some(newline + 1)
      else HeadEndFrom(buf, newline + 1, started || !blank)
  }

  /** How many bytes the head takes, its blank line included; nothing as long as that is not among them. */
  function HeadEnd(buf: bytes): (r: Option<nat>)
    ensures r.Some? ==> 0 < r.value <= |buf|
  {
    HeadEndFrom(buf, 0, false)
  }

  // ---- more bytes ------------------------------------------------------------------

  lemma {:induction false} NextLineGrows(buf: bytes, more: bytes, from: nat)
    requires from <= |buf|
    ensures NextLine(buf, from).Some? ==> NextLine(buf + more, from) == NextLine(buf, from)
    ensures NextLine(buf, from).None? && NextLine(buf + more, from).Some? ==> NextLine(buf + more, from).value >= |buf|
    decreases |buf| - from
  {
    if from < |buf| && buf[from] != LF {
      NextLineGrows(buf, more, from + 1);
    }
  }

  /** A head that has ended goes on ending there; one that has not ends past what has arrived. */
  lemma {:induction false} HeadEndGrows(buf: bytes, more: bytes, from: nat, started: bool)
    requires from <= |buf|
    ensures HeadEndFrom(buf, from, started).Some? ==> HeadEndFrom(buf + more, from, started) == HeadEndFrom(buf, from, started)
    ensures HeadEndFrom(buf, from, started).None? && HeadEndFrom(buf + more, from, started).Some? ==>
              HeadEndFrom(buf + more, from, started).value > |buf|
    decreases |buf| - from
  {
    NextLineGrows(buf, more, from);
    match NextLine(buf, from)
    case None =>
      if NextLine(buf + more, from).Some? {
        BeyondLine(buf + more, from, started);
      }
    case Some(newline) =>
      HeadEndGrows(buf, more, newline + 1, started || !Blank(buf, from, newline));
  }

  lemma {:induction false} BeyondLine(buf: bytes, from: nat, started: bool)
    requires from <= |buf| && NextLine(buf, from).Some?
    ensures HeadEndFrom(buf, from, started).Some? ==> HeadEndFrom(buf, from, started).value > NextLine(buf, from).value
  {}

  // ---- scanning ---------------------------------------------------------------------

  /** Reading whole lines from `from` comes to `line`, without the head ending. */
  ghost predicate Leads(buf: bytes, from: nat, started: bool, line: nat, startedThen: bool)
    requires from <= |buf|
    decreases |buf| - from
  {
    if from == line then started == startedThen
    else
      var newline := NextLine(buf, from);
      && newline.Some? && newline.value < line
      && !(Blank(buf, from, newline.value) && started)
      && Leads(buf, newline.value + 1, started || !Blank(buf, from, newline.value), line, startedThen)
  }

  lemma {:induction false} LeadsInside(buf: bytes, from: nat, started: bool, line: nat, startedThen: bool)
    requires from <= |buf| && Leads(buf, from, started, line, startedThen)
    ensures from <= line <= |buf|
    ensures HeadEndFrom(buf, from, started) == HeadEndFrom(buf, line, startedThen)
    decreases |buf| - from
  {
    if from != line {
      var newline := NextLine(buf, from).value;
      var after := started || !Blank(buf, from, newline);
      HeadEndStep(buf, from, started, newline, after);
      LeadsInside(buf, newline + 1, after, line, startedThen);
    }
  }

  lemma {:induction false} HeadEndStep(buf: bytes, from: nat, started: bool, newline: nat, after: bool)
    requires from <= |buf| && NextLine(buf, from) == Some(newline)
    requires after == (started || !Blank(buf, from, newline))
    requires !(Blank(buf, from, newline) && started)
    ensures HeadEndFrom(buf, from, started) == HeadEndFrom(buf, newline + 1, after)
  {}

  lemma {:induction false} LeadsGrows(buf: bytes, more: bytes, from: nat, started: bool, line: nat, startedThen: bool)
    requires from <= |buf| && Leads(buf, from, started, line, startedThen)
    ensures Leads(buf + more, from, started, line, startedThen)
    decreases |buf| - from
  {
    if from != line {
      var newline := NextLine(buf, from).value;
      NextLineGrows(buf, more, from);
      LeadsGrows(buf, more, newline + 1, started || !Blank(buf, from, newline), line, startedThen);
    }
  }

  lemma {:induction false} LeadsOn(buf: bytes, from: nat, started: bool, line: nat, startedThen: bool)
    requires from <= |buf| && Leads(buf, from, started, line, startedThen) && line <= |buf|
    requires NextLine(buf, line).Some? && !(Blank(buf, line, NextLine(buf, line).value) && startedThen)
    ensures Leads(buf, from, started, NextLine(buf, line).value + 1, startedThen || !Blank(buf, line, NextLine(buf, line).value))
    decreases |buf| - from
  {
    if from != line {
      var newline := NextLine(buf, from).value;
      LeadsInside(buf, newline + 1, started || !Blank(buf, from, newline), line, startedThen);
      LeadsOn(buf, newline + 1, started || !Blank(buf, from, newline), line, startedThen);
    }
  }

  /** How far a search has come: the start of its current line, the bytes it has seen, and whether it is past
      the blank lines in front. */
  datatype HeadScan = HeadScan(line: nat, scanned: nat, started: bool)

  ghost predicate ScanOk(scan: HeadScan, buf: bytes)
  {
    && scan.line <= scan.scanned <= |buf|
    && NoneIn(buf, scan.line, scan.scanned)
    && Leads(buf, 0, false, scan.line, scan.started)
  }

  lemma {:induction false} ScanGrows(scan: HeadScan, buf: bytes, more: bytes)
    requires ScanOk(scan, buf)
    ensures ScanOk(scan, buf + more)
  {
    LeadsGrows(buf, more, 0, false, scan.line, scan.started);
  }

  lemma {:induction false} NextLineSkips(buf: bytes, from: nat, to: nat)
    requires from <= to <= |buf| && NoneIn(buf, from, to)
    ensures NextLine(buf, from) == NextLine(buf, to)
    decreases |buf| - from
  {
    if from < to {
      NextLineSkips(buf, from + 1, to);
    }
  }

  lemma {:induction false} ScanLine(scan: HeadScan, buf: bytes, newline: nat, blank: bool)
    requires ScanOk(scan, buf) && NextLine(buf, scan.scanned) == Some(newline)
    requires blank == (TrimEol(buf[scan.line..newline + 1]) == [])
    ensures blank && scan.started ==> HeadEnd(buf) == Some(newline + 1)
    ensures !(blank && scan.started) ==> ScanOk(HeadScan(newline + 1, newline + 1, scan.started || !blank), buf)
  {
    NextLineSkips(buf, scan.line, scan.scanned);
    BlankIsTrimmed(buf, scan.line, newline);
    LeadsInside(buf, 0, false, scan.line, scan.started);
    if !(blank && scan.started) {
      LeadsOn(buf, 0, false, scan.line, scan.started);
    }
  }

  lemma {:induction false} ScanOut(scan: HeadScan, buf: bytes)
    requires ScanOk(scan, buf) && NextLine(buf, scan.scanned).None?
    ensures HeadEnd(buf).None? && ScanOk(scan.(scanned := |buf|), buf)
  {
    NextLineSkips(buf, scan.line, scan.scanned);
    LeadsInside(buf, 0, false, scan.line, scan.started);
  }

  /** Goes on looking for the end of the head where it left off. */
  method ScanEnd(scan: HeadScan, buf: bytes) returns (now: HeadScan, end: Option<nat>)
    requires ScanOk(scan, buf)
    ensures end == HeadEnd(buf)
    ensures end.None? ==> ScanOk(now, buf) && now.scanned == |buf|
  {
    now := scan;
    var at := NextLine(buf, now.scanned);
    while at.Some?
      invariant ScanOk(now, buf) && at == NextLine(buf, now.scanned)
      decreases |buf| - now.scanned
    {
      var newline := at.value;
      var blank := TrimEol(buf[now.line..newline + 1]) == [];
      ScanLine(now, buf, newline, blank);
      if blank && now.started {
        return now, Some(newline + 1);
      }
      now := HeadScan(newline + 1, newline + 1, now.started || !blank);
      at := NextLine(buf, now.scanned);
    }
    ScanOut(now, buf);
    now := now.(scanned := |buf|);
    end := None;
  }

  // ---- what a head is -------------------------------------------------------------------

  const MAX_HEAD: nat := 16 * 1024

  /** What the bytes of a stream begin with: a head without the blank lines before it, one past the
      largest size, or not a whole head yet. */
  datatype Framing = Partial | TooLarge | Framed(end: nat, head: bytes)

  /** Where the first line that is not blank starts. */
  function Skipped(buf: bytes, from: nat): (r: nat)
    requires from <= |buf|
    ensures from <= r <= |buf|
    decreases |buf| - from
  {
    match NextLine(buf, from)
    case None => from
    case Some(newline) => if Blank(buf, from, newline) then Skipped(buf, newline + 1) else from
  }

  function FrameHead(buf: bytes): (r: Framing)
    ensures r.Framed? ==> 0 < r.end <= |buf| && r.end <= MAX_HEAD
  {
    match HeadEnd(buf)
    case None => if |buf| > MAX_HEAD then TooLarge else Partial
    case Some(end) =>
      if end > MAX_HEAD then TooLarge
      else HeadSkips(buf, 0); Framed(end, buf[Skipped(buf, 0)..end])
  }

  lemma {:induction false} HeadSkips(buf: bytes, from: nat)
    requires from <= |buf|
    ensures HeadEndFrom(buf, from, false).Some? ==> Skipped(buf, from) < HeadEndFrom(buf, from, false).value
    decreases |buf| - from
  {
    var newline := NextLine(buf, from);
    if newline.Some? && Blank(buf, from, newline.value) {
      HeadSkips(buf, newline.value + 1);
    }
  }

  lemma {:induction false} SkippedGrows(buf: bytes, more: bytes, from: nat)
    requires from <= |buf| && HeadEndFrom(buf, from, false).Some?
    ensures Skipped(buf + more, from) == Skipped(buf, from)
    decreases |buf| - from
  {
    NextLineGrows(buf, more, from);
    var newline := NextLine(buf, from).value;
    if Blank(buf, from, newline) {
      SkippedGrows(buf, more, newline + 1);
    }
  }

  /** What a stream begins with is settled once it is not partial: what arrives later changes nothing. */
  lemma {:induction false} FrameGrows(buf: bytes, more: bytes)
    ensures !FrameHead(buf).Partial? ==> FrameHead(buf + more) == FrameHead(buf)
  {
    HeadEndGrows(buf, more, 0, false);
    if HeadEnd(buf).Some? {
      HeadSkips(buf, 0);
      SkippedGrows(buf, more, 0);
      var end := HeadEnd(buf).value;
      assert buf[Skipped(buf, 0)..end] == (buf + more)[Skipped(buf, 0)..end];
    }
  }

  // ---- judging a head that was measured -------------------------------------------------------

  /** Where the line that `to` ends, or lies in, starts. */
  function LineStart(buf: bytes, to: nat): (r: nat)
    requires to <= |buf|
    ensures r <= to && NoneIn(buf, r, to) && (r > 0 ==> buf[r - 1] == LF)
  {
    if to == 0 || buf[to - 1] == LF then to else LineStart(buf, to - 1)
  }

  /** The last line is blank, and ended. */
  predicate EndsBlank(buf: bytes)
  {
    && buf != []
    && buf[|buf| - 1] == LF
    && Blank(buf, LineStart(buf, |buf| - 1), |buf| - 1)
  }

  lemma {:induction false} EndsBlankTrims(rest: bytes)
    requires rest != [] && rest[|rest| - 1] == LF
    ensures EndsBlank(rest) <==> TrimEol(rest[LineStart(rest, |rest| - 1)..]) == []
  {
    var line := LineStart(rest, |rest| - 1);
    BlankIsTrimmed(rest, line, |rest| - 1);
    assert rest[line..|rest| - 1 + 1] == rest[line..];
  }

  method SkipBlank(head: bytes) returns (start: nat)
    ensures start == Skipped(head, 0)
  {
    start := 0;
    var at := NextLine(head, 0);
    while at.Some?
      invariant start <= |head| && at == NextLine(head, start)
      invariant Skipped(head, 0) == Skipped(head, start)
      decreases |head| - start
    {
      BlankIsTrimmed(head, start, at.value);
      if TrimEol(head[start..at.value + 1]) != [] {
        break;
      }
      start := at.value + 1;
      at := NextLine(head, start);
    }
  }

  datatype Judged = Oversized | BrokenOff | Text(head: bytes)

  /** Takes a head apart from the blank lines before it: it is whole only if it ends in a blank line. */
  method ParseHead(head: bytes) returns (r: Judged)
    ensures r.Oversized? <==> |head| > MAX_HEAD
    ensures |head| <= MAX_HEAD ==>
              r == if EndsBlank(head[Skipped(head, 0)..]) then Text(head[Skipped(head, 0)..]) else BrokenOff
  {
    if |head| > MAX_HEAD {
      return Oversized;
    }
    var start := SkipBlank(head);
    var rest := head[start..];
    if rest == [] || rest[|rest| - 1] != LF {
      return BrokenOff;
    }
    EndsBlankTrims(rest);
    if TrimEol(rest[LineStart(rest, |rest| - 1)..]) != [] {
      return BrokenOff;
    }
    return Text(rest);
  }

  lemma {:induction false} HeadLastLine(buf: bytes, from: nat, started: bool) returns (line: nat)
    requires from <= |buf| && HeadEndFrom(buf, from, started).Some?
    ensures var end := HeadEndFrom(buf, from, started).value;
      && from <= line < end && buf[end - 1] == LF && NoneIn(buf, line, end - 1) && Blank(buf, line, end - 1)
      && (line > from ==> buf[line - 1] == LF)
      && (!started ==> Skipped(buf, from) < line)
    decreases |buf| - from
  {
    var newline := NextLine(buf, from).value;
    var blank := Blank(buf, from, newline);
    if blank && started {
      line := from;
    } else {
      line := HeadLastLine(buf, newline + 1, started || !blank);
    }
  }

  lemma {:induction false} LineStartIs(buf: bytes, line: nat, to: nat)
    requires line <= to <= |buf| && NoneIn(buf, line, to) && (line > 0 ==> buf[line - 1] == LF)
    ensures LineStart(buf, to) == line
  {
    if line < to {
      LineStartIs(buf, line, to - 1);
    }
  }

  lemma {:induction false} LastLineBlank(head: bytes, skipped: nat, line: nat)
    requires skipped < line < |head| && head[|head| - 1] == LF && head[line - 1] == LF
    requires NoneIn(head, line, |head| - 1) && Blank(head, line, |head| - 1)
    ensures EndsBlank(head[skipped..])
  {
    var rest := head[skipped..];
    assert rest[line - skipped - 1] == LF;
    LineStartIs(rest, line - skipped, |rest| - 1);
  }

  /** A head measured by the scan is never taken for one that broke off. */
  lemma {:induction false} MeasuredIsWhole(buf: bytes)
    requires FrameHead(buf).Framed?
    ensures var head := buf[..FrameHead(buf).end];
      |head| <= MAX_HEAD && EndsBlank(head[Skipped(head, 0)..]) && head[Skipped(head, 0)..] == FrameHead(buf).head
  {
    var end := FrameHead(buf).end;
    var head := buf[..end];
    HeadWithin(buf, 0, false);
    assert head[Skipped(head, 0)..] == buf[Skipped(buf, 0)..end];
    var line := HeadLastLine(head, 0, false);
    LastLineBlank(head, Skipped(head, 0), line);
  }

  lemma {:induction false} NextLineWithin(buf: bytes, from: nat, end: nat)
    requires from <= end <= |buf|
    ensures NextLine(buf, from).Some? && NextLine(buf, from).value < end ==>
              NextLine(buf[..end], from) == NextLine(buf, from)
    decreases end - from
  {
    if from < end && buf[from] != LF {
      NextLineWithin(buf, from + 1, end);
    }
  }

  /** The bytes after a head have no part in where it ends. */
  lemma {:induction false} HeadWithin(buf: bytes, from: nat, started: bool)
    requires from <= |buf| && HeadEndFrom(buf, from, started).Some?
    ensures var end := HeadEndFrom(buf, from, started).value;
      && HeadEndFrom(buf[..end], from, started) == Some(end)
      && (!started ==> Skipped(buf[..end], from) == Skipped(buf, from))
    decreases |buf| - from
  {
    var end := HeadEndFrom(buf, from, started).value;
    var newline := NextLine(buf, from).value;
    BeyondLine(buf, from, started);
    LineWithin(buf, from, end);
    if !(Blank(buf, from, newline) && started) {
      HeadWithin(buf, newline + 1, started || !Blank(buf, from, newline));
    }
  }

  lemma {:induction false} LineWithin(buf: bytes, from: nat, end: nat)
    requires from <= end <= |buf| && NextLine(buf, from).Some? && NextLine(buf, from).value < end
    ensures NextLine(buf[..end], from) == NextLine(buf, from)
    ensures Blank(buf[..end], from, NextLine(buf, from).value) == Blank(buf, from, NextLine(buf, from).value)
  {
    NextLineWithin(buf, from, end);
  }

  // ---- the same head from a reader that waits for it --------------------------------------------

  function Joined(chunks: seq<bytes>): (r: bytes)
  {
    if chunks == [] then [] else chunks[0] + Joined(chunks[1..])
  }

  predicate Sent(chunks: seq<bytes>)
  {
    forall i :: 0 <= i < |chunks| ==> chunks[i] != []
  }

  datatype Read = Done | Failed(why: Judged)

  /** A line read up to `line`, and the chunk that comes next, of what is in `flat`. */
  lemma {:induction false} LineOn(flat: bytes, line: bytes, available: bytes, later: bytes)
    requires flat == line + available + later && NoneIn(line, 0, |line|)
    ensures NextLine(available, 0).Some? ==> NextLine(flat, 0) == Some(|line| + NextLine(available, 0).value)
    ensures NextLine(available, 0).None? ==>
              && NoneIn(line + available, 0, |line + available|)
              && NextLine(flat, 0) == NextLine(flat, |line| + |available|)
  {
    NextLineSkips(flat, 0, |line|);
    var at := NextLine(available, 0);
    var to := if at.Some? then at.value else |available|;
    assert forall i :: 0 <= i < |available| ==> flat[|line| + i] == available[i];
    assert NoneIn(flat, |line|, |line| + to) by {
      forall i | |line| <= i < |line| + to ensures flat[i] != LF {
        assert flat[i] == available[i - |line|];
      }
    }
    NextLineSkips(flat, |line|, |line| + to);
  }

  /** Putting what is left of a chunk back, unless nothing is. */
  function PutBack(kept: bytes, later: seq<bytes>): (r: seq<bytes>)
    requires Sent(later)
    ensures Sent(r) && Joined(r) == kept + Joined(later)
  {
    if kept == [] then later
    else
      var r := [kept] + later;
      assert r[1..] == later;
      r
  }

  lemma {:induction false} ChunkCut(available: bytes, at: nat, later: bytes)
    requires at <= |available|
    ensures available + later == available[..at] + (available[at..] + later)
  {}

  /** The next chunk was taken, up to the end of the line it holds, if any. */
  ghost predicate ChunkTaken(rest: seq<bytes>, chunk: bytes, done: bool, left: seq<bytes>)
  {
    && rest != [] && Sent(left) && done == NextLine(rest[0], 0).Some?
    && Joined(rest) == chunk + Joined(left)
    && chunk == (if done then rest[0][..NextLine(rest[0], 0).value + 1] else rest[0])
    && (!done ==> left == rest[1..])
  }

  /** Takes the next chunk up to the end of the line it holds, if any. */
  method TakeChunk(rest: seq<bytes>) returns (chunk: bytes, done: bool, left: seq<bytes>)
    requires Sent(rest) && rest != []
    ensures ChunkTaken(rest, chunk, done, left)
  {
    var available, later := rest[0], rest[1..];
    var at := NextLine(available, 0);
    if at.None? {
      return available, false, later;
    }
    ChunkCut(available, at.value + 1, Joined(later));
    return available[..at.value + 1], true, PutBack(available[at.value + 1..], later);
  }

  /** What reading a line from `flat` comes to. */
  ghost predicate LineRead(flat: bytes, budget: nat, line: bytes, left: nat, rest: seq<bytes>, r: Read)
  {
    match NextLine(flat, 0)
    case Some(at) =>
      if at + 1 > budget then r == Failed(Oversized)
      else r == Done && line == flat[..at + 1] && left == budget - (at + 1) && Sent(rest) && Joined(rest) == flat[at + 1..]
    case None => r == Failed(if |flat| > budget then Oversized else BrokenOff)
  }

  /** A line of `flat` read up to `line`, within the budget and not to its end, and what comes next. */
  ghost predicate LineSoFar(flat: bytes, budget: nat, line: bytes, rest: seq<bytes>)
  {
    Sent(rest) && |line| <= budget && flat == line + Joined(rest) && NoneIn(line, 0, |line|)
  }

  lemma {:induction false} NextChunk(flat: bytes, budget: nat, line: bytes, rest: seq<bytes>)
    requires LineSoFar(flat, budget, line, rest) && rest != []
    ensures flat == line + rest[0] + Joined(rest[1..])
  {}

  lemma {:induction false} LineOver(flat: bytes, budget: nat, line: bytes, rest: seq<bytes>, chunk: bytes, done: bool, after: seq<bytes>)
    requires LineSoFar(flat, budget, line, rest) && ChunkTaken(rest, chunk, done, after) && |line| + |chunk| > budget
    ensures LineRead(flat, budget, line, budget, rest, Failed(Oversized))
  {
    NextChunk(flat, budget, line, rest);
    LineOn(flat, line, rest[0], Joined(rest[1..]));
  }

  lemma {:induction false} LineDone(flat: bytes, budget: nat, line: bytes, rest: seq<bytes>, chunk: bytes, after: seq<bytes>)
    requires LineSoFar(flat, budget, line, rest) && ChunkTaken(rest, chunk, true, after) && |line| + |chunk| <= budget
    ensures LineRead(flat, budget, line + chunk, budget - |line| - |chunk|, after, Done)
  {
    NextChunk(flat, budget, line, rest);
    LineOn(flat, line, rest[0], Joined(rest[1..]));
    assert flat == (line + chunk) + Joined(after);
    assert flat[..|line + chunk|] == line + chunk;
    assert flat[|line + chunk|..] == Joined(after);
  }

  lemma {:induction false} LineMore(flat: bytes, budget: nat, line: bytes, rest: seq<bytes>, chunk: bytes, after: seq<bytes>)
    requires LineSoFar(flat, budget, line, rest) && ChunkTaken(rest, chunk, false, after) && |line| + |chunk| <= budget
    ensures LineSoFar(flat, budget, line + chunk, after) && |after| < |rest|
  {
    NextChunk(flat, budget, line, rest);
    LineOn(flat, line, rest[0], Joined(rest[1..]));
    assert flat == (line + chunk) + Joined(after);
  }

  lemma {:induction false} LineBroken(flat: bytes, budget: nat, line: bytes, rest: seq<bytes>)
    requires LineSoFar(flat, budget, line, rest) && rest == []
    ensures LineRead(flat, budget, line, budget, rest, Failed(BrokenOff))
  {
    assert flat == line;
  }

  /** Reads one line, chunk by chunk, within the budget. */
  method ReadLine(budget: nat, reader: seq<bytes>) returns (line: bytes, left: nat, rest: seq<bytes>, r: Read)
    requires Sent(reader)
    ensures LineRead(Joined(reader), budget, line, left, rest, r)
  {
    line, left, rest := [], budget, reader;
    ghost var flat := Joined(reader);
    while rest != []
      invariant left == budget && LineSoFar(flat, budget, line, rest)
      decreases |rest|
    {
      var chunk, done, after := TakeChunk(rest);
      if |line| + |chunk| > left {
        LineOver(flat, budget, line, rest, chunk, done, after);
        return line, left, rest, Failed(Oversized);
      }
      if done {
        LineDone(flat, budget, line, rest, chunk, after);
        return line + chunk, left - |line| - |chunk|, after, Done;
      }
      LineMore(flat, budget, line, rest, chunk, after);
      line, rest := line + chunk, after;
    }
    LineBroken(flat, budget, line, rest);
    r := Failed(BrokenOff);
  }

  ghost predicate HeadRead(flat: bytes, r: Judged, rest: seq<bytes>)
  {
    match FrameHead(flat)
    case Partial => r == BrokenOff
    case TooLarge => r == Oversized
    case Framed(end, head) => r == Text(head) && Joined(rest) == flat[end..]
  }

  /** The request line and some headers are in `head`, the first `at` bytes read. */
  ghost predicate InHeaders(flat: bytes, at: nat, head: bytes, budget: nat, rest: seq<bytes>)
  {
    && |head| <= at <= |flat| && Joined(rest) == flat[at..] && Sent(rest) && budget + at == MAX_HEAD
    && Leads(flat, 0, false, at, true) && at - |head| == Skipped(flat, 0) && head == flat[at - |head|..at]
  }

  /** Only blank lines are in the first `at` bytes, which were read. */
  ghost predicate BeforeHead(flat: bytes, at: nat, budget: nat, rest: seq<bytes>)
  {
    && at <= |flat| && Joined(rest) == flat[at..] && Sent(rest) && budget + at == MAX_HEAD
    && Leads(flat, 0, false, at, false) && Skipped(flat, 0) == Skipped(flat, at)
  }

  /** What reading a line before the head leads to. */
  ghost predicate FirstRead(flat: bytes, at: nat, line: bytes, left: nat, rest: seq<bytes>, r: Read, blank: bool)
  {
    if r.Failed? then HeadRead(flat, r.why, rest)
    else if blank then line != [] && BeforeHead(flat, at + |line|, left, rest)
    else InHeaders(flat, at + |line|, line, left, rest)
  }

  lemma {:induction false} FirstLine(flat: bytes, at: nat, budget: nat, reader: seq<bytes>, line: bytes, left: nat, rest: seq<bytes>, r: Read)
    requires BeforeHead(flat, at, budget, reader)
    requires LineRead(Joined(reader), budget, line, left, rest, r)
    ensures FirstRead(flat, at, line, left, rest, r, TrimEol(line) == [])
  {
    LineReadAt(flat, at, budget, line, left, rest, r);
    if r.Failed? {
      ReadFailed(flat, at, false, budget, line, left, rest, r);
    } else {
      FirstDone(flat, at, budget, line, left, rest, NextLine(flat, at).value);
    }
  }

  lemma {:induction false} ReadFailed(
      flat: bytes, at: nat, started: bool, budget: nat, line: bytes, left: nat, rest: seq<bytes>, r: Read)
    requires at <= |flat| && budget + at == MAX_HEAD && Leads(flat, 0, false, at, started)
    requires LineReadFrom(flat, at, budget, line, left, rest, r) && r.Failed?
    ensures HeadRead(flat, r.why, rest)
  {
    HeadLineFailed(flat, at, started, budget);
  }

  lemma {:induction false} FirstDone(flat: bytes, at: nat, budget: nat, line: bytes, left: nat, rest: seq<bytes>, newline: nat)
    requires at <= |flat| && budget + at == MAX_HEAD && Leads(flat, 0, false, at, false) && Skipped(flat, 0) == Skipped(flat, at)
    requires NextLine(flat, at) == Some(newline) && newline < at + budget && line == flat[at..newline + 1]
    requires left == budget - (newline + 1 - at) && Sent(rest) && Joined(rest) == flat[newline + 1..]
    ensures FirstRead(flat, at, line, left, rest, Done, TrimEol(line) == [])
  {
    HeadLineRead(flat, at, false, budget, line, newline);
  }

  /** Reads one line, blank or the first that is not. */
  method ReadFirst(ghost flat: bytes, ghost at: nat, budget: nat, reader: seq<bytes>)
    returns (line: bytes, left: nat, rest: seq<bytes>, r: Read, blank: bool)
    requires BeforeHead(flat, at, budget, reader)
    ensures FirstRead(flat, at, line, left, rest, r, blank)
  {
    line, left, rest, r := ReadLine(budget, reader);
    FirstLine(flat, at, budget, reader, line, left, rest, r);
    blank := TrimEol(line) == [];
  }

  lemma {:induction false} Unread(reader: seq<bytes>)
    requires Sent(reader)
    ensures BeforeHead(Joined(reader), 0, MAX_HEAD, reader)
  {
    assert Joined(reader)[0..] == Joined(reader);
  }

  /** Reads past blank lines, and the first that is not blank. */
  method ReadRequestLine(reader: seq<bytes>, ghost flat: bytes)
    returns (head: bytes, budget: nat, rest: seq<bytes>, r: Read, ghost at: nat)
    requires Sent(reader) && flat == Joined(reader)
    ensures r.Failed? ==> HeadRead(flat, r.why, rest)
    ensures r == Done ==> InHeaders(flat, at, head, budget, rest)
  {
    at := 0;
    Unread(reader);
    var blank;
    head, budget, rest, r, blank := ReadFirst(flat, at, MAX_HEAD, reader);
    while r == Done && blank
      invariant FirstRead(flat, at, head, budget, rest, r, blank)
      decreases |flat| - at
    {
      at := at + |head|;
      head, budget, rest, r, blank := ReadFirst(flat, at, budget, rest);
    }
    at := at + |head|;
  }

  /** Reads one more line of the head, and says whether it was the last. */
  method ReadHeader(ghost flat: bytes, ghost at: nat, head: bytes, budget: nat, reader: seq<bytes>)
    returns (grown: bytes, left: nat, rest: seq<bytes>, r: Read, last: bool)
    requires InHeaders(flat, at, head, budget, reader)
    ensures if r.Failed? then HeadRead(flat, r.why, rest)
            else if last then HeadRead(flat, Text(grown), rest)
            else |grown| > |head| && InHeaders(flat, at + |grown| - |head|, grown, left, rest)
  {
    var line;
    line, left, rest, r := ReadLine(budget, reader);
    HeaderLine(flat, at, head, budget, reader, line, left, rest, r);
    grown, last := head + line, TrimEol(line) == [];
  }

  /** Reads a head line by line, as much as may arrive at a time: what comes out is the head that
      `FrameHead` finds in all of it, and what is left for the body is what follows that head. */
  method ReadHead(reader: seq<bytes>) returns (r: Judged, rest: seq<bytes>)
    requires Sent(reader)
    ensures HeadRead(Joined(reader), r, rest)
  {
    ghost var flat := Joined(reader);
    var head, budget: nat, left, first, at := ReadRequestLine(reader, flat);
    rest := left;
    if first.Failed? {
      return first.why, rest;
    }
    while true
      invariant InHeaders(flat, at, head, budget, rest)
      decreases |flat| - at
    {
      var grown, less, after, read, last := ReadHeader(flat, at, head, budget, rest);
      if read.Failed? {
        return read.why, after;
      }
      if last {
        return Text(grown), after;
      }
      at := at + |grown| - |head|;
      head, budget, rest := grown, less, after;
    }
  }

  lemma {:induction false} NextLineFrom(flat: bytes, at: nat, from: nat)
    requires at <= |flat| && from <= |flat| - at
    ensures NextLine(flat, at + from) ==
            (match NextLine(flat[at..], from) case None => None case Some(v) => Some(at + v))
    decreases |flat| - at - from
  {
    if from < |flat| - at && flat[at + from] != LF {
      NextLineFrom(flat, at, from + 1);
    }
  }

  ghost predicate FramedAt(flat: bytes, end: nat)
  {
    Skipped(flat, 0) <= end <= |flat| && FrameHead(flat) == Framed(end, flat[Skipped(flat, 0)..end])
  }

  /** What one more line of a head, read up to `now`, leads to. */
  ghost predicate LineLeads(flat: bytes, at: nat, started: bool, now: nat, blank: bool)
    requires at <= now <= |flat|
  {
    if blank && started then FramedAt(flat, now)
    else
      && Leads(flat, 0, false, now, started || !blank)
      && (!started ==> Skipped(flat, 0) == if blank then Skipped(flat, now) else at)
  }

  /** What reading a line from the rest of a stream comes to, in terms of the stream. */
  ghost predicate LineReadFrom(flat: bytes, at: nat, budget: nat, line: bytes, left: nat, rest: seq<bytes>, r: Read)
    requires at <= |flat|
  {
    match NextLine(flat, at)
    case Some(newline) =>
      if newline + 1 - at > budget then r == Failed(Oversized)
      else r == Done && line == flat[at..newline + 1] && left == budget - (newline + 1 - at)
           && Sent(rest) && Joined(rest) == flat[newline + 1..]
    case None => r == Failed(if |flat| - at > budget then Oversized else BrokenOff)
  }

  /** One more line of a head, `at` bytes into it. */
  lemma {:induction false} HeadLineRead(flat: bytes, at: nat, started: bool, budget: nat, line: bytes, newline: nat)
    requires at <= |flat| && budget + at == MAX_HEAD
    requires NextLine(flat, at) == Some(newline) && newline < at + budget && line == flat[at..newline + 1]
    requires Leads(flat, 0, false, at, started) && (!started ==> Skipped(flat, 0) == Skipped(flat, at))
    ensures at + |line| == newline + 1 && LineLeads(flat, at, started, newline + 1, TrimEol(line) == [])
  {
    BlankIsTrimmed(flat, at, newline);
    HeadLineDone(flat, at, started, budget, newline);
  }

  /** Reading a line from the rest of a stream, in terms of the stream. */
  lemma {:induction false} LineReadAt(flat: bytes, at: nat, budget: nat, line: bytes, left: nat, rest: seq<bytes>, r: Read)
    requires at <= |flat| && LineRead(flat[at..], budget, line, left, rest, r)
    ensures LineReadFrom(flat, at, budget, line, left, rest, r)
  {
    NextLineFrom(flat, at, 0);
    if r == Done {
      var newline := NextLine(flat, at).value;
      assert flat[at..][..newline + 1 - at] == flat[at..newline + 1];
      assert flat[at..][newline + 1 - at..] == flat[newline + 1..];
    }
  }

  lemma {:induction false} HeadLineFailed(flat: bytes, at: nat, started: bool, budget: nat)
    requires at <= |flat| && budget + at == MAX_HEAD && Leads(flat, 0, false, at, started)
    ensures NextLine(flat, at).Some? && NextLine(flat, at).value + 1 - at > budget ==> FrameHead(flat) == TooLarge
    ensures NextLine(flat, at).None? ==> FrameHead(flat) == if |flat| - at > budget then TooLarge else Partial
  {
    LeadsInside(flat, 0, false, at, started);
    if NextLine(flat, at).Some? {
      BeyondLine(flat, at, started);
    }
  }

  lemma {:induction false} HeadLineDone(flat: bytes, at: nat, started: bool, budget: nat, newline: nat)
    requires at <= |flat| && budget + at == MAX_HEAD
    requires NextLine(flat, at) == Some(newline) && newline < at + budget
    requires Leads(flat, 0, false, at, started) && (!started ==> Skipped(flat, 0) == Skipped(flat, at))
    ensures LineLeads(flat, at, started, newline + 1, Blank(flat, at, newline))
  {
    if Blank(flat, at, newline) && started {
      HeadLineLast(flat, at);
    } else {
      HeadLineOn(flat, at, started, newline, Blank(flat, at, newline));
    }
  }

  lemma {:induction false} HeadLineOn(flat: bytes, at: nat, started: bool, newline: nat, blank: bool)
    requires at <= |flat| && Leads(flat, 0, false, at, started) && (!started ==> Skipped(flat, 0) == Skipped(flat, at))
    requires NextLine(flat, at) == Some(newline) && blank == Blank(flat, at, newline) && !(blank && started)
    ensures Leads(flat, 0, false, newline + 1, started || !blank)
    ensures !started ==> Skipped(flat, 0) == if blank then Skipped(flat, newline + 1) else at
  {
    LeadsOn(flat, 0, false, at, started);
  }

  lemma {:induction false} HeadLineLast(flat: bytes, at: nat)
    requires at <= |flat| && Leads(flat, 0, false, at, true)
    requires NextLine(flat, at).Some? && NextLine(flat, at).value < MAX_HEAD && Blank(flat, at, NextLine(flat, at).value)
    ensures FramedAt(flat, NextLine(flat, at).value + 1)
  {
    LeadsInside(flat, 0, false, at, true);
    HeadSkips(flat, 0);
  }

  /** What reading a line of the headers leads to. */
  ghost predicate NextRead(flat: bytes, at: nat, head: bytes, line: bytes, left: nat, rest: seq<bytes>, r: Read, blank: bool)
  {
    if r.Failed? then HeadRead(flat, r.why, rest)
    else if blank then HeadRead(flat, Text(head + line), rest)
    else line != [] && InHeaders(flat, at + |line|, head + line, left, rest)
  }

  lemma {:induction false} HeaderLine(flat: bytes, at: nat, head: bytes, budget: nat, reader: seq<bytes>, line: bytes, left: nat, rest: seq<bytes>, r: Read)
    requires InHeaders(flat, at, head, budget, reader)
    requires LineRead(Joined(reader), budget, line, left, rest, r)
    ensures NextRead(flat, at, head, line, left, rest, r, TrimEol(line) == [])
  {
    LineReadAt(flat, at, budget, line, left, rest, r);
    if r.Failed? {
      ReadFailed(flat, at, true, budget, line, left, rest, r);
    } else {
      HeaderDone(flat, at, head, budget, line, left, rest, NextLine(flat, at).value);
    }
  }

  lemma {:induction false} HeaderDone(
      flat: bytes, at: nat, head: bytes, budget: nat, line: bytes, left: nat, rest: seq<bytes>, newline: nat)
    requires |head| <= at <= |flat| && budget + at == MAX_HEAD && Leads(flat, 0, false, at, true)
    requires at - |head| == Skipped(flat, 0) && head == flat[at - |head|..at]
    requires NextLine(flat, at) == Some(newline) && newline < at + budget && line == flat[at..newline + 1]
    requires left == budget - (newline + 1 - at) && Sent(rest) && Joined(rest) == flat[newline + 1..]
    ensures NextRead(flat, at, head, line, left, rest, Done, TrimEol(line) == [])
  {
    HeadLineRead(flat, at, true, budget, line, newline);
    var start, end := at - |head|, newline + 1;
    SliceOn(flat, start, at, end);
    if TrimEol(line) == [] {
      HeaderLast(flat, start, end, head + line, rest);
    } else {
      HeaderMore(flat, start, end, head + line, left, rest);
    }
  }

  lemma {:induction false} HeaderLast(flat: bytes, start: nat, end: nat, text: bytes, rest: seq<bytes>)
    requires FramedAt(flat, end) && start == Skipped(flat, 0) && text == flat[start..end] && Joined(rest) == flat[end..]
    ensures HeadRead(flat, Text(text), rest)
  {}

  lemma {:induction false} HeaderMore(flat: bytes, start: nat, end: nat, text: bytes, left: nat, rest: seq<bytes>)
    requires start <= end <= |flat| && start == Skipped(flat, 0) && text == flat[start..end] && Joined(rest) == flat[end..]
    requires Sent(rest) && left + end == MAX_HEAD && Leads(flat, 0, false, end, true)
    ensures InHeaders(flat, end, text, left, rest)
  {}

  lemma {:induction false} SliceOn(flat: bytes, from: nat, at: nat, to: nat)
    requires from <= at <= to <= |flat|
    ensures flat[from..at] + flat[at..to] == flat[from..to]
  {}
}
