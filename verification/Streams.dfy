/**
 A stream and its consumer groups.

 Entries are added with rising ids, and deleted or trimmed. Each group hands new entries out once,
 in order, and keeps those handed out pending until they are acknowledged. Ghost state remembers
 every entry there ever was, and for each group what it handed out and what was gone before it could.
 */
module Streams {
  import opened Common
  import opened Ids

  type Fields = seq<(string, string)>

  datatype Pending = Pending(consumer: string, delivered: u64, count: nat)
  datatype Consumer = Consumer(seen: u64, active: Option<u64>)
  datatype Group = Group(last: Id, read: nat, pending: map<Id, Pending>, consumers: map<string, Consumer>)

  // ---- what a group did -----------------------------------------------------------------------

  /** A group's past: where it started, what it handed out, what was deleted before it could hand it
      out, and whether its mark was ever set by hand. */
  datatype History = History(start: Id, given: seq<Id>, lost: set<Id>, reset: bool)

  /** Every pending entry names a registered consumer, and was an entry once. */
  ghost predicate Seated(g: Group, ever: set<Id>)
  {
    forall id :: id in g.pending ==> g.pending[id].consumer in g.consumers && id in ever
  }

  /** What was handed out, in order and each once, is all there was up to the mark but what was gone by then. */
  ghost predicate Handed(g: Group, h: History, entries: set<Id>, ever: set<Id>)
  {
    && Rising(h.given) && g.read == |h.given|
    && (forall id :: id in h.given ==> Less(h.start, id) && AtMost(id, g.last) && id in ever)
    && g.last == (if h.given == [] then h.start else h.given[|h.given| - 1])
    && (forall id :: id in ever && Less(h.start, id) && AtMost(id, g.last) ==> id in h.given || id in h.lost)
    && (forall id :: id in ever && Less(g.last, id) ==> id in entries || id in h.lost)
    && (forall id :: id in h.lost ==> id in ever && id !in entries && id !in h.given)
  }

  ghost predicate GroupOk(g: Group, h: History, entries: set<Id>, ever: set<Id>)
  {
    Seated(g, ever) && (!h.reset ==> Handed(g, h, entries, ever))
  }

  /** An entry a group has not handed out is lost to it when it goes. */
  function Losing(h: History, g: Group, gone: set<Id>): History
  {
    h.(lost := h.lost + Past(gone, g.last))
  }

  lemma {:induction false} GroupLoses(g: Group, h: History, entries: set<Id>, ever: set<Id>, gone: set<Id>)
    requires GroupOk(g, h, entries, ever) && gone <= entries <= ever
    ensures GroupOk(g, Losing(h, g, gone), entries - gone, ever)
  {}

  lemma {:induction false} GroupGains(g: Group, h: History, entries: set<Id>, ever: set<Id>, id: Id)
    requires GroupOk(g, h, entries, ever) && (forall other :: other in ever ==> Less(other, id))
    ensures GroupOk(g, h, entries + {id}, ever + {id})
  {
    if !h.reset && h.given != [] {
      assert g.last in h.given;
    }
  }

  /** A group whose pending entries or consumers changed, but not what it handed out. */
  lemma {:induction false} GroupReseated(g: Group, after: Group, h: History, entries: set<Id>, ever: set<Id>)
    requires GroupOk(g, h, entries, ever) && after.last == g.last && after.read == g.read && Seated(after, ever)
    ensures GroupOk(after, h, entries, ever)
  {}

  /** A group begins at a mark: what lies past it and is gone already is lost to it. */
  lemma {:induction false} GroupBegins(start: Id, entries: set<Id>, ever: set<Id>)
    ensures GroupOk(Group(start, 0, map[], map[]), History(start, [], Past(ever, start) - entries, false), entries, ever)
  {}

  /** The next entry past the mark is handed out. */
  lemma {:induction false} GroupGives(g: Group, h: History, entries: set<Id>, ever: set<Id>, id: Id, pending: map<Id, Pending>)
    requires GroupOk(g, h, entries, ever) && entries <= ever
    requires id in entries && Less(g.last, id) && (forall other :: other in entries && Less(g.last, other) ==> AtMost(id, other))
    requires Seated(g.(pending := pending), ever)
    ensures GroupOk(g.(last := id, read := g.read + 1, pending := pending), h.(given := h.given + [id]), entries, ever)
  {
    var after := h.(given := h.given + [id]);
    if !h.reset {
      assert forall other :: other in after.given <==> other in h.given || other == id;
      assert forall i :: 0 <= i < |h.given| ==> h.given[i] in h.given;
    }
  }

  // ---- the stream -----------------------------------------------------------------------------------

  /** How XADD names the new entry: by the clock, by a millisecond, or outright. */
  datatype IdArg = Auto | Ms(ms: u64) | Exact(id: Id)

  datatype Trim = MaxLen(keep: nat) | MinId(min: Id)

  const BAD_ID := "ERR Invalid stream ID specified as stream command argument"
  const EXHAUSTED := "ERR The stream has exhausted the last possible ID, unable to add more items"
  const TOO_SMALL := "ERR The ID specified in XADD is equal or smaller than the target stream top item"
  const NOT_ZERO := "ERR The ID specified in XADD must be greater than 0-0"
  const NO_GROUP := "NOGROUP No such key or consumer group"
  const BUSY := "BUSYGROUP Consumer Group name already exists"
  const FULL := "OOM a collection holds too many elements"

  /** The id that XADD's argument comes to. */
  function Named(arg: IdArg, last: Id, now: u64): Result<Id, string>
  {
    var id: Result<Id, string> :=
      match arg
      case Auto => (match NextAfter(last, now) case Some(id) => Ok(id) case None => Err(EXHAUSTED))
      case Ms(ms) =>
        if ms > last.ms then Ok(Id(ms, 0))
        else if ms < last.ms then Err(TOO_SMALL)
        else if last.serial < U64_MAX then Ok(Id(ms, last.serial + 1))
        else Err(BAD_ID)
      case Exact(id) => Ok(id);
    if id.Err? then id
    else if id.value == ZERO then Err(NOT_ZERO)
    else if AtMost(id.value, last) then Err(TOO_SMALL)
    else id
  }

  /** An id that a new entry may bear: past the last one, and not before the clock, in the millisecond asked for, or the one
      asked for. */
  predicate Suits(arg: IdArg, id: Id, last: Id, now: u64)
  {
    && (last.ms < id.ms || (last.ms == id.ms && last.serial < id.serial))
    && match arg
       case Auto => now <= id.ms
       case Ms(ms) => id.ms == ms
       case Exact(exact) => id == exact
  }

  /** XADD's id is the least that suits, and it has none exactly if none does. */
  lemma {:induction false} NamedSuits(arg: IdArg, last: Id, now: u64)
    ensures var r := Named(arg, last, now);
            && (r.Ok? ==> Suits(arg, r.value, last, now) && forall other :: Suits(arg, other, last, now) ==> AtMost(r.value, other))
            && (r.Err? ==> forall id :: !Suits(arg, id, last, now))
            && (r.Err? ==> r.error == if arg == Exact(ZERO) then NOT_ZERO
                                      else if arg.Auto? then EXHAUSTED
                                      else if arg.Ms? && arg.ms == last.ms then BAD_ID
                                      else TOO_SMALL)
  {
    forall id | Suits(arg, id, last, now)
      ensures Named(arg, last, now).Ok? && AtMost(Named(arg, last, now).value, id)
    {
      NextAfterIsLeast(last, now, id);
    }
    NextAfterIsLeast(last, now, last);
  }

  /** What a trim leaves of a set of entries. */
  ghost predicate Trimmed(all: set<Id>, kept: set<Id>, trim: Trim)
  {
    match trim
    case MaxLen(keep) => kept <= all && Oldest(all, all - kept, if |all| > keep then |all| - keep else 0)
    case MinId(min) => kept == set id | id in all && AtMost(min, id)
  }

  /** What is there of all there ever was, and the largest id of what is gone. */
  ghost predicate EntriesOk(entries: set<Id>, ever: set<Id>, added: nat, lastId: Id, maxDeleted: Id)
  {
    && entries <= ever && |ever| == added
    && (forall id :: id in ever ==> Less(ZERO, id) && AtMost(id, lastId))
    && (lastId == ZERO || lastId in ever)
    && (forall id :: id in ever && id !in entries ==> AtMost(id, maxDeleted))
    && (maxDeleted == ZERO || (maxDeleted in ever && maxDeleted !in entries))
  }

  ghost predicate GroupsOk(groups: map<string, Group>, past: map<string, History>, entries: set<Id>, ever: set<Id>)
  {
    && groups.Keys == past.Keys
    && (forall name :: name in groups ==> GroupOk(groups[name], past[name], entries, ever))
  }

  /** What each group has handed out. */
  ghost function Givens(past: map<string, History>): map<string, seq<Id>>
  {
    map name | name in past :: past[name].given
  }

  ghost function AllLosing(groups: map<string, Group>, past: map<string, History>, gone: set<Id>): map<string, History>
    requires groups.Keys == past.Keys
  {
    map name | name in past :: Losing(past[name], groups[name], gone)
  }

  lemma {:induction false} GroupsLose(groups: map<string, Group>, past: map<string, History>, entries: set<Id>, ever: set<Id>, kept: set<Id>)
    requires GroupsOk(groups, past, entries, ever) && kept <= entries <= ever
    ensures GroupsOk(groups, AllLosing(groups, past, entries - kept), kept, ever)
    ensures Onward(past, AllLosing(groups, past, entries - kept)) && Givens(AllLosing(groups, past, entries - kept)) == Givens(past)
  {
    assert entries - (entries - kept) == kept;
    forall name | name in groups ensures GroupOk(groups[name], Losing(past[name], groups[name], entries - kept), kept, ever) {
      GroupLoses(groups[name], past[name], entries, ever, entries - kept);
    }
  }

  lemma {:induction false} GroupsGain(groups: map<string, Group>, past: map<string, History>, entries: set<Id>, ever: set<Id>, id: Id)
    requires GroupsOk(groups, past, entries, ever) && (forall other :: other in ever ==> Less(other, id))
    ensures GroupsOk(groups, past, entries + {id}, ever + {id})
  {
    forall name | name in groups ensures GroupOk(groups[name], past[name], entries + {id}, ever + {id}) {
      GroupGains(groups[name], past[name], entries, ever, id);
    }
  }

  lemma {:induction false} EntriesGone(entries: set<Id>, ever: set<Id>, added: nat, lastId: Id, max: Id, kept: set<Id>, maxDeleted: Id)
    requires EntriesOk(entries, ever, added, lastId, max) && Gone(entries, kept, max, maxDeleted)
    ensures EntriesOk(kept, ever, added, lastId, maxDeleted)
  {
    forall id | id in ever && id !in kept ensures AtMost(id, maxDeleted) {
      if id in entries {
        assert id in entries - kept;
      }
    }
  }

  lemma {:induction false} EntriesAppend(entries: set<Id>, ever: set<Id>, added: nat, lastId: Id, max: Id, id: Id)
    requires EntriesOk(entries, ever, added, lastId, max) && Less(lastId, id)
    ensures forall other :: other in ever ==> Less(other, id)
    ensures EntriesOk(entries + {id}, ever + {id}, added + 1, id, max)
  {
    assert id !in ever;
    assert |ever + {id}| == |ever| + 1;
  }

  function Larger(a: Id, b: Id): Id
  {
    if Less(a, b) then b else a
  }

  /** The largest id deleted, once only `kept` of `entries` are left. */
  ghost predicate Gone(entries: set<Id>, kept: set<Id>, max: Id, maxDeleted: Id)
  {
    && kept <= entries
    && (maxDeleted == max || maxDeleted in entries - kept)
    && AtMost(max, maxDeleted) && (forall id :: id in entries - kept ==> AtMost(id, maxDeleted))
  }

  lemma {:induction false} GoneMore(entries: set<Id>, kept: set<Id>, max: Id, maxDeleted: Id, id: Id)
    requires Gone(entries, kept, max, maxDeleted) && id in kept
    ensures Gone(entries, kept - {id}, max, Larger(maxDeleted, id))
  {
    var larger := Larger(maxDeleted, id);
    assert AtMost(maxDeleted, larger) && AtMost(id, larger);
    forall other | other in entries - (kept - {id}) ensures AtMost(other, larger) {
      if other != id {
        assert other in entries - kept;
        assert AtMost(other, maxDeleted);
      }
    }
    assert larger == id ==> id in entries - (kept - {id});
  }

  lemma {:induction false} OneLess(entries: map<Id, Fields>, id: Id)
    requires id in entries
    ensures |entries - {id}| == |entries| - 1 && (entries - {id}).Keys == entries.Keys - {id}
  {
    var less := entries - {id};
    assert less.Keys == entries.Keys - {id};
    assert |less.Keys| == |less| && |entries.Keys| == |entries|;
  }

  lemma {:induction false} OneMore(entries: map<Id, Fields>, id: Id, fields: Fields)
    requires id !in entries
    ensures |entries[id := fields]| == |entries| + 1 && entries[id := fields].Keys == entries.Keys + {id}
  {
    var more := entries[id := fields];
    assert more.Keys == entries.Keys + {id};
    assert |more.Keys| == |more| && |entries.Keys| == |entries|;
  }

  ghost function Elements(ids: seq<Id>): set<Id>
  {
    set id | id in ids
  }

  lemma {:induction false} NamedMore(entries: map<Id, Fields>, ids: seq<Id>, i: nat, kept: map<Id, Fields>)
    requires i < |ids| && kept == entries - Elements(ids[..i])
    ensures kept - {ids[i]} == entries - Elements(ids[..i + 1])
    ensures ids[i] !in kept ==> kept == entries - Elements(ids[..i + 1])
  {
    assert ids[..i + 1] == ids[..i] + [ids[i]];
  }

  /** Takes the named entries away, and says how many were there. */
  method Without(entries: map<Id, Fields>, ids: seq<Id>, max: Id) returns (kept: map<Id, Fields>, maxDeleted: Id, removed: nat)
    ensures kept == entries - Elements(ids) && removed + |kept| == |entries|
    ensures Gone(entries.Keys, kept.Keys, max, maxDeleted)
  {
    kept, maxDeleted, removed := entries, max, 0;
    for i := 0 to |ids|
      invariant kept == entries - Elements(ids[..i])
      invariant removed + |kept| == |entries|
      invariant Gone(entries.Keys, kept.Keys, max, maxDeleted)
    {
      NamedMore(entries, ids, i, kept);
      if ids[i] in kept {
        OneLess(kept, ids[i]);
        GoneMore(entries.Keys, kept.Keys, max, maxDeleted, ids[i]);
        kept, maxDeleted, removed := kept - {ids[i]}, Larger(maxDeleted, ids[i]), removed + 1;
      }
    }
    assert ids[..|ids|] == ids;
  }

  /** All that are gone were before all that are left. */
  ghost predicate Before(entries: set<Id>, kept: set<Id>)
  {
    forall d, k :: d in entries - kept && k in kept ==> Less(d, k)
  }

  lemma {:induction false} BeforeMore(entries: set<Id>, kept: set<Id>, id: Id)
    requires Before(entries, kept) && id in kept && kept <= entries && (forall other :: other in kept ==> AtMost(id, other))
    ensures Before(entries, kept - {id})
  {}

  ghost predicate Part(part: map<Id, Fields>, all: map<Id, Fields>)
  {
    part.Keys <= all.Keys && forall id :: id in part ==> part[id] == all[id]
  }

  /** Takes the oldest entries away, one at a time. */
  method PopOldest(entries: map<Id, Fields>, count: nat, max: Id) returns (kept: map<Id, Fields>, maxDeleted: Id)
    requires count <= |entries|
    ensures Part(kept, entries) && |kept| == |entries| - count
    ensures Oldest(entries.Keys, entries.Keys - kept.Keys, count) && Gone(entries.Keys, kept.Keys, max, maxDeleted)
  {
    kept, maxDeleted := entries, max;
    for i := 0 to count
      invariant Part(kept, entries) && |kept| == |entries| - i
      invariant Before(entries.Keys, kept.Keys) && Gone(entries.Keys, kept.Keys, max, maxDeleted)
    {
      var first := Least(kept.Keys);
      OneLess(kept, first);
      BeforeMore(entries.Keys, kept.Keys, first);
      GoneMore(entries.Keys, kept.Keys, max, maxDeleted, first);
      kept, maxDeleted := kept - {first}, Larger(maxDeleted, first);
    }
    BeforeIsOldest(entries, kept, count);
  }

  lemma {:induction false} BeforeIsOldest(entries: map<Id, Fields>, kept: map<Id, Fields>, count: nat)
    requires Before(entries.Keys, kept.Keys) && kept.Keys <= entries.Keys && |kept| + count == |entries|
    ensures Oldest(entries.Keys, entries.Keys - kept.Keys, count)
  {
    assert |kept.Keys| == |kept| && |entries.Keys| == |entries|;
    assert entries.Keys == kept.Keys + (entries.Keys - kept.Keys);
    assert entries.Keys - (entries.Keys - kept.Keys) == kept.Keys;
  }

  /** Trims, and says how many entries that took away. */
  method TrimTo(entries: map<Id, Fields>, trim: Trim, max: Id) returns (kept: map<Id, Fields>, maxDeleted: Id, dropped: nat)
    ensures Trimmed(entries.Keys, kept.Keys, trim) && dropped + |kept| == |entries|
    ensures Part(kept, entries) && Gone(entries.Keys, kept.Keys, max, maxDeleted)
  {
    match trim
    case MaxLen(keep) =>
      dropped := if |entries| > keep then |entries| - keep else 0;
      kept, maxDeleted := PopOldest(entries, dropped, max);
      assert |entries.Keys| == |entries|;
    case MinId(min) =>
      var before := set id | id in entries && Less(id, min);
      BeforeMin(entries, before, min);
      dropped := |before|;
      kept, maxDeleted := PopOldest(entries, dropped, max);
      TrimmedMin(entries.Keys, kept.Keys, min);
  }

  lemma {:induction false} BeforeMin(entries: map<Id, Fields>, before: set<Id>, min: Id)
    requires before == set id | id in entries && Less(id, min)
    ensures |before| <= |entries| && before == set id | id in entries.Keys && Less(id, min)
  {
    assert before <= entries.Keys && |entries.Keys| == |entries|;
    Smaller(before, entries.Keys);
  }

  lemma {:induction false} TrimmedMin(all: set<Id>, kept: set<Id>, min: Id)
    requires kept <= all && Oldest(all, all - kept, |set id | id in all && Less(id, min)|)
    ensures Trimmed(all, kept, MinId(min))
  {
    OldestBefore(all, all - kept, min);
    assert kept == all - (all - kept);
  }

  /** How many entries a trim will drop once a new one is in. */
  function Dropped(entries: map<Id, Fields>, trim: Option<Trim>, id: Id): nat
  {
    match trim
    case None => 0
    case Some(MaxLen(keep)) => if |entries| + 1 > keep then |entries| + 1 - keep else 0
    case Some(MinId(min)) => |set other | other in entries && Less(other, min)| + if Less(id, min) then 1 else 0
  }

  /** What XADD replies: the id of the new entry, or why there is none. */
  function Admitted(
      arg: IdArg, last: Id, now: u64, entries: map<Id, Fields>, trim: Option<Trim>, maxElements: nat, replay: bool): Result<Id, string>
  {
    var id := Named(arg, last, now);
    if id.Ok? && !replay && Dropped(entries, trim, id.value) == 0 && |entries| + 1 > maxElements then Err(FULL) else id
  }

  /** The stream with one more entry, and what the trim takes away. */
  ghost predicate Grown(before: map<Id, Fields>, after: map<Id, Fields>, id: Id, fields: Fields, trim: Option<Trim>)
  {
    && Part(after, before[id := fields])
    && (if trim.None? then after == before[id := fields] else Trimmed(before[id := fields].Keys, after.Keys, trim.value))
    && |after| + Dropped(before, trim, id) == |before| + 1
  }

  /** A stream that XADD let grow is no larger than it was, or than its limit. */
  lemma {:induction false} RoomKept(
      arg: IdArg, last: Id, now: u64, before: map<Id, Fields>, after: map<Id, Fields>, fields: Fields, trim: Option<Trim>, maxElements: nat)
    requires Admitted(arg, last, now, before, trim, maxElements, false).Ok?
    requires Grown(before, after, Admitted(arg, last, now, before, trim, maxElements, false).value, fields, trim)
    ensures |after| <= if |before| > maxElements then |before| else maxElements
  {}

  lemma {:induction false} GrownWhole(before: map<Id, Fields>, id: Id, fields: Fields)
    requires id !in before
    ensures Grown(before, before[id := fields], id, fields, None)
  {
    OneMore(before, id, fields);
  }

  lemma {:induction false} GrownTrimmed(before: map<Id, Fields>, after: map<Id, Fields>, id: Id, fields: Fields, trim: Trim)
    requires id !in before && Part(after, before[id := fields]) && Trimmed(before[id := fields].Keys, after.Keys, trim)
    ensures Grown(before, after, id, fields, Some(trim))
  {
    TrimmedSize(before, id, fields, after, trim);
  }

  lemma {:induction false} TrimmedSize(before: map<Id, Fields>, id: Id, fields: Fields, after: map<Id, Fields>, trim: Trim)
    requires id !in before && Part(after, before[id := fields]) && Trimmed(before[id := fields].Keys, after.Keys, trim)
    ensures |after| + Dropped(before, Some(trim), id) == |before| + 1
  {
    var grown := before[id := fields];
    OneMore(before, id, fields);
    SizeOf(grown);
    SizeOf(after);
    Split(grown.Keys, after.Keys);
    match trim
    case MaxLen(keep) =>
    case MinId(min) =>
      MinSize(before, grown.Keys, id, min);
      MinGone(grown.Keys, after.Keys, min);
  }

  lemma {:induction false} SizeOf(entries: map<Id, Fields>)
    ensures |entries.Keys| == |entries|
  {}

  lemma {:induction false} Split(all: set<Id>, kept: set<Id>)
    requires kept <= all
    ensures |all - kept| == |all| - |kept|
  {
    assert all == kept + (all - kept);
  }

  lemma {:induction false} MinGone(all: set<Id>, kept: set<Id>, min: Id)
    requires kept == set id | id in all && AtMost(min, id)
    ensures all - kept == set id | id in all && Less(id, min)
  {}

  lemma {:induction false} MinSize(before: map<Id, Fields>, all: set<Id>, id: Id, min: Id)
    requires id !in before && all == before.Keys + {id}
    ensures |set other | other in all && Less(other, min)| == Dropped(before, Some(MinId(min)), id)
  {
    var gone := set other | other in before && Less(other, min);
    var more := set other | other in all && Less(other, min);
    assert more == if Less(id, min) then gone + {id} else gone;
  }

  // ---- handing out ---------------------------------------------------------------------------------

  function First(ids: seq<Id>, limit: nat): seq<Id>
  {
    if |ids| <= limit then ids else ids[..limit]
  }

  /** The entries past a group's mark, as many as are asked for and at least one if there is one. */
  function Fresh(entries: set<Id>, last: Id, count: nat): (r: seq<Id>)
  {
    First(Ascending(Past(entries, last)), if count == 0 then 1 else count)
  }

  /** The first of some ids, in order: as many as are asked for, and at least one if there is one. */
  ghost predicate FirstAmong(all: set<Id>, count: nat, ids: seq<Id>)
  {
    var most := if count > 1 then count else 1;
    && Rising(ids) && |ids| == (if |all| < most then |all| else most) && (forall id :: id in ids ==> id in all)
    && forall a, b :: a in ids && b in all && b !in ids ==> Less(a, b)
  }

  lemma {:induction false} FirstIsAmong(all: set<Id>, count: nat)
    ensures FirstAmong(all, count, First(Ascending(all), if count == 0 then 1 else count))
  {
    var list := Ascending(all);
    var ids := First(list, if count == 0 then 1 else count);
    forall a, b | a in ids && b in all && b !in ids ensures Less(a, b) {
      var i :| 0 <= i < |ids| && ids[i] == a;
      assert b in list;
      var j :| 0 <= j < |list| && list[j] == b;
      assert forall k :: 0 <= k < |ids| ==> ids[k] == list[k];
      assert i < j;
    }
  }

  /** A consumer was seen now, and was active when it got something. */
  ghost predicate Seen(before: map<string, Consumer>, after: map<string, Consumer>, consumer: string, now: u64, got: bool)
  {
    && consumer in after && after[consumer].seen == now
    && (if got then after[consumer].active == Some(now)
        else after[consumer].active == if consumer in before then before[consumer].active else None)
    && forall other :: other != consumer ==>
         (other in after <==> other in before) && (other in before ==> after[other] == before[other])
  }

  lemma {:induction false} FreshAmong(entries: map<Id, Fields>, last: Id, count: nat)
    ensures FirstAmong((set id | id in entries && Less(last, id)), count, Fresh(entries.Keys, last, count))
  {
    FirstIsAmong(Past(entries.Keys, last), count);
    assert Past(entries.Keys, last) == set id | id in entries && Less(last, id);
  }

  /** The first entry past a mark. */
  ghost predicate IsNext(entries: set<Id>, mark: Id, id: Id)
  {
    id in entries && Less(mark, id) && forall other :: other in entries && Less(mark, other) ==> AtMost(id, other)
  }

  lemma {:induction false} ListNext(all: seq<Id>, entries: set<Id>, last: Id, i: nat)
    requires Rising(all) && (forall id :: id in all <==> id in Past(entries, last)) && i < |all|
    ensures IsNext(entries, if i == 0 then last else all[i - 1], all[i])
  {
    var before := if i == 0 then last else all[i - 1];
    assert all[i] in all;
    assert i > 0 ==> all[i - 1] in all;
    forall other | other in entries && Less(before, other) ensures AtMost(all[i], other) {
      assert other in Past(entries, last);
      var j :| 0 <= j < |all| && all[j] == other;
    }
  }

  lemma {:induction false} FreshNext(entries: set<Id>, last: Id, count: nat, i: nat)
    requires i < |Fresh(entries, last, count)|
    ensures IsNext(entries, if i == 0 then last else Fresh(entries, last, count)[i - 1], Fresh(entries, last, count)[i])
  {
    ListNext(Ascending(Past(entries, last)), entries, last, i);
  }

  /** What a group's pending entries become when some are handed out. */
  ghost predicate HandedTo(
      before: map<Id, Pending>, after: map<Id, Pending>, newly: seq<Id>, noack: bool, consumer: string, now: u64)
  {
    forall id ::
      && (id in after <==> id in before || (!noack && id in newly))
      && (id in after ==> after[id] == if !noack && id in newly then Pending(consumer, now, 1) else before[id])
  }

  /** A group that moved its mark past `newly`, and noted them as pending. */
  ghost predicate HandsOver(g: Group, after: Group, newly: seq<Id>, noack: bool, consumer: string, at: u64)
  {
    && after.last == (if newly == [] then g.last else newly[|newly| - 1]) && after.read == g.read + |newly|
    && after.consumers == g.consumers && HandedTo(g.pending, after.pending, newly, noack, consumer, at)
  }

  /** A group that has handed out the first entries of `newly`. */
  ghost predicate Given(g: Group, h: History, after: Group, now: History, newly: seq<Id>, noack: bool, consumer: string, at: u64)
  {
    now == h.(given := h.given + newly) && HandsOver(g, after, newly, noack, consumer, at)
  }

  function Noted(pending: map<Id, Pending>, id: Id, noack: bool, consumer: string, at: u64): map<Id, Pending>
  {
    if noack then pending else pending[id := Pending(consumer, at, 1)]
  }

  lemma {:induction false} GivenMore(
      g: Group, h: History, after: Group, now: History, newly: seq<Id>, id: Id, noack: bool, consumer: string, at: u64)
    requires Given(g, h, after, now, newly, noack, consumer, at)
    ensures Given(g, h, after.(last := id, read := after.read + 1, pending := Noted(after.pending, id, noack, consumer, at)),
                  now.(given := now.given + [id]), newly + [id], noack, consumer, at)
  {
    assert h.given + newly + [id] == h.given + (newly + [id]);
    assert forall other :: other in newly + [id] <==> other in newly || other == id;
  }

  /** A group with the first `i` of the entries handed out, its account kept. */
  ghost predicate Giving(
      g: Group, h: History, entries: set<Id>, ever: set<Id>, after: Group, now: History, newly: seq<Id>, i: nat,
      noack: bool, consumer: string, at: u64)
    requires i <= |newly|
  {
    GroupOk(after, now, entries, ever) && Given(g, h, after, now, newly[..i], noack, consumer, at)
  }

  function Gave(after: Group, id: Id, noack: bool, consumer: string, at: u64): Group
  {
    after.(last := id, read := after.read + 1, pending := Noted(after.pending, id, noack, consumer, at))
  }

  lemma {:induction false} GiveNext(
      g: Group, h: History, entries: set<Id>, ever: set<Id>, newly: seq<Id>, i: nat, after: Group, now: History,
      noack: bool, consumer: string, at: u64)
    requires entries <= ever && consumer in g.consumers && i < |newly| && IsNext(entries, if i == 0 then g.last else newly[i - 1], newly[i])
    requires Giving(g, h, entries, ever, after, now, newly, i, noack, consumer, at)
    ensures Giving(g, h, entries, ever, Gave(after, newly[i], noack, consumer, at), now.(given := now.given + [newly[i]]),
                   newly, i + 1, noack, consumer, at)
  {
    assert newly[..i + 1] == newly[..i] + [newly[i]];
    assert after.last == if i == 0 then g.last else newly[i - 1];
    GiveOne(after, now, entries, ever, newly[i], noack, consumer, at);
    GivenMore(g, h, after, now, newly[..i], newly[i], noack, consumer, at);
  }

  lemma {:induction false} GiveOne(
      after: Group, now: History, entries: set<Id>, ever: set<Id>, id: Id, noack: bool, consumer: string, at: u64)
    requires GroupOk(after, now, entries, ever) && entries <= ever && consumer in after.consumers
    requires IsNext(entries, after.last, id)
    ensures GroupOk(Gave(after, id, noack, consumer, at), now.(given := now.given + [id]), entries, ever)
  {
    GroupGives(after, now, entries, ever, id, Noted(after.pending, id, noack, consumer, at));
  }

  lemma {:induction false} GiveNone(
      g: Group, h: History, entries: set<Id>, ever: set<Id>, newly: seq<Id>, noack: bool, consumer: string, at: u64)
    requires GroupOk(g, h, entries, ever)
    ensures Giving(g, h, entries, ever, g, h, newly, 0, noack, consumer, at)
  {
    assert h.given + [] == h.given;
  }

  /** Hands entries out one by one. */
  method GiveOut(g: Group, ghost h: History, ghost entries: set<Id>, ghost ever: set<Id>, ghost count: nat, newly: seq<Id>,
                 noack: bool, consumer: string, at: u64)
    returns (after: Group, ghost now: History)
    requires GroupOk(g, h, entries, ever) && entries <= ever && consumer in g.consumers
    requires newly == Fresh(entries, g.last, count)
    ensures GroupOk(after, now, entries, ever) && Given(g, h, after, now, newly, noack, consumer, at)
  {
    after, now := g, h;
    GiveNone(g, h, entries, ever, newly, noack, consumer, at);
    for i := 0 to |newly|
      invariant Giving(g, h, entries, ever, after, now, newly, i, noack, consumer, at)
    {
      FreshNext(entries, g.last, count, i);
      GiveNext(g, h, entries, ever, newly, i, after, now, noack, consumer, at);
      now := now.(given := now.given + [newly[i]]);
      after := Gave(after, newly[i], noack, consumer, at);
    }
    assert newly[..|newly|] == newly;
  }

  /** A consumer that reads has a seat. */
  function Sit(g: Group, consumer: string, now: u64, got: bool): Group
  {
    var seat := if consumer in g.consumers then g.consumers[consumer] else Consumer(0, None);
    g.(consumers := g.consumers[consumer := Consumer(now, if got then Some(now) else seat.active)])
  }

  lemma {:induction false} SitSeen(g: Group, consumer: string, now: u64, got: bool)
    ensures Seen(g.consumers, Sit(g, consumer, now, got).consumers, consumer, now, got)
  {}

  lemma {:induction false} Sits(g: Group, h: History, entries: set<Id>, ever: set<Id>, consumer: string, now: u64, got: bool)
    requires GroupOk(g, h, entries, ever)
    ensures GroupOk(Sit(g, consumer, now, got), h, entries, ever)
  {}

  // ---- claiming --------------------------------------------------------------------------------------

  function Idle(now: u64, since: u64): u64
  {
    if now > since then now - since else 0
  }

  /** An entry has been pending for as long as is asked when that much time has passed since it was delivered. */
  lemma {:induction false} IdleLongEnough(now: u64, since: u64, least: u64)
    ensures Idle(now, since) >= least <==> least == 0 || now as int >= since as int + least as int
  {}

  /** How XCLAIM claims: as delivered when, counted how, and entries not pending too. */
  datatype Claim = Claim(consumer: string, minIdle: u64, delivered: u64, retry: Option<nat>, force: bool, justid: bool, now: u64)

  /** Whether an entry is claimed: one that is still there, and pending for long enough, or never
      delivered, or not pending and forced. */
  predicate Claims(pending: map<Id, Pending>, entries: set<Id>, id: Id, how: Claim)
  {
    && id in entries
    && if id in pending then Idle(how.now, pending[id].delivered) >= how.minIdle || pending[id].count == 0 else how.force
  }

  /** How often an entry named so often is claimed: once, unless what is delivered then can be claimed at once. */
  function Times(how: Claim, named: nat): nat
  {
    if Idle(how.now, how.delivered) >= how.minIdle || named == 0 then named else 1
  }

  /** How an entry was delivered once it was claimed: counted as told to, or once more for each claim. */
  function Delivery(before: map<Id, Pending>, id: Id, how: Claim, named: nat): Pending
  {
    var count := if id in before then before[id].count else 0;
    Pending(how.consumer, how.delivered,
            if how.retry.Some? then how.retry.value else count + if how.justid then 0 else Times(how, named))
  }

  /** What claiming some entries makes of the pending ones. */
  ghost predicate Claimed(before: map<Id, Pending>, after: map<Id, Pending>, entries: set<Id>, ids: seq<Id>, how: Claim)
  {
    forall id {:trigger id in after} {:trigger id in before} {:trigger ClaimedAt(before, after, entries, ids, how, id)} ::
      ClaimedAt(before, after, entries, ids, how, id)
  }

  ghost predicate ClaimedAt(before: map<Id, Pending>, after: map<Id, Pending>, entries: set<Id>, ids: seq<Id>, how: Claim, id: Id)
  {
    && (id in after <==> (id in before && (id in ids ==> id in entries)) || (id in ids && Claims(before, entries, id, how)))
    && (id in after ==>
          after[id] == (if id in ids && Claims(before, entries, id, how) then Delivery(before, id, how, multiset(ids)[id]) else before[id]))
  }

  /** Those claimed are listed, as often as they were. */
  ghost predicate Listed(before: map<Id, Pending>, entries: set<Id>, ids: seq<Id>, how: Claim, out: seq<Id>)
  {
    forall id :: id in out <==> id in ids && Claims(before, entries, id, how)
  }

  lemma {:induction false} ListedAny(before: map<Id, Pending>, entries: set<Id>, ids: seq<Id>, how: Claim, out: seq<Id>)
    requires Listed(before, entries, ids, how, out)
    ensures out != [] <==> exists id :: id in ids && Claims(before, entries, id, how)
  {
    if out != [] {
      assert out[0] in out;
    }
  }

  /** Claims one entry; `None` when it is skipped, and else what is pending then and whether it was claimed. */
  function ClaimOne(pending: map<Id, Pending>, entries: set<Id>, id: Id, how: Claim): (map<Id, Pending>, bool)
  {
    if id !in pending && !(how.force && id in entries) then (pending, false)
    else if id !in entries then (pending - {id}, false)
    else
      var slot := if id in pending then pending[id] else Pending(how.consumer, how.delivered, 0);
      if Idle(how.now, slot.delivered) < how.minIdle && slot.count > 0 then (pending, false)
      else
        var count := if how.retry.Some? then how.retry.value else slot.count + if how.justid then 0 else 1;
        (pending[id := Pending(how.consumer, how.delivered, count)], true)
  }

  lemma {:induction false} ClaimedOne(
      before: map<Id, Pending>, after: map<Id, Pending>, entries: set<Id>, ids: seq<Id>, how: Claim, id: Id)
    requires Claimed(before, after, entries, ids, how)
    ensures var (now, claimed) := ClaimOne(after, entries, id, how);
      && Claimed(before, now, entries, ids + [id], how)
      && (claimed ==> Claims(before, entries, id, how)) && (Claims(before, entries, id, how) && !claimed ==> id in ids)
  {
    var more := ids + [id];
    var (now, claimed) := ClaimOne(after, entries, id, how);
    forall other ensures ClaimedAt(before, now, entries, more, how, other) {
      assert other in more <==> other in ids || other == id;
      assert multiset(more)[other] == multiset(ids)[other] + if other == id then 1 else 0;
      assert ClaimedAt(before, after, entries, ids, how, other);
    }
  }

  /** Some entries are claimed and listed, and that is noted if it changed anything. */
  ghost predicate Claiming(
      before: map<Id, Pending>, after: map<Id, Pending>, entries: set<Id>, ids: seq<Id>, how: Claim, out: seq<Id>, dirty: bool)
  {
    Claimed(before, after, entries, ids, how) && Listed(before, entries, ids, how, out) && (after != before || out != [] ==> dirty)
  }

  lemma {:induction false} ClaimingOne(
      before: map<Id, Pending>, after: map<Id, Pending>, entries: set<Id>, ids: seq<Id>, how: Claim, out: seq<Id>, dirty: bool, id: Id)
    requires Claiming(before, after, entries, ids, how, out, dirty)
    ensures var (now, claimed) := ClaimOne(after, entries, id, how);
      Claiming(before, now, entries, ids + [id], how, if claimed then out + [id] else out, dirty || claimed || (id in after && id !in now))
  {
    ClaimedOne(before, after, entries, ids, how, id);
    var (now, claimed) := ClaimOne(after, entries, id, how);
    ListedOne(before, entries, ids, how, out, id, claimed);
    assert !claimed && id !in after ==> now == after;
  }

  lemma {:induction false} ListedOne(
      before: map<Id, Pending>, entries: set<Id>, ids: seq<Id>, how: Claim, out: seq<Id>, id: Id, claimed: bool)
    requires Listed(before, entries, ids, how, out)
    requires (claimed ==> Claims(before, entries, id, how)) && (Claims(before, entries, id, how) && !claimed ==> id in ids)
    ensures Listed(before, entries, ids + [id], how, if claimed then out + [id] else out)
  {
    assert forall other :: other in ids + [id] <==> other in ids || other == id;
    assert forall other :: other in out + [id] <==> other in out || other == id;
  }

  /** Claims entries one by one, and lists those claimed. */
  method ClaimAll(pending: map<Id, Pending>, entries: map<Id, Fields>, ids: seq<Id>, how: Claim)
    returns (after: map<Id, Pending>, out: seq<Id>, dirty: bool)
    ensures Claimed(pending, after, entries.Keys, ids, how) && Listed(pending, entries.Keys, ids, how, out)
    ensures after != pending || out != [] ==> dirty
  {
    after, out, dirty := pending, [], false;
    for i := 0 to |ids|
      invariant Claiming(pending, after, entries.Keys, ids[..i], how, out, dirty)
    {
      var id := ids[i];
      ClaimingOne(pending, after, entries.Keys, ids[..i], how, out, dirty, id);
      assert ids[..i + 1] == ids[..i] + [id];
      var (now, claimed) := ClaimOne(after, entries.Keys, id, how);
      dirty := dirty || claimed || (id in after && id !in now);
      out := if claimed then out + [id] else out;
      after := now;
    }
    assert ids[..|ids|] == ids;
  }

  /** A consumer that claimed something has a seat. */
  function Seat(consumers: map<string, Consumer>, consumer: string, claimed: bool, now: u64): map<string, Consumer>
  {
    if !claimed then consumers
    else consumers[consumer := Consumer(now, if consumer in consumers then consumers[consumer].active else None)]
  }

  lemma {:induction false} ClaimSeats(
      g: Group, after: map<Id, Pending>, entries: set<Id>, ever: set<Id>, ids: seq<Id>, how: Claim, out: seq<Id>)
    requires Seated(g, ever) && entries <= ever && Claimed(g.pending, after, entries, ids, how) && Listed(g.pending, entries, ids, how, out)
    ensures Seated(g.(pending := after, consumers := Seat(g.consumers, how.consumer, out != [], how.now)), ever)
  {
    forall id | id in after ensures id in ever && after[id].consumer in Seat(g.consumers, how.consumer, out != [], how.now) {
      if id in ids && Claims(g.pending, entries, id, how) {
        assert id in out;
      }
    }
  }

  // ---- claiming what is pending for long ------------------------------------------------------------

  function From(ids: set<Id>, start: Id): set<Id>
  {
    set id | id in ids && AtMost(start, id)
  }

  /** The first pending entry past those looked at; none when nothing was looked at. */
  function NextFrom(ids: set<Id>, looked: seq<Id>): Id
  {
    if looked == [] || Past(ids, looked[|looked| - 1]) == {} then ZERO else Least(Past(ids, looked[|looked| - 1]))
  }

  /** The pending entries XAUTOCLAIM looks at: from `start` on, as many as asked for. */
  function Looked(pending: map<Id, Pending>, start: Id, count: nat): seq<Id>
  {
    First(Ascending(From(pending.Keys, start)), if count == 0 then 1 else count)
  }

  /** They are the first pending ones from `start` on. */
  lemma {:induction false} LookedAmong(pending: map<Id, Pending>, start: Id, count: nat)
    ensures FirstAmong((set id | id in pending && !Less(id, start)), count, Looked(pending, start, count))
  {
    FirstIsAmong(From(pending.Keys, start), count);
    assert From(pending.Keys, start) == set id | id in pending && !Less(id, start);
  }

  /** What is left to look at lies from `next` on. */
  ghost predicate Covers(pending: map<Id, Pending>, start: Id, looked: seq<Id>, next: Id)
  {
    forall id :: id in pending && AtMost(start, id) ==> id in looked || (next != ZERO && AtMost(next, id))
  }

  lemma {:induction false} NextCovers(pending: map<Id, Pending>, start: Id, count: nat)
    ensures var looked := Looked(pending, start, count);
      Rising(looked) && (forall id :: id in looked ==> id in pending) && Covers(pending, start, looked, NextFrom(pending.Keys, looked))
  {
    var all := Ascending(From(pending.Keys, start));
    var looked := Looked(pending, start, count);
    var next := NextFrom(pending.Keys, looked);
    forall id | id in looked ensures id in pending {
      assert id in all;
    }
    forall id | id in pending && AtMost(start, id) ensures id in looked || (next != ZERO && AtMost(next, id)) {
      assert id in From(pending.Keys, start);
      var j :| 0 <= j < |all| && all[j] == id;
      if j >= |looked| {
        assert looked[|looked| - 1] == all[|looked| - 1];
        assert id in Past(pending.Keys, looked[|looked| - 1]);
      } else {
        assert looked[j] == id;
      }
    }
  }

  predicate Idled(pending: map<Id, Pending>, id: Id, minIdle: u64, now: u64)
    requires id in pending
  {
    Idle(now, pending[id].delivered) >= minIdle
  }

  /** What looking at some pending entries makes of them: those deleted meanwhile are dropped, those
      pending for long enough are claimed, and the rest stay. */
  ghost predicate Swept(
      before: map<Id, Pending>, after: map<Id, Pending>, entries: set<Id>, looked: seq<Id>, consumer: string, minIdle: u64, justid: bool, now: u64,
      claimed: seq<Id>, deleted: seq<Id>)
  {
    && (forall id :: id in deleted <==> id in looked && id in before && id !in entries)
    && (forall id :: id in claimed <==> id in looked && id in before && id in entries && Idled(before, id, minIdle, now))
    && (forall id :: id in after <==> id in before && id !in deleted)
    && (forall id :: id in after ==>
          after[id] == if id in claimed then Pending(consumer, now, before[id].count + if justid then 0 else 1) else before[id])
  }

  lemma {:induction false} SweptMore(
      before: map<Id, Pending>, after: map<Id, Pending>, entries: set<Id>, looked: seq<Id>, consumer: string, minIdle: u64, justid: bool, now: u64,
      claimed: seq<Id>, deleted: seq<Id>, id: Id)
    requires Swept(before, after, entries, looked, consumer, minIdle, justid, now, claimed, deleted) && id in before && id !in looked
    ensures id in after && after[id] == before[id]
    ensures id !in entries ==> Swept(before, after - {id}, entries, looked + [id], consumer, minIdle, justid, now, claimed, deleted + [id])
    ensures id in entries && !Idled(before, id, minIdle, now) ==>
              Swept(before, after, entries, looked + [id], consumer, minIdle, justid, now, claimed, deleted)
    ensures id in entries && Idled(before, id, minIdle, now) ==>
              Swept(before, after[id := Pending(consumer, now, before[id].count + if justid then 0 else 1)], entries, looked + [id],
                    consumer, minIdle, justid, now, claimed + [id], deleted)
  {
    assert forall other :: other in looked + [id] <==> other in looked || other == id;
    assert forall other :: other in deleted + [id] <==> other in deleted || other == id;
    assert forall other :: other in claimed + [id] <==> other in claimed || other == id;
  }

  lemma {:induction false} SweptNone(
      before: map<Id, Pending>, after: map<Id, Pending>, entries: set<Id>, looked: seq<Id>, consumer: string, minIdle: u64, justid: bool, now: u64)
    requires Swept(before, after, entries, looked, consumer, minIdle, justid, now, [], [])
    ensures after == before
  {}

  method Sweep(pending: map<Id, Pending>, entries: map<Id, Fields>, looked: seq<Id>, consumer: string, minIdle: u64, justid: bool, now: u64)
    returns (after: map<Id, Pending>, claimed: seq<Id>, deleted: seq<Id>)
    requires Rising(looked) && forall id :: id in looked ==> id in pending
    ensures Swept(pending, after, entries.Keys, looked, consumer, minIdle, justid, now, claimed, deleted)
  {
    after, claimed, deleted := pending, [], [];
    for i := 0 to |looked|
      invariant Swept(pending, after, entries.Keys, looked[..i], consumer, minIdle, justid, now, claimed, deleted)
    {
      var id := looked[i];
      assert looked[..i + 1] == looked[..i] + [id];
      assert id in looked && id !in looked[..i];
      SweptMore(pending, after, entries.Keys, looked[..i], consumer, minIdle, justid, now, claimed, deleted, id);
      if id !in entries {
        after, deleted := after - {id}, deleted + [id];
      } else if Idle(now, after[id].delivered) >= minIdle {
        after, claimed := after[id := Pending(consumer, now, after[id].count + if justid then 0 else 1)], claimed + [id];
      }
    }
    assert looked[..|looked|] == looked;
  }

  lemma {:induction false} SweepSeats(
      g: Group, after: map<Id, Pending>, entries: set<Id>, ever: set<Id>, looked: seq<Id>, consumer: string, minIdle: u64, justid: bool, now: u64,
      claimed: seq<Id>, deleted: seq<Id>)
    requires Seated(g, ever) && Swept(g.pending, after, entries, looked, consumer, minIdle, justid, now, claimed, deleted)
    ensures Seated(g.(pending := after, consumers := Seat(g.consumers, consumer, claimed != [] || deleted != [], now)), ever)
  {}

  /** What XAUTOCLAIM does to a group, and replies: where to go on, what it claimed, what was deleted. */
  ghost predicate AutoClaimed(
      g: Group, after: Group, entries: set<Id>, consumer: string, minIdle: u64, start: Id, count: nat, justid: bool, now: u64,
      out: (Id, seq<Id>, seq<Id>))
  {
    var looked := Looked(g.pending, start, count);
    && after.last == g.last && after.read == g.read
    && after.consumers == Seat(g.consumers, consumer, out.1 != [] || out.2 != [], now)
    && Swept(g.pending, after.pending, entries, looked, consumer, minIdle, justid, now, out.1, out.2)
    && Covers(g.pending, start, looked, out.0)
  }

  method AutoClaim(g: Group, entries: map<Id, Fields>, ghost ever: set<Id>, consumer: string, minIdle: u64, start: Id, count: nat,
                   justid: bool, now: u64)
    returns (after: Group, out: (Id, seq<Id>, seq<Id>), dirty: bool)
    requires Seated(g, ever)
    ensures after.last == g.last && after.read == g.read
    ensures Seated(after, ever) && AutoClaimed(g, after, entries.Keys, consumer, minIdle, start, count, justid, now, out)
    ensures dirty == (out.1 != [] || out.2 != []) && (!dirty ==> after == g)
  {
    var looked := Looked(g.pending, start, count);
    NextCovers(g.pending, start, count);
    var pending, claimed, deleted := Sweep(g.pending, entries, looked, consumer, minIdle, justid, now);
    SweepSeats(g, pending, entries.Keys, ever, looked, consumer, minIdle, justid, now, claimed, deleted);
    after := g.(pending := pending, consumers := Seat(g.consumers, consumer, claimed != [] || deleted != [], now));
    out := (NextFrom(g.pending.Keys, looked), claimed, deleted);
    dirty := claimed != [] || deleted != [];
    if !dirty {
      SweptNone(g.pending, pending, entries.Keys, looked, consumer, minIdle, justid, now);
    }
  }

  lemma {:induction false} KeptSize(pending: map<Id, Pending>, kept: map<Id, Pending>)
    requires kept.Keys <= pending.Keys
    ensures |kept| <= |pending|
  {
    assert |kept.Keys| == |kept| && |pending.Keys| == |pending|;
    Smaller(kept.Keys, pending.Keys);
  }

  /** Takes acknowledged entries off the pending ones, and counts them. */
  method AckAll(pending: map<Id, Pending>, ids: seq<Id>) returns (after: map<Id, Pending>, acked: nat)
    ensures after == pending - Elements(ids) && acked + |after| == |pending|
  {
    after, acked := pending, 0;
    for i := 0 to |ids|
      invariant after == pending - Elements(ids[..i]) && acked + |after| == |pending|
    {
      AckMore(pending, after, ids, i);
      if ids[i] in after {
        PendingLess(after, ids[i]);
        after, acked := after - {ids[i]}, acked + 1;
      }
    }
    assert ids[..|ids|] == ids;
  }

  lemma {:induction false} AckMore(pending: map<Id, Pending>, after: map<Id, Pending>, ids: seq<Id>, i: nat)
    requires i < |ids| && after == pending - Elements(ids[..i])
    ensures after - {ids[i]} == pending - Elements(ids[..i + 1])
    ensures ids[i] !in after ==> after == pending - Elements(ids[..i + 1])
  {
    assert ids[..i + 1] == ids[..i] + [ids[i]];
    assert Elements(ids[..i + 1]) == Elements(ids[..i]) + {ids[i]};
  }

  function Kept(pending: map<Id, Pending>, consumer: string): map<Id, Pending>
  {
    map id | id in pending && pending[id].consumer != consumer :: pending[id]
  }

  function Mine(pending: map<Id, Pending>, consumer: string, mark: Id): set<Id>
  {
    set id | id in pending && Less(mark, id) && pending[id].consumer == consumer
  }

  /** What is pending for a consumer past a mark, as many as asked for. */
  function Again(pending: map<Id, Pending>, consumer: string, mark: Id, count: nat): seq<Id>
  {
    First(Ascending(Mine(pending, consumer, mark)), if count == 0 then 1 else count)
  }

  lemma {:induction false} AgainAmong(pending: map<Id, Pending>, consumer: string, mark: Id, count: nat)
    ensures FirstAmong((set id | id in pending && pending[id].consumer == consumer && Less(mark, id)), count, Again(pending, consumer, mark, count))
  {
    FirstIsAmong(Mine(pending, consumer, mark), count);
    assert Mine(pending, consumer, mark) == set id | id in pending && pending[id].consumer == consumer && Less(mark, id);
  }

  lemma {:induction false} PendingLess(pending: map<Id, Pending>, id: Id)
    requires id in pending
    ensures |pending - {id}| == |pending| - 1
  {
    var less := pending - {id};
    assert less.Keys == pending.Keys - {id};
    assert |less.Keys| == |less| && |pending.Keys| == |pending|;
  }

  /** A group without a consumer, nor what was pending for it. */
  function Dismissed(g: Group, consumer: string): Group
  {
    g.(pending := Kept(g.pending, consumer), consumers := g.consumers - {consumer})
  }

  /** A consumer that is not registered has nothing pending. */
  lemma {:induction false} DismissedOk(g: Group, h: History, entries: set<Id>, ever: set<Id>, consumer: string)
    requires GroupOk(g, h, entries, ever)
    ensures GroupOk(Dismissed(g, consumer), h, entries, ever)
    ensures |Kept(g.pending, consumer)| <= |g.pending|
    ensures consumer !in g.consumers ==> Dismissed(g, consumer) == g
  {
    KeptSize(g.pending, Kept(g.pending, consumer));
    if consumer !in g.consumers {
      assert Kept(g.pending, consumer) == g.pending;
      assert g.consumers - {consumer} == g.consumers;
    }
  }

  /** Groups that differ in no more than when a consumer was seen. */
  ghost predicate Alike(before: map<string, Group>, after: map<string, Group>)
  {
    && after.Keys == before.Keys
    && forall name :: name in before ==>
         && after[name].last == before[name].last && after[name].read == before[name].read
         && after[name].pending == before[name].pending && after[name].consumers.Keys == before[name].consumers.Keys
  }

  lemma {:induction false} AlikeOne(groups: map<string, Group>, name: string, g: Group)
    requires name in groups && g.last == groups[name].last && g.read == groups[name].read
    requires g.pending == groups[name].pending && g.consumers.Keys == groups[name].consumers.Keys
    ensures Alike(groups, groups[name := g])
  {}

  /** A consumer that had a seat and gets nothing changes no more than when it was seen. */
  lemma {:induction false} GivenNone(
      g: Group, h: History, after: Group, now: History, noack: bool, consumer: string, at: u64)
    requires consumer in g.consumers && Given(Sit(g, consumer, at, false), h, after, now, [], noack, consumer, at)
    ensures now == h && after.last == g.last && after.read == g.read && after.pending == g.pending
    ensures after.consumers.Keys == g.consumers.Keys
  {
    assert h.given + [] == h.given;
  }

  /** A group further on: what it handed out stays handed out. */
  ghost predicate Further(before: History, after: History)
  {
    && after.start == before.start && after.reset == before.reset
    && before.given <= after.given && before.lost <= after.lost
  }

  /** Groups go on from where they were: none is gone. */
  ghost predicate Onward(before: map<string, History>, after: map<string, History>)
  {
    forall name :: name in before ==> name in after && Further(before[name], after[name])
  }

  // ---- what every command does -----------------------------------------------------------------

  datatype Deed =
    | Add(arg: IdArg, fields: Fields, trim: Option<Trim>, now: u64, max: nat)
    | Del(ids: seq<Id>)
    | Cut(rule: Trim)
    | NewGroup(name: string, at: Option<Id>)
    | Read(name: string, consumer: string, count: nat, noack: bool, now: u64)
    | Claiming(name: string, ids: seq<Id>, how: Claim)
    | AutoClaiming(name: string, consumer: string, minIdle: u64, start: Id, count: nat, justid: bool, now: u64)
    | Seating(name: string, seating: Seating)

  /** Commands about a group's consumers and what is pending for them. */
  datatype Seating =
    | NewConsumer(consumer: string, now: u64)
    | NoConsumer(consumer: string)
    | Reread(consumer: string, mark: Id, count: nat, now: u64)
    | Acknowledge(ids: seq<Id>)

  ghost function Seats(g: Group, seating: Seating): Group
  {
    match seating
    case NewConsumer(consumer, now) =>
      if consumer in g.consumers then g else g.(consumers := g.consumers[consumer := Consumer(now, None)])
    case NoConsumer(consumer) => Dismissed(g, consumer)
    case Reread(consumer, mark, count, now) => Sit(g, consumer, now, false)
    case Acknowledge(ids) => g.(pending := g.pending - Elements(ids))
  }

  /** A stream at one time, with all the ids it ever held and what each group has handed out. */
  datatype Snapshot = Snapshot(
    entries: map<Id, Fields>, lastId: Id, ever: set<Id>, groups: map<string, Group>, given: map<string, seq<Id>>)

  ghost predicate Added(b: Snapshot, a: Snapshot, arg: IdArg, fields: Fields, trim: Option<Trim>, now: u64, max: nat)
  {
    var r := Admitted(arg, b.lastId, now, b.entries, trim, max, false);
    if r.Err? then a == b
    else
      && a == b.(entries := a.entries, lastId := r.value, ever := b.ever + {r.value})
      && Grown(b.entries, a.entries, r.value, fields, trim)
  }

  ghost predicate Begun(b: Snapshot, a: Snapshot, name: string, at: Option<Id>)
  {
    var start := if at.Some? then at.value else b.lastId;
    if name in b.groups then a == b
    else a == b.(groups := b.groups[name := Group(start, 0, map[], map[])], given := b.given[name := []])
  }

  /** A group that handed out some entries. */
  ghost predicate Served(b: Snapshot, a: Snapshot, name: string, consumer: string, count: nat, noack: bool, now: u64)
  {
    if name !in b.groups then a == b
    else
      var newly := Fresh(b.entries.Keys, b.groups[name].last, count);
      && name in a.groups && name in b.given
      && a == b.(groups := b.groups[name := a.groups[name]], given := b.given[name := b.given[name] + newly])
      && HandsOver(Sit(b.groups[name], consumer, now, newly != []), a.groups[name], newly, noack, consumer, now)
  }

  ghost predicate ClaimedBy(b: Snapshot, a: Snapshot, name: string, ids: seq<Id>, how: Claim)
  {
    if name !in b.groups then a == b
    else
      var g := b.groups[name];
      var any := exists id :: id in ids && Claims(g.pending, b.entries.Keys, id, how);
      && name in a.groups && a == b.(groups := b.groups[name := a.groups[name]])
      && a.groups[name] == g.(pending := a.groups[name].pending, consumers := Seat(g.consumers, how.consumer, any, how.now))
      && Claimed(g.pending, a.groups[name].pending, b.entries.Keys, ids, how)
  }

  ghost predicate AutoClaimedBy(
      b: Snapshot, a: Snapshot, name: string, consumer: string, minIdle: u64, start: Id, count: nat, justid: bool, now: u64)
  {
    if name !in b.groups then a == b
    else
      && name in a.groups && a == b.(groups := b.groups[name := a.groups[name]])
      && exists out :: AutoClaimed(b.groups[name], a.groups[name], b.entries.Keys, consumer, minIdle, start, count, justid, now, out)
  }

  /** A group that became another. */
  predicate Became(b: Snapshot, a: Snapshot, name: string, g: Group)
  {
    a == b.(groups := b.groups[name := g])
  }

  /** What a command makes of a stream. */
  ghost predicate Did(b: Snapshot, deed: Deed, a: Snapshot)
  {
    match deed
    case Add(arg, fields, trim, now, max) => Added(b, a, arg, fields, trim, now, max)
    case Del(ids) => a == b.(entries := b.entries - Elements(ids))
    case Cut(trim) => a == b.(entries := a.entries) && Trimmed(b.entries.Keys, a.entries.Keys, trim) && Part(a.entries, b.entries)
    case NewGroup(name, at) => Begun(b, a, name, at)
    case Read(name, consumer, count, noack, now) => Served(b, a, name, consumer, count, noack, now)
    case Claiming(name, ids, how) => ClaimedBy(b, a, name, ids, how)
    case AutoClaiming(name, consumer, minIdle, start, count, justid, now) =>
      AutoClaimedBy(b, a, name, consumer, minIdle, start, count, justid, now)
    case Seating(name, seating) => if name in b.groups then Became(b, a, name, Seats(b.groups[name], seating)) else a == b
  }

  /** What a command hands a group's consumers. */
  function Delivered(b: Snapshot, deed: Deed, name: string): seq<Id>
  {
    if deed.Read? && deed.name == name && name in b.groups then Fresh(b.entries.Keys, b.groups[name].last, deed.count) else []
  }

  /** A run: how it began, and each command with what it led to. */
  datatype Story = Opening(now: Snapshot) | Later(before: Story, deed: Deed, now: Snapshot)
  {
    function Deeds(): seq<Deed>
    {
      if Opening? then [] else before.Deeds() + [deed]
    }

    function Start(): Snapshot
    {
      if Opening? then now else before.Start()
    }

    /** Each command did what it is to do. */
    ghost predicate Holds()
    {
      Later? ==> before.Holds() && Did(before.now, deed, now)
    }

    /** What the commands handed a group's consumers, in order. */
    function Deliveries(name: string): seq<Id>
    {
      if Opening? then [] else before.Deliveries(name) + Delivered(before.now, deed, name)
    }
  }

  /** What a group has handed out; nothing, if there is none. */
  function GivenBy(s: Snapshot, name: string): seq<Id>
  {
    if name in s.given then s.given[name] else []
  }

  /** The groups there are, and what each handed out, as before but that `name` handed out more. */
  ghost predicate GaveOut(b: Snapshot, a: Snapshot, name: string, more: seq<Id>)
  {
    && b.groups.Keys <= a.groups.Keys == a.given.Keys
    && GivenBy(a, name) == GivenBy(b, name) + more
  }

  lemma {:induction false} SameGiven(b: Snapshot, a: Snapshot, name: string)
    requires b.groups.Keys == b.given.Keys && a.groups.Keys == b.groups.Keys && a.given == b.given
    ensures GaveOut(b, a, name, [])
  {
    assert GivenBy(b, name) + [] == GivenBy(b, name);
  }

  lemma {:induction false} BegunGives(b: Snapshot, a: Snapshot, group: string, at: Option<Id>, name: string)
    requires Begun(b, a, group, at) && b.groups.Keys == b.given.Keys
    ensures GaveOut(b, a, name, [])
  {
    assert GivenBy(b, name) + [] == GivenBy(b, name);
  }

  lemma {:induction false} ServedGives(
      b: Snapshot, a: Snapshot, group: string, consumer: string, count: nat, noack: bool, now: u64, name: string)
    requires Served(b, a, group, consumer, count, noack, now) && b.groups.Keys == b.given.Keys
    ensures GaveOut(b, a, name, Delivered(b, Read(group, consumer, count, noack, now), name))
  {
    assert GivenBy(b, name) + [] == GivenBy(b, name);
  }

  lemma {:induction false} DidGives(b: Snapshot, deed: Deed, a: Snapshot, name: string)
    requires Did(b, deed, a) && b.groups.Keys == b.given.Keys
    ensures GaveOut(b, a, name, Delivered(b, deed, name))
  {
    match deed
    case NewGroup(group, at) => BegunGives(b, a, group, at, name);
    case Read(group, consumer, count, noack, now) => ServedGives(b, a, group, consumer, count, noack, now, name);
    case Add(_, _, _, _, _) => SameGiven(b, a, name);
    case Del(_) => SameGiven(b, a, name);
    case Cut(_) => SameGiven(b, a, name);
    case Claiming(_, _, _) => SameGiven(b, a, name);
    case AutoClaiming(_, _, _, _, _, _, _) => SameGiven(b, a, name);
    case Seating(_, _) => SameGiven(b, a, name);
  }

  /** One group handed out more. */
  lemma {:induction false} GivensPut(past: map<string, History>, name: string, h: History)
    ensures Givens(past[name := h]) == Givens(past)[name := h.given]
  {}

  lemma {:induction false} AddedOn(start: seq<Id>, earlier: seq<Id>, more: seq<Id>, before: seq<Id>, after: seq<Id>)
    requires before == start + earlier && after == before + more
    ensures after == start + (earlier + more)
  {}

  /** What a group has handed out in a run, be it there at the start or created on the way, is what its consumers
      were replied, in order. No group goes. */
  lemma {:induction false} StoryGives(story: Story, name: string)
    requires story.Holds() && story.Start().groups.Keys == story.Start().given.Keys
    ensures story.Start().groups.Keys <= story.now.groups.Keys == story.now.given.Keys
    ensures GivenBy(story.now, name) == GivenBy(story.Start(), name) + story.Deliveries(name)
  {
    var start := GivenBy(story.Start(), name);
    if story.Opening? {
      assert start + [] == start;
    } else {
      var before := story.before;
      StoryGives(before, name);
      DidGives(before.now, story.deed, story.now, name);
      AddedOn(start, before.Deliveries(name), Delivered(before.now, story.deed, name), GivenBy(before.now, name), GivenBy(story.now, name));
    }
  }

  class Stream {
    var entries: map<Id, Fields>
    var lastId: Id
    var added: nat
    var maxDeleted: Id
    var groups: map<string, Group>
    /** Every entry there ever was, and each group's past. */
    ghost var ever: set<Id>
    ghost var past: map<string, History>

    constructor ()
      ensures Valid() && entries == map[] && groups == map[] && lastId == ZERO
    {
      entries, lastId, added, maxDeleted, groups, ever, past := map[], ZERO, 0, ZERO, map[], {}, map[];
    }

    ghost predicate Valid()
      reads this
    {
      && EntriesOk(entries.Keys, ever, added, lastId, maxDeleted)
      && GroupsOk(groups, past, entries.Keys, ever)
    }

    ghost function Now(): Snapshot
      reads this
    {
      Snapshot(entries, lastId, ever, groups, Givens(past))
    }

    // ---- entries ------------------------------------------------------------------------------

    /** XDEL: how many of the named entries were there. */
    method XDel(ids: seq<Id>) returns (removed: nat)
      requires Valid()
      modifies this`entries, this`maxDeleted, this`past
      ensures Onward(old(past), past)
      ensures Valid() && entries == old(entries) - Elements(ids) && Givens(past) == Givens(old(past))
      ensures removed + |entries| == |old(entries)|
    {
      var kept, max;
      kept, max, removed := Without(entries, ids, maxDeleted);
      EntriesGone(entries.Keys, ever, added, lastId, maxDeleted, kept.Keys, max);
      GroupsLose(groups, past, entries.Keys, ever, kept.Keys);
      past := AllLosing(groups, past, entries.Keys - kept.Keys);
      entries, maxDeleted := kept, max;
    }

    /** XTRIM. */
    method XTrim(trim: Trim) returns (dropped: nat)
      requires Valid()
      modifies this`entries, this`maxDeleted, this`past
      ensures Onward(old(past), past)
      ensures Valid() && Trimmed(old(entries).Keys, entries.Keys, trim) && Givens(past) == Givens(old(past))
      ensures Part(entries, old(entries)) && dropped + |entries| == |old(entries)|
    {
      var kept, max;
      kept, max, dropped := TrimTo(entries, trim, maxDeleted);
      EntriesGone(entries.Keys, ever, added, lastId, maxDeleted, kept.Keys, max);
      GroupsLose(groups, past, entries.Keys, ever, kept.Keys);
      past := AllLosing(groups, past, entries.Keys - kept.Keys);
      entries, maxDeleted := kept, max;
    }

    /** XADD: room is counted as it will be after the trim. */
    method XAdd(arg: IdArg, fields: Fields, trim: Option<Trim>, now: u64, maxElements: nat, replay: bool) returns (r: Result<Id, string>)
      requires Valid()
      modifies this
      ensures Onward(old(past), past)
      ensures Valid() && groups == old(groups) && Givens(past) == Givens(old(past))
      ensures r == Admitted(arg, old(lastId), now, old(entries), trim, maxElements, replay)
      ensures r.Ok? ==> Suits(arg, r.value, old(lastId), now)
      ensures r.Ok? ==> forall other :: Suits(arg, other, old(lastId), now) ==> AtMost(r.value, other)
      ensures r.Err? ==> r.error == FULL || forall id :: !Suits(arg, id, old(lastId), now)
      ensures r == Err(FULL) ==> !replay && |old(entries)| >= maxElements && exists id :: Suits(arg, id, old(lastId), now)
      ensures r.Err? ==> entries == old(entries) && lastId == old(lastId) && ever == old(ever) && past == old(past)
      ensures r.Ok? ==> lastId == r.value && Less(old(lastId), r.value) && ever == old(ever) + {r.value} && added == old(added) + 1
      ensures r.Ok? ==> Grown(old(entries), entries, r.value, fields, trim)
      ensures !replay ==> |entries| <= if |old(entries)| > maxElements then |old(entries)| else maxElements
    {
      r := Named(arg, lastId, now);
      NamedSuits(arg, lastId, now);
      if r.Err? {
        return;
      }
      var id := r.value;
      if Dropped(entries, trim, id) == 0 && !replay && |entries| + 1 > maxElements {
        return Err(FULL);
      }
      Enter(id, fields, trim);
      if !replay {
        RoomKept(arg, old(lastId), now, old(entries), entries, fields, trim, maxElements);
      }
    }

    /** Adds an entry past all there ever was, and trims. */
    method Enter(id: Id, fields: Fields, trim: Option<Trim>)
      requires Valid() && Less(lastId, id)
      modifies this
      ensures Onward(old(past), past)
      ensures Valid() && groups == old(groups) && lastId == id && ever == old(ever) + {id} && added == old(added) + 1
      ensures Givens(past) == Givens(old(past))
      ensures Grown(old(entries), entries, id, fields, trim)
    {
      ghost var before := entries;
      Append(id, fields);
      if trim.Some? {
        var dropped := XTrim(trim.value);
        GrownTrimmed(before, entries, id, fields, trim.value);
      } else {
        GrownWhole(before, id, fields);
      }
    }

    /** A new entry past all there ever was. */
    method Append(id: Id, fields: Fields)
      requires Valid() && Less(lastId, id)
      modifies this`entries, this`lastId, this`added, this`ever
      ensures Valid() && entries == old(entries)[id := fields] && |entries| == |old(entries)| + 1
      ensures lastId == id && ever == old(ever) + {id} && added == old(added) + 1
    {
      EntriesAppend(entries.Keys, ever, added, lastId, maxDeleted, id);
      GroupsGain(groups, past, entries.Keys, ever, id);
      OneMore(entries, id, fields);
      entries, lastId, added := entries[id := fields], id, added + 1;
      ever := ever + {id};
    }

    // ---- groups -------------------------------------------------------------------------------

    method Put(name: string, g: Group, ghost h: History)
      requires Valid() && name in groups && GroupOk(g, h, entries.Keys, ever)
      modifies this`groups, this`past
      ensures h == old(past)[name] ==> past == old(past)
      ensures Further(old(past)[name], h) ==> Onward(old(past), past)
      ensures Valid() && groups == old(groups)[name := g] && past == old(past)[name := h]
      ensures Givens(past) == Givens(old(past))[name := h.given]
    {
      GivensPut(past, name, h);
      groups, past := groups[name := g], past[name := h];
    }

    /** A group's pending entries or consumers change, but not what it handed out. */
    method Reseat(name: string, after: Group)
      requires Valid() && name in groups && after.last == groups[name].last && after.read == groups[name].read && Seated(after, ever)
      modifies this`groups
      ensures Valid() && groups == old(groups)[name := after] && (after == old(groups)[name] ==> groups == old(groups))
    {
      GroupReseated(groups[name], after, past[name], entries.Keys, ever);
      groups := groups[name := after];
    }

    /** XGROUP CREATE, from an id or from the last one. */
    method Create(name: string, at: Option<Id>) returns (r: Result<(), string>)
      requires Valid()
      modifies this`groups, this`past
      ensures Onward(old(past), past)
      ensures Valid() && (r == if name in old(groups) then Err(BUSY) else Ok(()))
      ensures r.Err? ==> groups == old(groups) && past == old(past)
      ensures r.Ok? ==>
                var start := if at.Some? then at.value else lastId;
                && groups == old(groups)[name := Group(start, 0, map[], map[])]
                && name in past && past[name].start == start && Givens(past) == Givens(old(past))[name := []] && !past[name].reset
    {
      if name in groups {
        return Err(BUSY);
      }
      var start := if at.Some? then at.value else lastId;
      ghost var h := History(start, [], Past(ever, start) - entries.Keys, false);
      GroupBegins(start, entries.Keys, ever);
      GivensPut(past, name, h);
      groups, past := groups[name := Group(start, 0, map[], map[])], past[name := h];
      r := Ok(());
    }

    /** XGROUP SETID: moves a group's mark by hand. */
    method SetId(name: string, at: Option<Id>) returns (r: Result<(), string>)
      requires Valid()
      modifies this`groups, this`past
      ensures Valid() && (r == if name in old(groups) then Ok(()) else Err(NO_GROUP))
      ensures r.Err? ==> groups == old(groups)
      ensures r.Ok? ==> groups == old(groups)[name := old(groups)[name].(last := if at.Some? then at.value else lastId)]
    {
      if name !in groups {
        return Err(NO_GROUP);
      }
      Put(name, groups[name].(last := if at.Some? then at.value else lastId), past[name].(reset := true));
      r := Ok(());
    }

    /** XGROUP DESTROY. */
    method Destroy(name: string) returns (removed: bool)
      requires Valid()
      modifies this`groups, this`past
      ensures Valid() && removed == (name in old(groups)) && groups == old(groups) - {name}
    {
      removed := name in groups;
      groups, past := groups - {name}, past - {name};
    }

    /** XGROUP CREATECONSUMER. */
    method CreateConsumer(name: string, consumer: string, now: u64) returns (r: Result<bool, string>)
      requires Valid()
      modifies this`groups
      ensures Valid() && (r.Err? <==> name !in old(groups)) && (r.Err? ==> groups == old(groups))
      ensures r.Ok? ==>
                var g := old(groups)[name];
                && r.value == (consumer !in g.consumers)
                && groups == if r.value then old(groups)[name := g.(consumers := g.consumers[consumer := Consumer(now, None)])] else old(groups)
    {
      if name !in groups {
        return Err(NO_GROUP);
      }
      var g := groups[name];
      if consumer in g.consumers {
        return Ok(false);
      }
      Reseat(name, g.(consumers := g.consumers[consumer := Consumer(now, None)]));
      r := Ok(true);
    }

    /** XGROUP DELCONSUMER: how many pending entries went with the consumer, and whether the command is
        journaled. None goes unjournaled, since pending entries name registered consumers. */
    method DelConsumer(name: string, consumer: string) returns (r: Result<nat, string>, dirty: bool)
      requires Valid()
      modifies this`groups
      ensures Valid() && (r.Err? <==> name !in old(groups)) && (r.Err? ==> groups == old(groups))
      ensures r.Ok? ==>
                && groups == old(groups)[name := Dismissed(old(groups)[name], consumer)]
                && r.value == |old(groups)[name].pending| - |groups[name].pending|
      ensures r.Err? || r.value == 0 || dirty
      ensures !dirty ==> groups == old(groups)
    {
      dirty := false;
      if name !in groups {
        return Err(NO_GROUP), false;
      }
      var g := groups[name];
      DismissedOk(g, past[name], entries.Keys, ever, consumer);
      dirty := consumer in g.consumers;
      var after := Dismissed(g, consumer);
      Reseat(name, after);
      r := Ok(|g.pending| - |after.pending|);
    }

    /** XACK: how many of the named entries were pending. */
    method Ack(name: string, ids: seq<Id>) returns (acked: nat)
      requires Valid()
      modifies this`groups
      ensures Valid() && groups.Keys == old(groups).Keys
      ensures name !in groups ==> acked == 0 && groups == old(groups)
      ensures name in groups ==>
                && groups == old(groups)[name := old(groups)[name].(pending := old(groups)[name].pending - Elements(ids))]
                && acked + |groups[name].pending| == |old(groups)[name].pending|
    {
      if name !in groups {
        return 0;
      }
      var pending;
      pending, acked := AckAll(groups[name].pending, ids);
      Reseat(name, groups[name].(pending := pending));
    }

    /** XREADGROUP with `>`: hands out new entries, and keeps them pending unless told not to. */
    method ReadNew(name: string, consumer: string, count: nat, noack: bool, now: u64) returns (r: Result<seq<Id>, string>, dirty: bool)
      requires Valid()
      modifies this`groups, this`past
      ensures Onward(old(past), past)
      ensures Valid() && (r.Err? <==> name !in old(groups)) && (r.Err? ==> groups == old(groups) && past == old(past))
      ensures r.Ok? ==>
                && name in groups && name in past && r.value == Fresh(entries.Keys, old(groups)[name].last, count)
                && groups == old(groups)[name := groups[name]]
                && Givens(past) == Givens(old(past))[name := old(past)[name].given + r.value]
                && Given(Sit(old(groups)[name], consumer, now, r.value != []), old(past)[name], groups[name], past[name],
                         r.value, noack, consumer, now)
      ensures r.Ok? ==> FirstAmong((set id | id in entries && Less(old(groups)[name].last, id)), count, r.value)
      ensures r.Ok? ==> Seen(old(groups)[name].consumers, groups[name].consumers, consumer, now, r.value != [])
      ensures r.Ok? ==> dirty == (consumer !in old(groups)[name].consumers || r.value != [])
      ensures !dirty ==> Alike(old(groups), groups) && past == old(past)
    {
      dirty := false;
      if name !in groups {
        return Err(NO_GROUP), false;
      }
      var g := groups[name];
      var newly := Fresh(entries.Keys, g.last, count);
      FreshAmong(entries, g.last, count);
      SitSeen(g, consumer, now, newly != []);
      dirty := consumer !in g.consumers || newly != [];
      Sits(g, past[name], entries.Keys, ever, consumer, now, newly != []);
      var after; ghost var h;
      after, h := GiveOut(Sit(g, consumer, now, newly != []), past[name], entries.Keys, ever, count, newly, noack, consumer, now);
      if !dirty {
        GivenNone(g, past[name], after, h, noack, consumer, now);
        AlikeOne(groups, name, after);
      }
      Put(name, after, h);
      r := Ok(newly);
    }

    /** XREADGROUP with an id: what is pending for the consumer past it, again. */
    method ReadAgain(name: string, consumer: string, mark: Id, count: nat, now: u64) returns (r: Result<seq<Id>, string>, dirty: bool)
      requires Valid()
      modifies this`groups
      ensures Valid() && (r.Err? <==> name !in old(groups)) && (r.Err? ==> groups == old(groups))
      ensures r.Ok? ==>
                && groups == old(groups)[name := Sit(old(groups)[name], consumer, now, false)]
                && r.value == Again(groups[name].pending, consumer, mark, count)
                && dirty == (consumer !in old(groups)[name].consumers)
      ensures r.Ok? ==>
                var was := old(groups)[name].pending;
                && FirstAmong((set id | id in was && was[id].consumer == consumer && Less(mark, id)), count, r.value)
                && groups[name].pending == was && Seen(old(groups)[name].consumers, groups[name].consumers, consumer, now, false)
      ensures !dirty ==> Alike(old(groups), groups)
    {
      dirty := false;
      if name !in groups {
        return Err(NO_GROUP), false;
      }
      var g := groups[name];
      dirty := consumer !in g.consumers;
      r := Ok(Again(g.pending, consumer, mark, count));
      AgainAmong(g.pending, consumer, mark, count);
      SitSeen(g, consumer, now, false);
      Sits(g, past[name], entries.Keys, ever, consumer, now, false);
      if !dirty {
        assert Sit(g, consumer, now, false).consumers.Keys == g.consumers.Keys;
        AlikeOne(groups, name, Sit(g, consumer, now, false));
      }
      Reseat(name, Sit(g, consumer, now, false));
    }

    /** XCLAIM. */
    method XClaim(name: string, ids: seq<Id>, how: Claim) returns (r: Result<seq<Id>, string>, dirty: bool)
      requires Valid()
      modifies this`groups
      ensures Valid() && (r.Err? <==> name !in old(groups)) && (r.Err? ==> groups == old(groups))
      ensures r.Ok? ==>
                && name in groups && groups == old(groups)[name := groups[name]]
                && groups[name].last == old(groups)[name].last && groups[name].read == old(groups)[name].read
                && groups[name].consumers == Seat(old(groups)[name].consumers, how.consumer, r.value != [], how.now)
                && Claimed(old(groups)[name].pending, groups[name].pending, entries.Keys, ids, how)
                && Listed(old(groups)[name].pending, entries.Keys, ids, how, r.value)
      ensures !dirty ==> groups == old(groups)
    {
      dirty := false;
      if name !in groups {
        return Err(NO_GROUP), false;
      }
      var g := groups[name];
      var after, out;
      after, out, dirty := ClaimAll(g.pending, entries, ids, how);
      ClaimSeats(g, after, entries.Keys, ever, ids, how, out);
      Reseat(name, g.(pending := after, consumers := Seat(g.consumers, how.consumer, out != [], how.now)));
      r := Ok(out);
    }

    /** XAUTOCLAIM: claims among the pending entries from `start` on, some at a time, and says where to
        go on; nothing pending lies between what it looked at and there. */
    method XAutoClaim(name: string, consumer: string, minIdle: u64, start: Id, count: nat, justid: bool, now: u64)
      returns (r: Result<(Id, seq<Id>, seq<Id>), string>, dirty: bool)
      requires Valid()
      modifies this`groups
      ensures Valid() && (r.Err? <==> name !in old(groups)) && (r.Err? ==> groups == old(groups))
      ensures r.Ok? ==>
                && name in groups && groups == old(groups)[name := groups[name]]
                && AutoClaimed(old(groups)[name], groups[name], entries.Keys, consumer, minIdle, start, count, justid, now, r.value)
                && dirty == (r.value.1 != [] || r.value.2 != [])
      ensures !dirty ==> groups == old(groups)
    {
      dirty := false;
      if name !in groups {
        return Err(NO_GROUP), false;
      }
      var after, out, dirt := AutoClaim(groups[name], entries, ever, consumer, minIdle, start, count, justid, now);
      Reseat(name, after);
      r, dirty := Ok(out), dirt;
    }

    // ---- whole runs -------------------------------------------------------------------------------

    /** Any run of commands but those that set a group's mark by hand or destroy a group: each does what it is to do,
        and groups go on from where they were, and keep what `Valid` says of what they handed out. */
    method Play(deeds: seq<Deed>) returns (ghost story: Story)
      requires Valid()
      modifies this
      ensures Valid() && Onward(old(past), past)
      ensures story.Holds() && story.Deeds() == deeds && story.Start() == old(Now()) && story.now == Now()
    {
      ghost var began, start := past, Now();
      story := Opening(start);
      Opens();
      for i := 0 to |deeds|
        invariant Played(began, start, deeds[..i], story)
      {
        assert deeds[..i + 1] == deeds[..i] + [deeds[i]];
        story := PlayNext(began, start, deeds[..i], deeds[i], story);
      }
      assert deeds[..|deeds|] == deeds;
    }

    /** Some commands have run. */
    ghost predicate Played(began: map<string, History>, start: Snapshot, deeds: seq<Deed>, story: Story)
      reads this
    {
      && Valid() && Onward(began, past)
      && story.Holds() && story.Deeds() == deeds && story.Start() == start && story.now == Now()
    }

    lemma {:induction false} Opens()
      requires Valid()
      ensures Played(past, Now(), [], Opening(Now()))
    {}

    /** One command more. */
    method PlayNext(ghost began: map<string, History>, ghost start: Snapshot, ghost deeds: seq<Deed>, deed: Deed, ghost story: Story)
      returns (ghost more: Story)
      requires Played(began, start, deeds, story)
      modifies this
      ensures Played(began, start, deeds + [deed], more)
    {
      ghost var before := past;
      Take(deed);
      OnwardOn(began, before, past);
      more := Later(story, deed, Now());
    }

    method Take(deed: Deed)
      requires Valid()
      modifies this
      ensures Valid() && Onward(old(past), past) && Did(old(Now()), deed, Now())
    {
      match deed
      case Add(arg, fields, trim, now, max) => var _ := XAdd(arg, fields, trim, now, max, false);
      case Del(ids) => var _ := XDel(ids);
      case Cut(trim) => var _ := XTrim(trim);
      case NewGroup(name, at) => var _ := Create(name, at);
      case Read(name, consumer, count, noack, now) => TakeRead(name, consumer, count, noack, now);
      case Claiming(name, ids, how) => TakeClaim(name, ids, how);
      case AutoClaiming(name, consumer, minIdle, start, count, justid, now) =>
        TakeAutoClaim(name, consumer, minIdle, start, count, justid, now);
      case Seating(name, seating) => TakeSeat(name, seating);
    }

    method TakeRead(name: string, consumer: string, count: nat, noack: bool, now: u64)
      requires Valid()
      modifies this`groups, this`past
      ensures Valid() && Onward(old(past), past) && Served(old(Now()), Now(), name, consumer, count, noack, now)
    {
      var _, _ := ReadNew(name, consumer, count, noack, now);
    }

    method TakeClaim(name: string, ids: seq<Id>, how: Claim)
      requires Valid()
      modifies this`groups
      ensures Valid() && ClaimedBy(old(Now()), Now(), name, ids, how)
    {
      var r, _ := XClaim(name, ids, how);
      if r.Ok? {
        ListedAny(old(groups)[name].pending, entries.Keys, ids, how, r.value);
      }
    }

    method TakeAutoClaim(name: string, consumer: string, minIdle: u64, start: Id, count: nat, justid: bool, now: u64)
      requires Valid()
      modifies this`groups
      ensures Valid() && AutoClaimedBy(old(Now()), Now(), name, consumer, minIdle, start, count, justid, now)
    {
      var _, _ := XAutoClaim(name, consumer, minIdle, start, count, justid, now);
    }

    method TakeSeat(name: string, seating: Seating)
      requires Valid()
      modifies this`groups
      ensures Valid() && groups == if name in old(groups) then old(groups)[name := Seats(old(groups)[name], seating)] else old(groups)
    {
      match seating
      case NewConsumer(consumer, now) => var _ := CreateConsumer(name, consumer, now);
      case NoConsumer(consumer) => var _, _ := DelConsumer(name, consumer);
      case Acknowledge(ids) => var _ := Ack(name, ids);
      case Reread(consumer, mark, count, now) => var _, _ := ReadAgain(name, consumer, mark, count, now);
    }

    /** What a group handed out: ids that rise, so none twice; every one there ever was between its start
        and its mark, but those deleted before their turn; and those pending all name a consumer. */
    lemma {:induction false} HandsOut(name: string)
      requires Valid() && name in groups && !past[name].reset
      ensures Rising(past[name].given)
      ensures forall i, j :: 0 <= i < j < |past[name].given| ==> past[name].given[i] != past[name].given[j]
      ensures forall id :: id in ever && Less(past[name].start, id) && AtMost(id, groups[name].last) ==>
                (id in past[name].given <==> id !in past[name].lost)
      ensures forall id :: id in entries && Less(past[name].start, id) ==>
                (id in past[name].given <==> AtMost(id, groups[name].last))
      ensures forall id :: id in groups[name].pending ==> groups[name].pending[id].consumer in groups[name].consumers
    {
      assert GroupOk(groups[name], past[name], entries.Keys, ever);
      forall i, j | 0 <= i < j < |past[name].given| ensures past[name].given[i] != past[name].given[j] {
        assert Less(past[name].given[i], past[name].given[j]);
      }
    }

    // ---- how far groups are behind ------------------------------------------------------------------

    /** Every group's lag at once: the marks and the entries are each gone through a single time. */
    method Lags() returns (lags: map<Id, nat>)
      requires Valid()
      ensures forall mark :: mark in lags <==> exists name :: name in groups && groups[name].last == mark
      ensures forall mark :: mark in lags ==> lags[mark] == |Past(entries.Keys, mark)|
    {
      var marks := Ascending(set name | name in groups :: groups[name].last);
      lags := LagsOf(entries.Keys, marks);
    }
  }

  lemma {:induction false} OnwardOn(a: map<string, History>, b: map<string, History>, c: map<string, History>)
    requires Onward(a, b) && Onward(b, c)
    ensures Onward(a, c)
  {
    forall name | name in a ensures name in c && Further(a[name], c[name]) {
      assert name in b && Further(a[name], b[name]) && Further(b[name], c[name]);
    }
  }

  /** What a walk over rising ids has still before it, once past a mark. */
  lemma {:induction false} LeftPast(ids: set<Id>, first: Id, mark: Id, walk: seq<Id>, at: nat)
    requires walk == Ascending(Past(ids, first)) && at <= |walk| && AtMost(first, mark)
    requires forall i :: 0 <= i < at ==> AtMost(walk[i], mark)
    requires at < |walk| ==> Less(mark, walk[at])
    ensures |walk| - at == |Past(ids, mark)|
  {
    var left := walk[at..];
    assert Rising(left);
    forall id | id in left ensures id in Past(ids, mark) {
      var i :| 0 <= i < |left| && left[i] == id;
      assert left[i] == walk[at + i] && walk[at + i] in walk;
    }
    forall id | id in Past(ids, mark) ensures id in left {
      assert id in Past(ids, first);
      var i :| 0 <= i < |walk| && walk[i] == id;
      assert left[i - at] == id;
    }
    RisingSize(left, Past(ids, mark));
  }

  /** Walks on past a mark. */
  method WalkPast(walk: seq<Id>, from: nat, mark: Id) returns (at: nat)
    requires from <= |walk| && forall i :: 0 <= i < from ==> AtMost(walk[i], mark)
    ensures from <= at <= |walk| && (forall i :: 0 <= i < at ==> AtMost(walk[i], mark))
    ensures at < |walk| ==> Less(mark, walk[at])
  {
    at := from;
    while at < |walk| && AtMost(walk[at], mark)
      invariant from <= at <= |walk| && forall i :: 0 <= i < at ==> AtMost(walk[i], mark)
      decreases |walk| - at
    {
      at := at + 1;
    }
  }

  /** The lags of the first marks, with `at` entries of the walk behind the last of them. */
  ghost predicate LagsTo(lags: map<Id, nat>, ids: set<Id>, marks: seq<Id>, k: nat, walk: seq<Id>, at: nat)
    requires k <= |marks| && at <= |walk|
  {
    && (forall mark :: mark in lags <==> mark in marks[..k])
    && (forall mark :: mark in lags ==> lags[mark] == |Past(ids, mark)|)
    && (forall i :: 0 <= i < at ==> k > 0 && AtMost(walk[i], marks[k - 1]))
  }

  lemma {:induction false} LagsOn(lags: map<Id, nat>, ids: set<Id>, marks: seq<Id>, k: nat, walk: seq<Id>, at: nat, after: nat)
    requires k < |marks| && at <= after <= |walk| && |walk| - after == |Past(ids, marks[k])|
    requires LagsTo(lags, ids, marks, k, walk, at)
    requires forall i :: 0 <= i < after ==> AtMost(walk[i], marks[k])
    ensures LagsTo(lags[marks[k] := |walk| - after], ids, marks, k + 1, walk, after)
  {
    assert marks[..k + 1] == marks[..k] + [marks[k]];
  }

  lemma {:induction false} StillPast(marks: seq<Id>, k: nat, walk: seq<Id>, at: nat)
    requires Rising(marks) && k < |marks| && at <= |walk|
    requires forall i :: 0 <= i < at ==> k > 0 && AtMost(walk[i], marks[k - 1])
    ensures forall i :: 0 <= i < at ==> AtMost(walk[i], marks[k])
  {
    forall i | 0 <= i < at ensures AtMost(walk[i], marks[k]) {
      var entry := walk[i];
      assert k > 0 && AtMost(entry, marks[k - 1]);
      assert Less(marks[k - 1], marks[k]);
    }
  }

  /** One walk over the entries past the first mark, however many marks there are. */
  method LagsOf(ids: set<Id>, marks: seq<Id>) returns (lags: map<Id, nat>)
    requires Rising(marks)
    ensures forall mark :: mark in lags <==> mark in marks
    ensures forall mark :: mark in lags ==> lags[mark] == |Past(ids, mark)|
  {
    lags := map[];
    if marks == [] {
      return;
    }
    var walk := Ascending(Past(ids, marks[0]));
    var remaining := |walk|;
    var at := 0;
    for k := 0 to |marks|
      invariant at <= |walk| && remaining == |walk| - at && LagsTo(lags, ids, marks, k, walk, at)
    {
      StillPast(marks, k, walk, at);
      var after := WalkPast(walk, at, marks[k]);
      assert k > 0 ==> Less(marks[0], marks[k]);
      LeftPast(ids, marks[0], marks[k], walk, after);
      LagsOn(lags, ids, marks, k, walk, at, after);
      remaining, at := remaining - (after - at), after;
      lags := lags[marks[k] := remaining];
    }
    assert marks[..|marks|] == marks;
  }
}
