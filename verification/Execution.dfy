/**
 How keyspace commands run: looking at what is held, expired or not, checking limits, changing
 values in place, and noting what to journal.
 */
module Execution {
  import opened Common
  import opened Database
  import opened Commands
  import opened Needing

  predicate Refused(r: R)
  {
    r.Err? && (r.error.KeyLimit? || r.error.ElementLimit?)
  }

  /** A limit refuses exactly when there is one to. */
  predicate RefusedBy(limit: Option<Error>, r: R)
  {
    (Refused(r) <==> limit.Some?) && (Refused(r) ==> limit == Some(r.error))
  }

  /** One execution did what its command means: the live keys and the reply are those `Apply` says,
      unless it is refused by a limit, as it is exactly if it needs more than that lets it have; an
      error leaves the live keys as they were; and what is journaled does the same to the live keys. */
  ghost predicate Fits(before: Keys, after: Keys, c: Command, ctx: Ctx, dirty: bool, propagate: Option<seq<Command>>, r: R)
  {
    var view := Live(before, ctx.now);
    && RefusedBy(LimitError(before, ctx, Apply(view, c, ctx.now), NeedsOf(view, c)), r)
    && (r.Err? ==> Live(after, ctx.now) == view)
    && (!Refused(r) && !c.CSPop? ==> Applied(Live(after, ctx.now), r) == Apply(view, c, ctx.now))
    && (c.CSPop? ==> exists picked :: SPopped(view, Live(after, ctx.now), c.key, c.wanted, picked, r))
    && Journaled(view, Live(after, ctx.now), Journal(c, dirty, propagate, r), ctx.now, r)
  }

  /** Random members were taken off a set: any distinct ones, as many as wanted or as there are. */
  ghost predicate SPopped(view: Keys, after: Keys, key: string, wanted: Option<int>, picked: seq<string>, r: R)
  {
    && All(picked) <= MembersOf(view, key) && |All(picked)| == |picked|
    && (r.Ok? && key in view ==> |picked| == Least(if wanted.Some? then wanted.value else 1, |MembersOf(view, key)|))
    && after == (if picked == [] then view else ApplySRem(view, key, picked).view)
    && r == if NotSet(view, key) then Err(WrongType)
            else if key !in view then Ok(if wanted.Some? then Bulks([]) else Nil)
            else if wanted.Some? && wanted.value < 0 then Err(Negative)
            else Ok(if wanted.Some? then Bulks(picked) else if picked != [] then Bulk(picked[0]) else Nil)
  }

  /** What is journaled, a command at most, does what happened to the live keys. */
  ghost predicate Journaled(before: Keys, after: Keys, journal: seq<Command>, now: nat, r: R)
  {
    && (r.Ok? ==> after == ApplyAll(before, journal, now))
    && |journal| <= 1
    && (forall j :: j in journal ==> WellFormed(j) && !j.CSPop?)
  }

  /** Limits are kept: neither the keys nor any collection grow past their limit. And no empty
      collection is left. */
  ghost predicate Within(before: Keys, after: Keys, ctx: Ctx)
  {
    && (Full(before) ==> Full(after))
    && (!ctx.replay ==>
          && |after| <= Max(|before|, ctx.maxKeys)
          && forall k :: k in after ==> Elements(after[k].value) <= Max(ctx.maxElements, HeldElements(before, k)))
  }

  lemma {:induction false} PutSize<V>(keys: map<string, V>, key: string, v: V)
    ensures |keys[key := v]| == if key in keys then |keys| else |keys| + 1
  {
    if key in keys {
      assert keys[key := v].Keys == keys.Keys;
    } else {
      assert keys[key := v].Keys == keys.Keys + {key};
    }
  }

  lemma {:induction false} DropSize<V>(keys: map<string, V>, key: string)
    ensures |keys - {key}| == if key in keys then |keys| - 1 else |keys|
  {
    if key in keys {
      assert (keys - {key}).Keys == keys.Keys - {key};
    } else {
      assert keys - {key} == keys;
    }
  }

  /** One execution did what was meant, and is journaled as it is, if it changed anything. */
  ghost predicate Did(before: Keys, after: Keys, meant: Applied, limit: Option<Error>, ctx: Ctx, dirty: bool, r: R)
  {
    && RefusedBy(limit, r)
    && (r.Err? || !dirty ==> Live(after, ctx.now) == Live(before, ctx.now))
    && (!Refused(r) ==> Applied(Live(after, ctx.now), r) == meant)
  }

  ghost predicate DidCommand(before: Keys, after: Keys, c: Command, ctx: Ctx, dirty: bool, r: R)
  {
    var view := Live(before, ctx.now);
    var meant := Apply(view, c, ctx.now);
    Did(before, after, meant, LimitError(before, ctx, meant, NeedsOf(view, c)), ctx, dirty, r)
  }

  lemma {:induction false} AsSAdd(view: Keys, key: string, elements: seq<string>, now: nat)
    ensures Apply(view, CSAdd(key, elements), now) == ApplySAdd(view, key, elements)
    ensures NeedsOf(view, CSAdd(key, elements)) == SAddNeeds(view, key, elements)
  {}

  lemma {:induction false} DidAs(before: Keys, after: Keys, meant: Applied, needs: Needs, c: Command, ctx: Ctx, dirty: bool, r: R)
    requires Did(before, after, meant, LimitError(before, ctx, meant, needs), ctx, dirty, r)
    requires var view := Live(before, ctx.now); meant == Apply(view, c, ctx.now) && needs == NeedsOf(view, c)
    ensures DidCommand(before, after, c, ctx, dirty, r)
  {}

  lemma {:induction false} DidPush(before: Keys, after: Keys, key: string, items: seq<string>, left: bool, onlyExisting: bool, ctx: Ctx, dirty: bool, r: R)
    requires var view := Live(before, ctx.now);
             var meant := ApplyPush(view, key, items, left, onlyExisting);
             Did(before, after, meant, LimitError(before, ctx, meant, PushNeeds(view, key, items, onlyExisting)), ctx, dirty, r)
    ensures DidCommand(before, after, CPush(key, items, left, onlyExisting), ctx, dirty, r)
  {}

  lemma {:induction false} DidSAdd(before: Keys, after: Keys, key: string, elements: seq<string>, ctx: Ctx, dirty: bool, r: R)
    requires var view := Live(before, ctx.now);
             var meant := ApplySAdd(view, key, elements);
             Did(before, after, meant, LimitError(before, ctx, meant, SAddNeeds(view, key, elements)), ctx, dirty, r)
    ensures DidCommand(before, after, CSAdd(key, elements), ctx, dirty, r)
  {
    var view := Live(before, ctx.now);
    AsSAdd(view, key, elements, ctx.now);
    DidAs(before, after, ApplySAdd(view, key, elements), SAddNeeds(view, key, elements), CSAdd(key, elements), ctx, dirty, r);
  }

  lemma {:induction false} DidPop(before: Keys, after: Keys, key: string, count: Option<nat>, left: bool, ctx: Ctx, dirty: bool, r: R)
    requires Did(before, after, ApplyPop(Live(before, ctx.now), key, count, left), None, ctx, dirty, r)
    ensures DidCommand(before, after, CPop(key, count, left), ctx, dirty, r)
  {
    NothingNeeded(before, ctx, ApplyPop(Live(before, ctx.now), key, count, left));
  }

  lemma {:induction false} DidSRem(before: Keys, after: Keys, key: string, elements: seq<string>, ctx: Ctx, dirty: bool, r: R)
    requires Did(before, after, ApplySRem(Live(before, ctx.now), key, elements), None, ctx, dirty, r)
    ensures DidCommand(before, after, CSRem(key, elements), ctx, dirty, r)
  {
    NothingNeeded(before, ctx, ApplySRem(Live(before, ctx.now), key, elements));
  }

  lemma {:induction false} AsMove(view: Keys, from: string, to: string, fromLeft: bool, toLeft: bool, now: nat)
    ensures Apply(view, CMove(from, to, fromLeft, toLeft), now) == ApplyMove(view, from, to, fromLeft, toLeft)
    ensures NeedsOf(view, CMove(from, to, fromLeft, toLeft)) == MoveNeeds(view, from, to)
  {}

  lemma {:induction false} DidMove(before: Keys, after: Keys, from: string, to: string, fromLeft: bool, toLeft: bool, ctx: Ctx, dirty: bool, r: R)
    requires var view := Live(before, ctx.now);
             var meant := ApplyMove(view, from, to, fromLeft, toLeft);
             Did(before, after, meant, LimitError(before, ctx, meant, MoveNeeds(view, from, to)), ctx, dirty, r)
    ensures DidCommand(before, after, CMove(from, to, fromLeft, toLeft), ctx, dirty, r)
  {
    var view := Live(before, ctx.now);
    AsMove(view, from, to, fromLeft, toLeft, ctx.now);
    DidAs(before, after, ApplyMove(view, from, to, fromLeft, toLeft), MoveNeeds(view, from, to), CMove(from, to, fromLeft, toLeft), ctx, dirty, r);
  }

  lemma {:induction false} AsSMove(view: Keys, from: string, to: string, element: string, now: nat)
    ensures Apply(view, CSMove(from, to, element), now) == ApplySMove(view, from, to, element)
    ensures NeedsOf(view, CSMove(from, to, element)) == SMoveNeeds(view, from, to, element)
  {}

  lemma {:induction false} DidSMove(before: Keys, after: Keys, from: string, to: string, element: string, ctx: Ctx, dirty: bool, r: R)
    requires var view := Live(before, ctx.now);
             var meant := ApplySMove(view, from, to, element);
             Did(before, after, meant, LimitError(before, ctx, meant, SMoveNeeds(view, from, to, element)), ctx, dirty, r)
    ensures DidCommand(before, after, CSMove(from, to, element), ctx, dirty, r)
  {
    var view := Live(before, ctx.now);
    AsSMove(view, from, to, element, ctx.now);
    DidAs(before, after, ApplySMove(view, from, to, element), SMoveNeeds(view, from, to, element), CSMove(from, to, element), ctx, dirty, r);
  }

  lemma {:induction false} DidTrim(before: Keys, after: Keys, key: string, start: int, stop: int, ctx: Ctx, dirty: bool, r: R)
    requires Did(before, after, ApplyTrim(Live(before, ctx.now), key, start, stop), None, ctx, dirty, r)
    ensures DidCommand(before, after, CTrim(key, start, stop), ctx, dirty, r)
  {
    NothingNeeded(before, ctx, ApplyTrim(Live(before, ctx.now), key, start, stop));
  }

  lemma {:induction false} DidRem(before: Keys, after: Keys, key: string, limit: int, value: string, ctx: Ctx, dirty: bool, r: R)
    requires Did(before, after, ApplyRem(Live(before, ctx.now), key, limit, value), None, ctx, dirty, r)
    ensures DidCommand(before, after, CRem(key, limit, value), ctx, dirty, r)
  {
    NothingNeeded(before, ctx, ApplyRem(Live(before, ctx.now), key, limit, value));
  }

  lemma {:induction false} DidSetAt(before: Keys, after: Keys, key: string, index: int, value: string, ctx: Ctx, dirty: bool, r: R)
    requires Did(before, after, ApplySetAt(Live(before, ctx.now), key, index, value), None, ctx, dirty, r)
    ensures DidCommand(before, after, CSetAt(key, index, value), ctx, dirty, r)
  {
    NothingNeeded(before, ctx, ApplySetAt(Live(before, ctx.now), key, index, value));
  }

  lemma {:induction false} DidInsert(before: Keys, after: Keys, key: string, front: bool, pivot: string, value: string, ctx: Ctx, dirty: bool, r: R)
    requires var view := Live(before, ctx.now);
             var meant := ApplyInsert(view, key, front, pivot, value);
             Did(before, after, meant, LimitError(before, ctx, meant, InsertNeeds(view, key, pivot)), ctx, dirty, r)
    ensures DidCommand(before, after, CInsert(key, front, pivot, value), ctx, dirty, r)
  {}

  lemma {:induction false} DidFits(before: Keys, after: Keys, c: Command, ctx: Ctx, dirty: bool, r: R)
    requires WellFormed(c) && !c.CSPop? && DidCommand(before, after, c, ctx, dirty, r)
    ensures Fits(before, after, c, ctx, dirty, None, r)
  {
    ApplyOne(Live(before, ctx.now), c, ctx.now);
  }

  /** The empty value of a kind. */
  function EmptyLike(v: Value): Value
  {
    match v
    case Str(_) => Str("")
    case List(_) => List([])
    case Set(_) => Set({})
  }

  /** Writing one live key's value, and dropping the key if that is an empty collection, keeps
      the others. */
  lemma {:induction false} LiveWrite(keys: Keys, key: string, entry: Held, value: Value, now: nat)
    requires key in Live(keys, now) ==> entry == keys[key]
    requires key !in Live(keys, now) ==> entry == Entry(EmptyLike(value), None)
    ensures var after := if IsEmptyCollection(value) then keys[key := entry.(value := value)] - {key} else keys[key := entry.(value := value)];
            Live(after, now) == WithValue(Live(keys, now), key, value)
  {
    LivePut(keys, key, entry.(value := value), now);
    LiveDrop(keys[key := entry.(value := value)], key, now);
  }

  /** Looking a key up for writing removes it at most when it has expired. */
  lemma {:induction false} HeldStill(keys: Keys, key: string, ctx: Ctx)
    ensures key in keys ==> keys[key := keys[key]] == keys
    ensures key !in Live(keys, ctx.now) ==> Live(keys - {key}, ctx.now) == Live(keys, ctx.now) && Within(keys, keys - {key}, ctx)
    ensures Within(keys, keys, ctx)
  {
    DropSize(keys, key);
  }

  /** A key that got another value, and grew no more than its limit lets it. */
  lemma {:induction false} WithinBy(before: Keys, after: Keys, key: string, entry: Held, ctx: Ctx)
    requires after == before[key := entry] || after == before[key := entry] - {key}
    requires key in after ==> !IsEmptyCollection(entry.value)
    requires !ctx.replay && key !in before && key in after ==> |before| + 1 <= ctx.maxKeys
    requires !ctx.replay && key in after ==> Elements(entry.value) <= Max(ctx.maxElements, HeldElements(before, key))
    ensures Within(before, after, ctx)
  {
    PutSize(before, key, entry);
    DropSize(before[key := entry], key);
    if key in after {
      assert after == before[key := entry];
    }
  }

  /** No collection is larger than what was held under its own name or the one renamed. */
  ghost predicate MovedWithin(before: Keys, after: Keys, from: string)
  {
    forall k :: k in after ==> Elements(after[k].value) <= Max(HeldElements(before, k), HeldElements(before, from))
  }

  /** When a key set with this expiry expires. */
  function ReadExpiry(expiry: Expiry, now: nat): Result<Option<nat>, Error>
  {
    if expiry.At? then
      var at := ExpiryAt(now, expiry.amount, expiry.unit, expiry.absolute);
      if expiry.amount <= 0 || at.None? then Err(BadExpiry) else Ok(at)
    else Ok(None)
  }

  /** The command is a RENAME that loses the new name's deadline. */
  predicate Drops(keys: Keys, deadlines: multiset<Deadline<string>>, c: Command, now: nat)
  {
    c.CRename? && RenameDrops(keys, deadlines, c.from, c.to, now, c.nx)
  }

  predicate SameKind(a: Value, b: Value)
  {
    (a.Str? && b.Str?) || (a.List? && b.List?) || (a.Set? && b.Set?)
  }

  class Exec {
    const db: Db<string, Value>
    const ctx: Ctx
    var dirty: bool
    var propagate: Option<seq<Command>>
    /** Every key that expires was among the deadlines to begin with. */
    ghost const timely: bool

    ghost predicate Able()
      reads this, db
    {
      && db.Valid()
      && (forall v :: db.emptyCollection(v) <==> IsEmptyCollection(v))
      && ctx.now <= I64_MAX
    }

    /** And every key that expires still is among the deadlines. */
    ghost predicate Ready()
      reads this, db
    {
      Able() && (timely ==> db.DeadlinesHold())
    }

    /** Nothing has run yet. */
    ghost predicate Idle()
      reads this, db
    {
      Ready() && Full(db.keys) && !dirty && propagate.None?
    }

    /** What was meant was done, and no limit could refuse it. */
    ghost predicate Meets(before: Keys, meant: Applied, r: R)
      reads this, db
    {
      Ready() && propagate.None? && Did(before, db.keys, meant, None, ctx, dirty, r)
    }

    /** What was meant was done, unless a limit refused it that it needed to pass. */
    ghost predicate MeetsNeeds(before: Keys, meant: Applied, needs: Needs, r: R)
      reads this, db
    {
      Ready() && propagate.None? && Did(before, db.keys, meant, LimitError(before, ctx, meant, needs), ctx, dirty, r)
    }

    /** The command was run. */
    ghost predicate MeetsCommand(before: Keys, c: Command, r: R)
      reads this, db
    {
      Ready() && propagate.None? && DidCommand(before, db.keys, c, ctx, dirty, r)
    }

    constructor (db: Db<string, Value>, ctx: Ctx)
      requires db.Valid() && (forall v :: db.emptyCollection(v) <==> IsEmptyCollection(v)) && ctx.now <= I64_MAX
      requires Full(db.keys)
      ensures this.db == db && this.ctx == ctx && Idle() && timely == db.DeadlinesHold()
    {
      this.db, this.ctx, timely := db, ctx, db.DeadlinesHold();
      dirty, propagate := false, None;
    }

    // ---- limits ----------------------------------------------------------------------

    /** Whether `names` may all be written: expired keys still in memory count. */
    predicate Admits(names: set<string>)
      reads this, db
    {
      var unheld := Unheld(db.keys, names);
      ctx.replay || unheld == {} || |db.keys| + |unheld| <= ctx.maxKeys
    }

    predicate RoomFor(len: nat, adding: nat)
    {
      ctx.replay || len + adding <= ctx.maxElements
    }

    predicate AdmitsOne(key: string)
      reads this, db
      ensures AdmitsOne(key) <==> Admits({key})
    {
      var unheld := Unheld(db.keys, {key});
      assert key in db.keys ==> unheld == {};
      assert key !in db.keys ==> unheld == {key};
      ctx.replay || key in db.keys || |db.keys| + 1 <= ctx.maxKeys
    }

    // ---- looking at and changing one key --------------------------------------------

    /** The live value of a key, refused when it is of another kind than `like`. */
    method Ref(key: string, like: Value) returns (r: Result<Option<Value>, Error>)
      ensures var held := db.Get(key, ctx.now);
              r == if held.None? then Ok(None) else if SameKind(held.value.value, like) then Ok(Some(held.value.value)) else Err(WrongType)
    {
      var held := db.Get(key, ctx.now);
      if held.None? {
        return Ok(None);
      }
      if SameKind(held.value.value, like) {
        return Ok(Some(held.value.value));
      }
      return Err(WrongType);
    }

    /** A key of the kind of `empty`, ready to be changed; with `create`, a missing one is made,
        if it is admitted. Says whether there is one. */
    method Mut(key: string, empty: Value, create: bool) returns (r: Result<bool, Error>)
      requires Ready()
      modifies db
      ensures Ready()
      ensures var held := old(db.Get(key, ctx.now));
              if held.Some? then
                && r == (if SameKind(held.value.value, empty) then Ok(true) else Err(WrongType))
                && db.keys == old(db.keys)
              else if !create then
                r == Ok(false) && db.keys == old(db.keys)
              else if old(AdmitsOne(key)) then
                r == Ok(true) && db.keys == old(db.keys)[key := Entry(empty, None)]
              else
                r == Err(KeyLimit) && db.keys == old(db.keys)
    {
      var held := db.Get(key, ctx.now);
      if held.Some? {
        if !SameKind(held.value.value, empty) {
          return Err(WrongType);
        }
      } else if create {
        if !AdmitsOne(key) {
          return Err(KeyLimit);
        }
        db.Insert(key, Entry(empty, None));
      } else {
        return Ok(false);
      }
      var found := db.GetMut(key, ctx.now, (e: Held) => e);
      return Ok(true);
    }

    /** Writes a live key's value where it is. */
    method Write(key: string, value: Value)
      requires Ready() && db.Get(key, ctx.now).Some?
      modifies db
      ensures Ready() && db.keys == old(db.keys)[key := old(db.keys)[key].(value := value)]
    {
      var found := db.GetMut(key, ctx.now, (e: Held) => e.(value := value));
    }

    method Touch(key: string)
      modifies this`dirty
      ensures dirty
    {
      dirty := true;
    }

    /** Stores a string, whatever the key held. */
    method PutString(key: string, value: string, expires: Option<nat>) returns (r: Result<(), Error>)
      requires Ready()
      modifies this`dirty, db
      ensures Ready()
      ensures r.Err? ==> db.keys == old(db.keys) && dirty == old(dirty)
      ensures r.Err? ==> (r.error == TooLong && |value| > MAX_STRING) || (r.error == KeyLimit && |value| <= MAX_STRING && !old(AdmitsOne(key)))
      ensures r.Ok? ==> dirty && |value| <= MAX_STRING && old(AdmitsOne(key))
      ensures r.Ok? ==> Live(db.keys, ctx.now) == StoreString(Live(old(db.keys), ctx.now), key, value, expires, ctx.now)
      ensures Within(old(db.keys), db.keys, ctx)
      ensures r.Ok? ==> db.keys.Keys == old(db.keys).Keys + {key}
    {
      LivePut(db.keys, key, Entry(Str(value), expires), ctx.now);
      if |value| > MAX_STRING {
        return Err(TooLong);
      }
      var stored := db.Store(key, Entry(Str(value), expires), AdmitsOne(key));
      if !stored {
        return Err(KeyLimit);
      }
      StoredWithin(old(db.keys), db.keys, key, Entry(Str(value), expires));
      Touch(key);
      return Ok(());
    }

    /** A string stored is within the limits. */
    lemma {:induction false} StoredWithin(before: Keys, after: Keys, key: string, entry: Held)
      requires after == before[key := entry] && entry.value.Str?
      requires ctx.replay || key in before || |before| + 1 <= ctx.maxKeys
      ensures Within(before, after, ctx)
    {
      PutSize(before, key, entry);
    }

    // ---- strings ------------------------------------------------------------------------

    method SetString(key: string, value: string, when: When, get: bool, expiry: Expiry) returns (r: R)
      requires Idle()
      modifies this, db
      ensures var view := Live(old(db.keys), ctx.now);
              MeetsNeeds(old(db.keys), ApplySet(view, key, value, when, get, expiry, ctx.now), SetNeeds(view, key, when), r)
      ensures Within(old(db.keys), db.keys, ctx)
    {
      var read := ReadExpiry(expiry, ctx.now);
      if read.Err? {
        return Err(read.error);
      }
      var current := db.Get(key, ctx.now);
      ghost var view := Live(db.keys, ctx.now);
      assert current == if key in view then Some(view[key]) else None;
      var held := if current.Some? && current.value.value.Str? then Some(current.value.value.s) else None;
      if current.Some? && held.None? && (get || when.IfEq?) {
        return Err(WrongType);
      }
      var allowed := (when.Nx? ==> current.None?) && (when.Xx? ==> current.Some?) && (when.IfEq? ==> held == Some(when.current));
      assert allowed == Allows(when, current.Some?, held);
      var reply := if get then (if held.Some? then Bulk(held.value) else Nil) else if allowed then Okay else Nil;
      r := SetIf(allowed, key, value, if expiry.Keep? && current.Some? then current.value.expires else read.value, reply);
    }

    /** Stores a string if the command's condition holds, and replies. */
    method SetIf(allowed: bool, key: string, value: string, expires: Option<nat>, reply: Reply) returns (r: R)
      requires Idle()
      modifies this, db
      ensures var view := Live(old(db.keys), ctx.now);
              var meant := if allowed && |value| > MAX_STRING then Fail(view, TooLong)
                           else Say(if allowed then StoreString(view, key, value, expires, ctx.now) else view, reply);
              MeetsNeeds(old(db.keys), meant, if allowed then Needs(None, {key}, 0) else NOTHING, r)
      ensures Within(old(db.keys), db.keys, ctx)
    {
      if allowed {
        var stored := PutString(key, value, expires);
        if stored.Err? {
          return Err(stored.error);
        }
      }
      return Ok(reply);
    }

    method SetNx(key: string, value: string) returns (r: R)
      requires Idle()
      modifies this, db
      ensures var view := Live(old(db.keys), ctx.now); MeetsNeeds(old(db.keys), ApplySetNx(view, key, value, ctx.now), SetNxNeeds(view, key), r)
      ensures Within(old(db.keys), db.keys, ctx)
    {
      if db.Get(key, ctx.now).Some? {
        return Ok(Int(0));
      }
      var stored := PutString(key, value, None);
      r := if stored.Err? then Err(stored.error) else Ok(Int(1));
    }

    method GetSet(key: string, value: string) returns (r: R)
      requires Idle()
      modifies this, db
      ensures MeetsNeeds(old(db.keys), ApplyGetSet(Live(old(db.keys), ctx.now), key, value, ctx.now), Needs(None, {key}, 0), r)
      ensures Within(old(db.keys), db.keys, ctx)
    {
      var held := Ref(key, Str(""));
      if held.Err? {
        return Err(held.error);
      }
      var stored := PutString(key, value, None);
      r := if stored.Err? then Err(stored.error) else Ok(if held.value.Some? then Bulk(held.value.value.s) else Nil);
    }

    /** Takes a live key away. */
    method Drop(key: string)
      requires Ready()
      modifies this`dirty, db
      ensures Ready() && dirty
      ensures db.keys == old(db.keys) - {key}
      ensures Live(db.keys, ctx.now) == Live(old(db.keys), ctx.now) - {key}
      ensures Within(old(db.keys), db.keys, ctx)
    {
      LiveDrop(db.keys, key, ctx.now);
      DropSize(db.keys, key);
      var held := db.Take(key);
      Touch(key);
    }

    method GetDel(key: string) returns (r: R)
      requires Idle()
      modifies this, db
      ensures Meets(old(db.keys), ApplyGetDel(Live(old(db.keys), ctx.now), key), r)
      ensures Within(old(db.keys), db.keys, ctx)
    {
      var held := Ref(key, Str(""));
      if held.Err? {
        return Err(held.error);
      }
      if held.value.None? {
        assert Live(db.keys, ctx.now) - {key} == Live(db.keys, ctx.now);
        return Ok(Nil);
      }
      Drop(key);
      return Ok(Bulk(held.value.value.s));
    }

    method DelIfEq(key: string, value: string) returns (r: R)
      requires Idle()
      modifies this, db
      ensures Meets(old(db.keys), ApplyDelIfEq(Live(old(db.keys), ctx.now), key, value), r)
      ensures Within(old(db.keys), db.keys, ctx)
    {
      var held := Ref(key, Str(""));
      if held.Err? {
        return Err(held.error);
      }
      if held.value.Some? && held.value.value.s == value {
        Drop(key);
        return Ok(Int(1));
      }
      return Ok(Int(0));
    }

    /** Gives a key of the right kind another value where it is, making it if it is missing, and
        drops it once it is an empty collection. */
    method Save(key: string, value: Value) returns (r: Result<(), Error>)
      requires Ready()
      requires var held := db.Get(key, ctx.now); held.Some? ==> SameKind(held.value.value, value)
      modifies db
      ensures Ready()
      ensures r.Err? <==> old(db.Get(key, ctx.now)).None? && !old(AdmitsOne(key))
      ensures r.Err? ==> r.error == KeyLimit && !ctx.replay && db.keys == old(db.keys)
      ensures r.Ok? ==> Live(db.keys, ctx.now) == WithValue(Live(old(db.keys), ctx.now), key, value)
      ensures ctx.replay || Elements(value) <= Max(ctx.maxElements, HeldElements(old(db.keys), key)) ==> Within(old(db.keys), db.keys, ctx)
    {
      ghost var before := db.keys;
      ghost var held := db.Get(key, ctx.now);
      ghost var entry := if held.Some? then held.value else Entry(EmptyLike(value), None);
      var got := Mut(key, EmptyLike(value), true);
      if got.Err? {
        return Err(got.error);
      }
      Write(key, value);
      assert db.keys == before[key := entry.(value := value)];
      db.Prune(key);
      LiveWrite(before, key, entry, value, ctx.now);
      if ctx.replay || Elements(value) <= Max(ctx.maxElements, HeldElements(before, key)) {
        WithinBy(before, db.keys, key, entry.(value := value), ctx);
      }
      return Ok(());
    }

    method Append(key: string, suffix: string) returns (r: R)
      requires Idle()
      modifies this, db
      ensures MeetsNeeds(old(db.keys), ApplyAppend(Live(old(db.keys), ctx.now), key, suffix), Needs(None, {key}, 0), r)
      ensures Within(old(db.keys), db.keys, ctx)
    {
      var held := Ref(key, Str(""));
      if held.Err? {
        return Err(held.error);
      }
      r := AppendTo(key, if held.value.Some? then held.value.value.s else "", suffix);
    }

    method AppendTo(key: string, current: string, suffix: string) returns (r: R)
      requires Idle()
      requires var view := Live(db.keys, ctx.now);
               !NotString(view, key) && current == if key in view then view[key].value.s else ""
      modifies this, db
      ensures MeetsNeeds(old(db.keys), ApplyAppend(Live(old(db.keys), ctx.now), key, suffix), Needs(None, {key}, 0), r)
      ensures Within(old(db.keys), db.keys, ctx)
    {
      if |current| + |suffix| > MAX_STRING {
        return Err(TooLong);
      }
      var saved := Save(key, Str(current + suffix));
      if saved.Err? {
        return Err(saved.error);
      }
      Touch(key);
      return Ok(Int(|current + suffix|));
    }

    /** Gives a live key another expiry. */
    method Reset(key: string, at: Option<nat>)
      requires Ready() && Full(db.keys) && db.Get(key, ctx.now).Some?
      modifies this`dirty, db
      ensures Ready() && dirty
      ensures var view := Live(old(db.keys), ctx.now);
              Live(db.keys, ctx.now) == Put(view, key, view[key].(expires := at), ctx.now)
      ensures Within(old(db.keys), db.keys, ctx)
    {
      ghost var before := db.keys;
      var found := db.SetExpiry(key, ctx.now, at);
      LivePut(before, key, before[key].(expires := at), ctx.now);
      WithinBy(before, db.keys, key, before[key].(expires := at), ctx);
      Touch(key);
    }

    method GetEx(key: string, change: Option<Expiry>) returns (r: R)
      requires Idle()
      modifies this, db
      ensures Meets(old(db.keys), ApplyGetEx(Live(old(db.keys), ctx.now), key, change, ctx.now), r)
      ensures Within(old(db.keys), db.keys, ctx)
    {
      var held := Ref(key, Str(""));
      if held.Err? {
        return Err(held.error);
      }
      var read := if change.Some? then ReadExpiry(change.value, ctx.now) else Ok(None);
      if read.Err? {
        return Err(read.error);
      }
      if change.Some? && held.value.Some? {
        Reset(key, read.value);
      }
      return Ok(if held.value.Some? then Bulk(held.value.value.s) else Nil);
    }

    /** Finds a live key; one that has expired goes away, which no client can see. */
    method Hold(key: string) returns (held: Option<Held>)
      requires Ready()
      modifies db
      ensures Ready()
      ensures Live(db.keys, ctx.now) == Live(old(db.keys), ctx.now) && Within(old(db.keys), db.keys, ctx)
      ensures held == old(db.Get(key, ctx.now)) == db.Get(key, ctx.now)
      ensures forall k :: k in db.keys ==> k in old(db.keys) && db.keys[k] == old(db.keys)[k]
    {
      held := db.Get(key, ctx.now);
      HeldStill(db.keys, key, ctx);
      var found := db.GetMut(key, ctx.now, (e: Held) => e);
    }

    method Persist(key: string) returns (r: R)
      requires Idle()
      modifies this, db
      ensures Meets(old(db.keys), ApplyPersist(Live(old(db.keys), ctx.now), key), r)
      ensures Within(old(db.keys), db.keys, ctx)
    {
      var held := Hold(key);
      if held.Some? && held.value.expires.Some? {
        Reset(key, None);
        return Ok(Int(1));
      }
      return Ok(Int(0));
    }

    method Expire(key: string, amount: int, unit: int, absolute: bool, flags: Flags) returns (r: R)
      requires Idle()
      modifies this, db
      ensures Meets(old(db.keys), ApplyExpire(Live(old(db.keys), ctx.now), key, ExpireTime(ctx.now, amount, unit, absolute), flags, ctx.now), r)
      ensures Within(old(db.keys), db.keys, ctx)
    {
      var at := ExpireTime(ctx.now, amount, unit, absolute);
      if at.None? {
        return Err(BadExpiry);
      }
      if (flags.nx && (flags.xx || flags.gt || flags.lt)) || (flags.gt && flags.lt) {
        return Err(Incompatible);
      }
      var held := Hold(key);
      if held.None? {
        return Ok(Int(0));
      }
      r := ExpireLive(key, held.value.expires, at.value, flags);
    }

    /** EXPIRE on a key that is live, and expires at `was`. */
    method ExpireLive(key: string, was: Option<nat>, at: int, flags: Flags) returns (r: R)
      requires Ready() && Full(db.keys) && !dirty && propagate.None?
      requires db.Get(key, ctx.now).Some? && db.keys[key].expires == was
      requires !((flags.nx && (flags.xx || flags.gt || flags.lt)) || (flags.gt && flags.lt))
      modifies this, db
      ensures Meets(old(db.keys), ApplyExpire(Live(old(db.keys), ctx.now), key, Some(at), flags, ctx.now), r)
      ensures Within(old(db.keys), db.keys, ctx)
    {
      var allowed := match was
        case None => !flags.xx && !flags.gt
        case Some(time) =>
          var existing := if time > I64_MAX then I64_MAX else time;
          !flags.nx && (flags.gt ==> at > existing) && (flags.lt ==> at < existing);
      if !allowed {
        return Ok(Int(0));
      }
      if at <= ctx.now {
        Drop(key);
      } else {
        Reset(key, Some(at));
      }
      return Ok(Int(1));
    }

    method Flush() returns (r: R)
      requires Idle()
      modifies this, db
      ensures Meets(old(db.keys), Say(map[], Okay), r)
      ensures Within(old(db.keys), db.keys, ctx)
    {
      if db.keys != map[] {
        db.Clear();
        dirty := true;
      }
      return Ok(Okay);
    }

    /** RENAME, which loses a key's deadline when noting it has the deadlines rebuilt. */
    method Rename(from: string, to: string, nx: bool) returns (r: R)
      requires Idle()
      modifies this, db
      ensures Able() && propagate.None?
      ensures Did(old(db.keys), db.keys, ApplyRename(Live(old(db.keys), ctx.now), from, to, nx), None, ctx, dirty, r)
      ensures timely ==> (db.DeadlinesHold() <==> !old(RenameDrops(db.keys, db.deadlines, from, to, ctx.now, nx)))
      ensures |db.keys| <= |old(db.keys)| && Full(db.keys)
      ensures MovedWithin(old(db.keys), db.keys, from)
    {
      ghost var before := db.keys;
      var same := from == to;
      var renamed := db.Rename(from, to, ctx.now, nx);
      if renamed.Err? {
        return Err(NoSuchKey);
      }
      if renamed.value && !same {
        Touch(from);
        RenameMoves(before, db.keys, from, to);
      }
      return Ok(if nx then (if renamed.value then Int(1) else Int(0)) else Okay);
    }

    lemma {:induction false} RenameMoves(before: Keys, after: Keys, from: string, to: string)
      requires from in before && !before[from].Expired(ctx.now) && from != to
      requires after == (before - {from})[to := before[from]]
      ensures var view := Live(before, ctx.now); Live(after, ctx.now) == (view - {from})[to := view[from]]
      ensures |after| <= |before| && MovedWithin(before, after, from)
      ensures Full(before) ==> Full(after)
    {
      LiveDrop(before, from, ctx.now);
      LivePut(before - {from}, to, before[from], ctx.now);
      DropSize(before, from);
      PutSize(before - {from}, to, before[from]);
    }

    // ---- lists --------------------------------------------------------------------------

    /** The list a key holds, nothing when it holds none. */
    method ListRef(key: string) returns (r: Result<Option<seq<string>>, Error>)
      requires Ready()
      ensures var view := Live(db.keys, ctx.now);
              && (r.Err? <==> NotList(view, key))
              && (r.Err? ==> r.error == WrongType)
              && (r.Ok? ==> r.value == if key in view then Some(ItemsOf(view, key)) else None)
    {
      var held := Ref(key, List([]));
      match held
      case Err(error) => r := Err(error);
      case Ok(None) => r := Ok(None);
      case Ok(Some(value)) => r := Ok(Some(value.items));
    }

    /** A live value changed where it is to one of its kind, within the limit. */
    method Alter(key: string, value: Value)
      requires Ready() && key in Live(db.keys, ctx.now) && SameKind(db.keys[key].value, value)
      requires ctx.replay || Elements(value) <= Max(ctx.maxElements, HeldElements(db.keys, key))
      modifies db
      ensures Ready()
      ensures Live(db.keys, ctx.now) == WithValue(Live(old(db.keys), ctx.now), key, value)
      ensures Within(old(db.keys), db.keys, ctx)
    {
      var saved := Save(key, value);
    }

    /** A live list changed where it is to one that is no longer. */
    method Shorten(key: string, items: seq<string>)
      requires Ready() && key in Live(db.keys, ctx.now) && db.keys[key].value.List?
      requires |items| <= |db.keys[key].value.items|
      modifies db
      ensures Ready()
      ensures Live(db.keys, ctx.now) == WithValue(Live(old(db.keys), ctx.now), key, List(items))
      ensures Within(old(db.keys), db.keys, ctx)
    {
      Alter(key, List(items));
    }

    /** Adds items to one end, one after another. */
    method PushItems(onto: seq<string>, items: seq<string>, left: bool) returns (list: seq<string>)
      ensures list == Pushed(onto, items, left) && |list| == |onto| + |items|
    {
      list := onto;
      for i := 0 to |items|
        invariant list == Pushed(onto, items[..i], left)
        invariant |list| == |onto| + i
      {
        PushedMore(onto, items[..i], items[i], left);
        assert items[..i + 1] == items[..i] + [items[i]];
        list := if left then [items[i]] + list else list + [items[i]];
      }
      assert items[..|items|] == items;
    }

    method Push(key: string, items: seq<string>, left: bool, onlyExisting: bool) returns (r: R)
      requires Idle() && items != []
      modifies this, db
      ensures var view := Live(old(db.keys), ctx.now);
              MeetsNeeds(old(db.keys), ApplyPush(view, key, items, left, onlyExisting), PushNeeds(view, key, items, onlyExisting), r)
      ensures Within(old(db.keys), db.keys, ctx)
    {
      var current := ListRef(key);
      if current.Err? {
        return Err(current.error);
      }
      if onlyExisting && current.value.None? {
        return Ok(Int(0));
      }
      r := PushOnto(key, if current.value.Some? then current.value.value else [], items, left, onlyExisting);
    }

    /** Pushes items onto the list a key holds, if there is room. */
    method PushOnto(key: string, onto: seq<string>, items: seq<string>, left: bool, onlyExisting: bool) returns (r: R)
      requires Idle() && items != []
      requires var view := Live(db.keys, ctx.now);
               !NotList(view, key) && onto == ItemsOf(view, key) && (onlyExisting ==> key in view)
      modifies this, db
      ensures var view := Live(old(db.keys), ctx.now);
              MeetsNeeds(old(db.keys), ApplyPush(view, key, items, left, onlyExisting), PushNeeds(view, key, items, onlyExisting), r)
      ensures Within(old(db.keys), db.keys, ctx)
    {
      PushMeant(Live(db.keys, ctx.now), key, onto, items, left, onlyExisting);
      if !RoomFor(|onto|, |items|) {
        return Err(ElementLimit);
      }
      var list := PushItems(onto, items, left);
      var saved := Save(key, List(list));
      if saved.Err? {
        return Err(saved.error);
      }
      Touch(key);
      return Ok(Int(|list|));
    }

    /** Takes up to `n` items off one end. */
    method PopItems(items: seq<string>, n: nat, left: bool) returns (popped: seq<string>, rest: seq<string>)
      ensures (popped, rest) == PoppedItems(items, n, left)
      ensures |popped| + |rest| == |items|
    {
      popped, rest := [], items;
      var i := 0;
      assert items[|items|..] == [] && items[..|items|] == items;
      while i < n && rest != []
        invariant i <= n && i <= |items|
        invariant (popped, rest) == PoppedItems(items, i, left) && |rest| == |items| - i
        invariant popped == [] <==> i == 0
      {
        PoppedMore(items, i, left);
        if left {
          popped, rest := popped + [rest[0]], rest[1..];
        } else {
          popped, rest := popped + [rest[|rest| - 1]], rest[..|rest| - 1];
        }
        i := i + 1;
      }
    }

    method Pop(key: string, count: Option<nat>, left: bool) returns (r: R)
      requires Idle()
      modifies this, db
      ensures Meets(old(db.keys), ApplyPop(Live(old(db.keys), ctx.now), key, count, left), r)
      ensures Within(old(db.keys), db.keys, ctx)
    {
      var current := ListRef(key);
      if current.Err? {
        return Err(current.error);
      }
      if current.value.None? {
        return Ok(Nil);
      }
      assert !IsEmptyCollection(db.keys[key].value);
      r := PopHeld(key, current.value.value, count, left);
    }

    method PopHeld(key: string, list: seq<string>, count: Option<nat>, left: bool) returns (r: R)
      requires Idle() && key in Live(db.keys, ctx.now) && db.keys[key].value == List(list) && list != []
      modifies this`dirty, db
      ensures Meets(old(db.keys), ApplyPop(Live(old(db.keys), ctx.now), key, count, left), r)
      ensures Within(old(db.keys), db.keys, ctx)
    {
      var n := if count.Some? then count.value else 1;
      var popped, rest := PopItems(list, n, left);
      PopMeant(Live(db.keys, ctx.now), key, list, n, count, left, popped, rest);
      Shorten(key, rest);
      if popped != [] {
        Touch(key);
      }
      return Ok(if count.Some? then Bulks(popped) else if popped != [] then Bulk(popped[0]) else Nil);
    }

    /** A live list changed where it is, as far as it is changed. */
    method Rewrite(key: string, items: seq<string>, rest: seq<string>)
      requires Idle() && key in Live(db.keys, ctx.now) && db.keys[key].value == List(items)
      requires |rest| <= |items| && (|rest| == |items| ==> rest == items)
      modifies this`dirty, db
      ensures Ready()
      ensures Live(db.keys, ctx.now) == WithValue(Live(old(db.keys), ctx.now), key, List(rest))
      ensures !dirty ==> Live(db.keys, ctx.now) == Live(old(db.keys), ctx.now)
      ensures Within(old(db.keys), db.keys, ctx)
    {
      Shorten(key, rest);
      if |rest| != |items| {
        Touch(key);
      } else {
        assert !IsEmptyCollection(old(db.keys)[key].value);
      }
    }

    /** The items of a list between two indexes: the end goes first, then the start. */
    method Kept(list: seq<string>, start: int, stop: int) returns (rest: seq<string>)
      ensures var bounds := RangeBounds(start, stop, |list|);
              rest == if bounds.Some? then list[bounds.value.0..bounds.value.1 + 1] else []
      ensures |rest| <= |list| && (|rest| == |list| ==> rest == list)
    {
      var bounds := RangeBounds(start, stop, |list|);
      rest := [];
      if bounds.Some? {
        rest := list[..bounds.value.1 + 1];
        rest := rest[bounds.value.0..];
        assert rest == list[bounds.value.0..bounds.value.1 + 1];
      }
    }

    method Trim(key: string, start: int, stop: int) returns (r: R)
      requires Idle()
      modifies this, db
      ensures Meets(old(db.keys), ApplyTrim(Live(old(db.keys), ctx.now), key, start, stop), r)
      ensures Within(old(db.keys), db.keys, ctx)
    {
      var current := ListRef(key);
      if current.Err? {
        return Err(current.error);
      }
      if current.value.Some? {
        r := TrimHeld(key, current.value.value, start, stop);
      } else {
        r := Ok(Okay);
      }
    }

    method TrimHeld(key: string, list: seq<string>, start: int, stop: int) returns (r: R)
      requires Idle() && key in Live(db.keys, ctx.now) && db.keys[key].value == List(list)
      modifies this`dirty, db
      ensures Meets(old(db.keys), ApplyTrim(Live(old(db.keys), ctx.now), key, start, stop), r)
      ensures Within(old(db.keys), db.keys, ctx)
    {
      var rest := Kept(list, start, stop);
      TrimMeant(Live(db.keys, ctx.now), key, list, start, stop, rest);
      Rewrite(key, list, rest);
      return Ok(Okay);
    }

    method Rem(key: string, limit: int, value: string) returns (r: R)
      requires Idle()
      modifies this, db
      ensures Meets(old(db.keys), ApplyRem(Live(old(db.keys), ctx.now), key, limit, value), r)
      ensures Within(old(db.keys), db.keys, ctx)
    {
      var current := ListRef(key);
      if current.Err? {
        return Err(current.error);
      }
      if current.value.None? {
        return Ok(Int(0));
      }
      var list := current.value.value;
      var rest, removed := RemoveItems(list, limit, value);
      Rewrite(key, list, rest);
      return Ok(Int(removed));
    }

    method SetAt(key: string, index: int, value: string) returns (r: R)
      requires Idle()
      modifies this, db
      ensures Meets(old(db.keys), ApplySetAt(Live(old(db.keys), ctx.now), key, index, value), r)
      ensures Within(old(db.keys), db.keys, ctx)
    {
      var current := ListRef(key);
      if current.Err? {
        return Err(current.error);
      }
      if current.value.None? {
        return Err(NoSuchKey);
      }
      r := SetAtHeld(key, current.value.value, index, value);
    }

    method SetAtHeld(key: string, list: seq<string>, index: int, value: string) returns (r: R)
      requires Idle() && key in Live(db.keys, ctx.now) && db.keys[key].value == List(list)
      modifies this`dirty, db
      ensures Meets(old(db.keys), ApplySetAt(Live(old(db.keys), ctx.now), key, index, value), r)
      ensures Within(old(db.keys), db.keys, ctx)
    {
      var i := if index < 0 then |list| + index else index;
      if i < 0 || |list| <= i {
        return Err(OutOfRange);
      }
      SetAtMeant(Live(db.keys, ctx.now), key, list, index, value);
      Shorten(key, list[i := value]);
      Touch(key);
      return Ok(Okay);
    }

    method InsertBeside(key: string, before: bool, pivot: string, value: string) returns (r: R)
      requires Idle()
      modifies this, db
      ensures var view := Live(old(db.keys), ctx.now);
              MeetsNeeds(old(db.keys), ApplyInsert(view, key, before, pivot, value), InsertNeeds(view, key, pivot), r)
      ensures Within(old(db.keys), db.keys, ctx)
    {
      var current := ListRef(key);
      if current.Err? {
        return Err(current.error);
      }
      if current.value.None? {
        return Ok(Int(0));
      }
      r := InsertIn(key, current.value.value, before, pivot, value);
    }

    method InsertIn(key: string, list: seq<string>, before: bool, pivot: string, value: string) returns (r: R)
      requires Idle() && key in Live(db.keys, ctx.now) && db.keys[key].value == List(list)
      modifies this`dirty, db
      ensures var view := Live(old(db.keys), ctx.now);
              MeetsNeeds(old(db.keys), ApplyInsert(view, key, before, pivot, value), InsertNeeds(view, key, pivot), r)
      ensures Within(old(db.keys), db.keys, ctx)
    {
      var at := FirstOf(list, pivot);
      if at.None? {
        return Ok(Int(-1));
      }
      ghost var meant := ApplyInsert(Live(db.keys, ctx.now), key, before, pivot, value);
      InsertMeant(Live(db.keys, ctx.now), key, list, before, pivot, value);
      NoKeyNeeded(db.keys, ctx, meant, |list| + 1);
      if !RoomFor(|list|, 1) {
        return Err(ElementLimit);
      }
      var i := if before then at.value else at.value + 1;
      var longer := list[..i] + [value] + list[i..];
      Alter(key, List(longer));
      Touch(key);
      return Ok(Int(|list| + 1));
    }

    /** LMOVE: nothing is taken before all that could refuse it has been checked. A list emptied by it makes room for
        the one it makes. */
    method Move(from: string, to: string, fromLeft: bool, toLeft: bool) returns (r: R)
      requires Idle()
      modifies this, db
      ensures var view := Live(old(db.keys), ctx.now); MeetsNeeds(old(db.keys), ApplyMove(view, from, to, fromLeft, toLeft), MoveNeeds(view, from, to), r)
      ensures Within(old(db.keys), db.keys, ctx)
    {
      var source := ListRef(from);
      if source.Err? {
        return Err(source.error);
      }
      if source.value.None? {
        return Ok(Nil);
      }
      var dest := ListRef(to);
      if dest.Err? {
        return Err(dest.error);
      }
      var items := source.value.value;
      assert !IsEmptyCollection(db.keys[from].value);
      r := MoveItem(from, to, items, dest.value, fromLeft, toLeft);
    }

    /** Takes an item off one list, and puts it on another or on the other end of its own. */
    method MoveItem(from: string, to: string, items: seq<string>, dest: Option<seq<string>>, fromLeft: bool, toLeft: bool) returns (r: R)
      requires Idle() && items != []
      requires from in Live(db.keys, ctx.now) && db.keys[from].value == List(items)
      requires var view := Live(db.keys, ctx.now);
               !NotList(view, to) && dest == if to in view then Some(ItemsOf(view, to)) else None
      modifies this, db
      ensures var view := Live(old(db.keys), ctx.now);
              var (popped, rest) := PoppedItems(items, 1, fromLeft);
              var pushed := Pushed(if from == to then rest else ItemsOf(view, to), popped, toLeft);
              && popped != []
              && MeetsNeeds(old(db.keys), Say(if from == to then WithValue(view, to, List(pushed))
                                             else WithValue(WithValue(view, from, List(rest)), to, List(pushed)), Bulk(popped[0])),
                            MoveNeeds(view, from, to), r)
      ensures Within(old(db.keys), db.keys, ctx)
    {
      var popped, rest := PopItems(items, 1, fromLeft);
      if from == to {
        // Moved within one list: the key and its expiry stay.
        var turned := PushItems(rest, popped, toLeft);
        Shorten(from, turned);
        Touch(from);
        return Ok(Bulk(popped[0]));
      }
      assert popped == [popped[0]];
      r := MoveOver(from, to, items, dest, popped[0], rest, toLeft);
    }

    /** What refuses one element more in a collection of `size`, taken from one of `taken`, which goes if that was all. */
    method MoveRefusal(to: string, size: nat, making: bool, taken: nat, ghost meant: Applied) returns (refusal: Option<Error>)
      requires (making <==> to !in Live(db.keys, ctx.now)) && taken > 0 && meant.reply.Ok?
      ensures refusal == LimitError(db.keys, ctx, meant, Needs(Some(size + 1), {to}, if taken == 1 then 1 else 0))
      ensures refusal.None? ==> RoomFor(size, 1) && (making && taken > 1 ==> AdmitsOne(to))
      ensures refusal.Some? ==> refusal.value.ElementLimit? || refusal.value.KeyLimit?
    {
      OneNeeded(db.keys, ctx, meant, Needs(Some(size + 1), {to}, if taken == 1 then 1 else 0), to);
      if !RoomFor(size, 1) {
        return Some(ElementLimit);
      }
      if making && taken > 1 && !AdmitsOne(to) {
        return Some(KeyLimit);
      }
      return None;
    }

    /** Moves an item taken off one list to another. */
    method MoveOver(from: string, to: string, items: seq<string>, dest: Option<seq<string>>, item: string, rest: seq<string>, toLeft: bool)
      returns (r: R)
      requires Idle() && from != to
      requires from in Live(db.keys, ctx.now) && db.keys[from].value == List(items) && |rest| + 1 == |items|
      requires var view := Live(db.keys, ctx.now);
               !NotList(view, to) && dest == if to in view then Some(ItemsOf(view, to)) else None
      modifies this, db
      ensures var view := Live(old(db.keys), ctx.now);
              MeetsNeeds(old(db.keys), Say(WithValue(WithValue(view, from, List(rest)), to, List(Pushed(ItemsOf(view, to), [item], toLeft))), Bulk(item)),
                         MoveNeeds(view, from, to), r)
      ensures Within(old(db.keys), db.keys, ctx)
    {
      var onto := if dest.Some? then dest.value else [];
      ghost var view := Live(db.keys, ctx.now);
      ghost var meant := Say(WithValue(WithValue(view, from, List(rest)), to, List(Pushed(onto, [item], toLeft))), Bulk(item));
      var refusal := MoveRefusal(to, |onto|, dest.None?, |items|, meant);
      if refusal.Some? {
        return Err(refusal.value);
      }
      var list := PushItems(onto, [item], toLeft);
      MoveTo(from, to, List(items), List(rest), List(list));
      return Ok(Bulk(item));
    }

    /** The entry `key` holds, or that it is given when it is made for `value`. */
    ghost function EntryFor(keys: Keys, key: string, value: Value): Held
    {
      if key in Live(keys, ctx.now) then keys[key] else Entry(EmptyLike(value), None)
    }

    /** A live collection with something taken out, which goes away once it is empty. */
    method TakeOut(from: string, rest: Value)
      requires Ready() && from in Live(db.keys, ctx.now)
      modifies db
      ensures Ready()
      ensures var was := old(db.keys); var entry := was[from].(value := rest);
              db.keys == if IsEmptyCollection(rest) then was[from := entry] - {from} else was[from := entry]
      ensures Live(db.keys, ctx.now) == WithValue(Live(old(db.keys), ctx.now), from, rest)
    {
      LiveWrite(db.keys, from, db.keys[from], rest, ctx.now);
      Write(from, rest);
      db.Prune(from);
    }

    /** A collection with something put in, made without asking when there is none. */
    method PutIn(to: string, list: Value)
      requires Ready() && !IsEmptyCollection(list)
      modifies db
      ensures Ready()
      ensures db.keys == old(db.keys)[to := EntryFor(old(db.keys), to, list).(value := list)]
      ensures Live(db.keys, ctx.now) == WithValue(Live(old(db.keys), ctx.now), to, list)
    {
      LiveWrite(db.keys, to, EntryFor(db.keys, to, list), list, ctx.now);
      if db.Get(to, ctx.now).None? {
        db.Insert(to, Entry(EmptyLike(list), None));
      }
      Write(to, list);
    }

    /** Takes something out of one collection and puts it in another, all checked before. */
    method MoveTo(from: string, to: string, items: Value, rest: Value, list: Value)
      requires Idle() && from != to
      requires from in Live(db.keys, ctx.now) && db.keys[from].value == items
      requires SameKind(items, rest) && !items.Str? && Elements(rest) + 1 == Elements(items)
      requires !IsEmptyCollection(list)
      requires ctx.replay || Elements(list) <= Max(ctx.maxElements, HeldElements(db.keys, to))
      requires to in Live(db.keys, ctx.now) || Elements(items) <= 1 || AdmitsOne(to)
      modifies this`dirty, db
      ensures Ready() && dirty
      ensures Live(db.keys, ctx.now) == WithValue(WithValue(Live(old(db.keys), ctx.now), from, rest), to, list)
      ensures Within(old(db.keys), db.keys, ctx)
    {
      ghost var before := db.keys;
      TakeOut(from, rest);
      ghost var between := db.keys;
      // There is room: it was asked for, or the source just went away.
      PutIn(to, list);
      MovedSizes(before, between, db.keys, from, to, items, rest, list, EntryFor(between, to, list));
      Touch(to);
    }

    lemma {:induction false} MovedSizes(before: Keys, between: Keys, after: Keys, from: string, to: string, items: Value, rest: Value, list: Value, entry: Held)
      requires from != to && from in before && before[from].value == items && Elements(rest) + 1 == Elements(items)
      requires SameKind(items, rest) && !items.Str? && !IsEmptyCollection(list)
      requires between == if IsEmptyCollection(rest) then before[from := before[from].(value := rest)] - {from}
                          else before[from := before[from].(value := rest)]
      requires after == between[to := entry.(value := list)]
      requires ctx.replay || Elements(list) <= Max(ctx.maxElements, HeldElements(before, to))
      requires ctx.replay || to in before || Elements(items) <= 1 || |before| + 1 <= ctx.maxKeys
      ensures Within(before, after, ctx)
    {
      PutSize(before, from, before[from].(value := rest));
      DropSize(before[from := before[from].(value := rest)], from);
      PutSize(between, to, entry.(value := list));
      assert Elements(rest) == 0 ==> IsEmptyCollection(rest);
    }

    // ---- sets -----------------------------------------------------------------------------

    /** The set a key holds, nothing when it holds none. */
    method SetRef(key: string) returns (r: Result<Option<set<string>>, Error>)
      requires Ready()
      ensures var view := Live(db.keys, ctx.now);
              && (r.Err? <==> NotSet(view, key))
              && (r.Err? ==> r.error == WrongType)
              && (r.Ok? ==> r.value == if key in view then Some(MembersOf(view, key)) else None)
    {
      var held := Ref(key, Set({}));
      match held
      case Err(error) => r := Err(error);
      case Ok(None) => r := Ok(None);
      case Ok(Some(value)) => r := Ok(Some(value.members));
    }

    method SAdd(key: string, elements: seq<string>) returns (r: R)
      requires Idle() && elements != []
      modifies this, db
      ensures var view := Live(old(db.keys), ctx.now); MeetsNeeds(old(db.keys), ApplySAdd(view, key, elements), SAddNeeds(view, key, elements), r)
      ensures Within(old(db.keys), db.keys, ctx)
    {
      var current := SetRef(key);
      if current.Err? {
        return Err(current.error);
      }
      r := AddMembers(key, if current.value.Some? then current.value.value else {}, elements);
    }

    /** Adds members to the set a key holds, if there is room. */
    method AddMembers(key: string, members: set<string>, elements: seq<string>) returns (r: R)
      requires Idle() && elements != [] && !NotSet(Live(db.keys, ctx.now), key)
      requires members == MembersOf(Live(db.keys, ctx.now), key)
      modifies this, db
      ensures var view := Live(old(db.keys), ctx.now); MeetsNeeds(old(db.keys), ApplySAdd(view, key, elements), SAddNeeds(view, key, elements), r)
      ensures Within(old(db.keys), db.keys, ctx)
    {
      var added := |All(elements) - members|;
      AddMeant(Live(db.keys, ctx.now), key, members, elements);
      if !RoomFor(|members|, added) {
        return Err(ElementLimit);
      }
      if added == 0 {
        NothingAdded(Live(db.keys, ctx.now), key, members, elements);
      }
      assert elements[0] in members + All(elements);
      r := SaveMembers(key, members + All(elements), added);
    }

    /** Makes a set what it is to be, and says how many members that added. */
    method SaveMembers(key: string, members: set<string>, added: nat) returns (r: R)
      requires Idle() && members != {} && !NotSet(Live(db.keys, ctx.now), key) && RoomFor(0, |members|)
      requires added == 0 ==> WithValue(Live(db.keys, ctx.now), key, Set(members)) == Live(db.keys, ctx.now)
      modifies this, db
      ensures MeetsNeeds(old(db.keys), Say(WithValue(Live(old(db.keys), ctx.now), key, Set(members)), Int(added)), Needs(Some(|members|), {key}, 0), r)
      ensures Within(old(db.keys), db.keys, ctx)
    {
      var saved := Save(key, Set(members));
      if saved.Err? {
        return Err(saved.error);
      }
      if added > 0 {
        Touch(key);
      }
      return Ok(Int(added));
    }

    method SRem(key: string, elements: seq<string>) returns (r: R)
      requires Idle()
      modifies this, db
      ensures Meets(old(db.keys), ApplySRem(Live(old(db.keys), ctx.now), key, elements), r)
      ensures Within(old(db.keys), db.keys, ctx)
    {
      var current := SetRef(key);
      if current.Err? {
        return Err(current.error);
      }
      if current.value.None? {
        return Ok(Int(0));
      }
      var members := current.value.value;
      var removed := RemoveMembers(key, members, All(elements));
      return Ok(Int(removed));
    }

    /** Takes elements out of a live set where it is, and says how many it held. */
    method RemoveMembers(key: string, members: set<string>, elements: set<string>) returns (removed: nat)
      requires Idle() && key in Live(db.keys, ctx.now) && db.keys[key].value == Set(members)
      modifies this`dirty, db
      ensures Ready()
      ensures Live(db.keys, ctx.now) == WithValue(Live(old(db.keys), ctx.now), key, Set(members - elements))
      ensures !dirty ==> Live(db.keys, ctx.now) == Live(old(db.keys), ctx.now)
      ensures Within(old(db.keys), db.keys, ctx)
      ensures removed == |members| - |members - elements|
    {
      RemovedSize(members, elements);
      assert !IsEmptyCollection(db.keys[key].value);
      removed := |members * elements|;
      var saved := Save(key, Set(members - elements));
      if removed > 0 {
        Touch(key);
      }
    }

    method SMove(from: string, to: string, element: string) returns (r: R)
      requires Idle()
      modifies this, db
      ensures var view := Live(old(db.keys), ctx.now); MeetsNeeds(old(db.keys), ApplySMove(view, from, to, element), SMoveNeeds(view, from, to, element), r)
      ensures Within(old(db.keys), db.keys, ctx)
    {
      var source := SetRef(from);
      if source.Err? {
        return Err(source.error);
      }
      if source.value.None? {
        return Ok(Int(0));
      }
      var dest := SetRef(to);
      if dest.Err? {
        return Err(dest.error);
      }
      var members := source.value.value;
      if from == to || element !in members {
        return Ok(if element in members then Int(1) else Int(0));
      }
      r := SMoveOver(from, to, members, dest.value, element);
    }

    /** SMOVE between two sets, all that could refuse it checked first. */
    method SMoveOver(from: string, to: string, members: set<string>, dest: Option<set<string>>, element: string) returns (r: R)
      requires Idle() && from != to && element in members
      requires from in Live(db.keys, ctx.now) && db.keys[from].value == Set(members)
      requires var view := Live(db.keys, ctx.now);
               !NotSet(view, to) && dest == if to in view then Some(MembersOf(view, to)) else None
      modifies this, db
      ensures var view := Live(old(db.keys), ctx.now);
              MeetsNeeds(old(db.keys), Say(WithValue(WithValue(view, from, Set(members - {element})), to, Set(MembersOf(view, to) + {element})), Int(1)),
                         SMoveNeeds(view, from, to, element), r)
      ensures Within(old(db.keys), db.keys, ctx)
    {
      var into := if dest.Some? then dest.value else {};
      ghost var view := Live(db.keys, ctx.now);
      ghost var meant := Say(WithValue(WithValue(view, from, Set(members - {element})), to, Set(into + {element})), Int(1));
      var refusal := SMoveRefusal(from, to, members, into, element, meant);
      if refusal.Some? {
        return Err(refusal.value);
      }
      SMoveInto(from, to, members, into, element);
      return Ok(Int(1));
    }

    /** What refuses an element another set: nothing if it holds it already. */
    method SMoveRefusal(from: string, to: string, members: set<string>, into: set<string>, element: string, ghost meant: Applied)
      returns (refusal: Option<Error>)
      requires from != to && element in members && meant.reply.Ok?
      requires var view := Live(db.keys, ctx.now); members == MembersOf(view, from) && into == MembersOf(view, to) && !NotSet(view, to)
      requires Full(db.keys)
      ensures refusal == LimitError(db.keys, ctx, meant, SMoveNeeds(Live(db.keys, ctx.now), from, to, element))
      ensures refusal.None? ==> element in into || RoomFor(|into|, 1)
      ensures refusal.None? ==> to in Live(db.keys, ctx.now) || |members| <= 1 || AdmitsOne(to)
      ensures refusal.Some? ==> refusal.value.ElementLimit? || refusal.value.KeyLimit?
    {
      if element in into {
        NothingNeeded(db.keys, ctx, meant);
        return None;
      }
      assert members != {};
      refusal := MoveRefusal(to, |into|, into == {}, |members|, meant);
    }

    /** Moves an element that there is room for. */
    method SMoveInto(from: string, to: string, members: set<string>, into: set<string>, element: string)
      requires Idle() && from != to && element in members
      requires from in Live(db.keys, ctx.now) && db.keys[from].value == Set(members)
      requires !NotSet(Live(db.keys, ctx.now), to) && into == MembersOf(Live(db.keys, ctx.now), to)
      requires element !in into ==> RoomFor(|into|, 1)
      requires to in Live(db.keys, ctx.now) || |members| <= 1 || AdmitsOne(to)
      modifies this`dirty, db
      ensures Ready() && dirty && Within(old(db.keys), db.keys, ctx)
      ensures Live(db.keys, ctx.now) ==
              WithValue(WithValue(Live(old(db.keys), ctx.now), from, Set(members - {element})), to, Set(into + {element}))
    {
      if element in into {
        assert into + {element} == into;
      }
      assert element in into + {element};
      MoveTo(from, to, Set(members), Set(members - {element}), Set(into + {element}));
    }

    // ---- several keys ---------------------------------------------------------------------

    method Del(names: seq<string>) returns (r: R)
      requires Idle()
      modifies this, db
      ensures var (rest, n) := DropAll(Live(old(db.keys), ctx.now), names);
              Meets(old(db.keys), Say(rest, Int(n)), r)
      ensures Within(old(db.keys), db.keys, ctx)
    {
      ghost var before := db.keys;
      var removed := 0;
      for i := 0 to |names|
        invariant Ready() && propagate.None? && Within(before, db.keys, ctx)
        invariant Dropped(Live(before, ctx.now), Live(db.keys, ctx.now), names[..i], removed)
        invariant dirty <==> removed > 0
      {
        ghost var between := db.keys;
        var live := DelOne(names[i]);
        DroppedOn(Live(before, ctx.now), Live(between, ctx.now), names, i, removed);
        WithinOn(before, between, db.keys, ctx);
        removed := if live then removed + 1 else removed;
      }
      assert names[..|names|] == names;
      NothingDropped(Live(before, ctx.now), names);
      return Ok(Int(removed));
    }

    /** Deletes a key, and notes it if it was live. */
    method DelOne(name: string) returns (live: bool)
      requires Ready()
      modifies this`dirty, db
      ensures Ready() && Within(old(db.keys), db.keys, ctx)
      ensures Live(db.keys, ctx.now) == Live(old(db.keys), ctx.now) - {name}
      ensures live == (name in Live(old(db.keys), ctx.now)) && dirty == (old(dirty) || live)
    {
      live := Delete(name);
      if live {
        Touch(name);
      }
    }

    /** Deletes a key, expired or not, saying whether it was live. */
    method Delete(key: string) returns (live: bool)
      requires Ready()
      modifies db
      ensures Ready() && Within(old(db.keys), db.keys, ctx)
      ensures Live(db.keys, ctx.now) == Live(old(db.keys), ctx.now) - {key}
      ensures live <==> key in Live(old(db.keys), ctx.now)
    {
      LiveDrop(db.keys, key, ctx.now);
      DropSize(db.keys, key);
      live := db.Get(key, ctx.now).Some?;
      var held := db.Take(key);
    }

    /** All pairs are written, or none is. */
    method MSet(pairs: seq<(string, string)>, nx: bool) returns (r: R)
      requires Idle() && pairs != []
      modifies this, db
      ensures var view := Live(old(db.keys), ctx.now); MeetsNeeds(old(db.keys), ApplyMSet(view, pairs, nx, ctx.now), MSetNeeds(view, pairs, nx), r)
      ensures Within(old(db.keys), db.keys, ctx)
    {
      if nx && exists i :: 0 <= i < |pairs| && db.Get(pairs[i].0, ctx.now).Some? {
        return Ok(Int(0));
      }
      if exists i :: 0 <= i < |pairs| && |pairs[i].1| > MAX_STRING {
        return Err(TooLong);
      }
      if !Admits(Names(pairs)) {
        return Err(KeyLimit);
      }
      StoreAll(pairs);
      return Ok(if nx then Int(1) else Okay);
    }

    /** Stores a string that is known to fit. */
    method StoreAdmitted(key: string, value: string)
      requires Ready() && AdmitsOne(key) && |value| <= MAX_STRING
      modifies this`dirty, db
      ensures Ready() && dirty && db.keys.Keys == old(db.keys).Keys + {key}
      ensures Live(db.keys, ctx.now) == StoreString(Live(old(db.keys), ctx.now), key, value, None, ctx.now)
      ensures Within(old(db.keys), db.keys, ctx)
    {
      var stored := PutString(key, value, None);
    }

    method StoreAll(pairs: seq<(string, string)>)
      requires Idle() && pairs != [] && Admits(Names(pairs))
      requires forall i :: 0 <= i < |pairs| ==> |pairs[i].1| <= MAX_STRING
      modifies this`dirty, db
      ensures Ready() && dirty
      ensures Live(db.keys, ctx.now) == StorePairs(Live(old(db.keys), ctx.now), pairs, ctx.now)
      ensures Within(old(db.keys), db.keys, ctx)
    {
      ghost var before := db.keys;
      NoneStored(before, pairs, ctx);
      for i := 0 to |pairs|
        invariant Ready() && Stored(before, db.keys, pairs, i, ctx)
        invariant i > 0 ==> dirty
      {
        StoreNext(before, pairs, i);
      }
      AllStored(before, db.keys, pairs, ctx);
    }

    /** Stores one pair more. */
    method StoreNext(ghost before: Keys, pairs: seq<(string, string)>, i: nat)
      requires i < |pairs| && |pairs[i].1| <= MAX_STRING && Ready() && Stored(before, db.keys, pairs, i, ctx)
      requires ctx.replay || Unheld(before, Names(pairs)) == {} || |before| + |Unheld(before, Names(pairs))| <= ctx.maxKeys
      modifies this`dirty, db
      ensures Ready() && dirty && Stored(before, db.keys, pairs, i + 1, ctx)
    {
      ghost var between := db.keys;
      AdmitsNext(before, between, pairs, i, ctx);
      StoreAdmitted(pairs[i].0, pairs[i].1);
      StoredOn(before, between, db.keys, pairs, i, ctx);
    }

    // ---- commands journaled as others -----------------------------------------------------

    /** Like `Meets`, but what is journaled is `instead`. */
    ghost predicate DidInstead(before: Keys, meant: Applied, needs: Needs, r: R, instead: Command, same: Keys)
      reads this, db
    {
      && Ready() && Did(before, db.keys, meant, LimitError(before, ctx, meant, needs), ctx, dirty, r)
      && (dirty && r.Ok? ==> propagate == Some([instead]) && same == Live(db.keys, ctx.now))
    }

    /** Takes an item off the first list that has one. */
    method BPop(names: seq<string>, left: bool) returns (r: R, ghost key: string)
      requires Idle()
      modifies this, db
      ensures var view := Live(old(db.keys), ctx.now);
              DidInstead(old(db.keys), ApplyBPop(view, names, left), NOTHING, r, CPop(key, None, left), ApplyPop(view, key, None, left).view)
      ensures Within(old(db.keys), db.keys, ctx)
    {
      key := "";
      ghost var view := Live(db.keys, ctx.now);
      for i := 0 to |names|
        invariant Idle() && unchanged(db) && unchanged(this)
        invariant ApplyBPop(view, names, left) == ApplyBPop(view, names[i..], left)
      {
        assert names[i..][1..] == names[i + 1..];
        var current := ListRef(names[i]);
        if current.Err? {
          return Err(current.error), key;
        }
        if current.value.Some? {
          assert !IsEmptyCollection(db.keys[names[i]].value);
          key := names[i];
          var item := BPopFrom(names[i], current.value.value, left);
          propagate := Some([CPop(names[i], None, left)]);
          return Ok(Bulks([names[i], item])), key;
        }
      }
      return Ok(Nil), key;
    }

    method BPopFrom(key: string, items: seq<string>, left: bool) returns (item: string)
      requires Idle() && items != []
      requires key in Live(db.keys, ctx.now) && db.keys[key].value == List(items)
      modifies this, db
      ensures Ready() && dirty
      ensures var (popped, rest) := PoppedItems(items, 1, left);
              && popped == [item]
              && Live(db.keys, ctx.now) == WithValue(Live(old(db.keys), ctx.now), key, List(rest))
      ensures Within(old(db.keys), db.keys, ctx)
    {
      var popped, rest := PopItems(items, 1, left);
      Shorten(key, rest);
      Touch(key);
      item := popped[0];
    }

    /** BLMOVE: a move, journaled as one that does not wait. */
    method BMove(from: string, to: string, fromLeft: bool, toLeft: bool) returns (r: R)
      requires Idle()
      modifies this, db
      ensures var view := Live(old(db.keys), ctx.now);
              var meant := ApplyMove(view, from, to, fromLeft, toLeft);
              DidInstead(old(db.keys), meant, MoveNeeds(view, from, to), r, CMove(from, to, fromLeft, toLeft), meant.view)
      ensures Within(old(db.keys), db.keys, ctx)
    {
      var source := ListRef(from);
      if source.Err? {
        return Err(source.error);
      }
      if source.value.None? {
        return Ok(Nil);
      }
      r := Move(from, to, fromLeft, toLeft);
      if r.Ok? {
        propagate := Some([CMove(from, to, fromLeft, toLeft)]);
      }
    }

    /** Some of a set's members, each once. */
    method PickMembers(members: set<string>, n: nat) returns (picked: seq<string>)
      ensures |picked| == if n < |members| then n else |members|
      ensures All(picked) <= members && |All(picked)| == |picked|
    {
      picked := [];
      var rest := members;
      while |picked| < n && rest != {}
        invariant |picked| <= n && |picked| + |rest| == |members|
        invariant All(picked) == members - rest && rest <= members && |All(picked)| == |picked|
        decreases rest
      {
        var member :| member in rest;
        assert All(picked + [member]) == All(picked) + {member};
        picked, rest := picked + [member], rest - {member};
      }
    }

    /** Takes random members off a set: any distinct ones, as many as wanted or as there are. */
    method SPop(key: string, wanted: Option<int>) returns (r: R, ghost picked: seq<string>)
      requires Idle()
      modifies this, db
      ensures Ready() && Within(old(db.keys), db.keys, ctx)
      ensures SPopped(Live(old(db.keys), ctx.now), Live(db.keys, ctx.now), key, wanted, picked, r)
      ensures dirty <==> picked != []
      ensures dirty ==> r.Ok? && propagate == Some([CSRem(key, picked)])
    {
      picked := [];
      var current := SetRef(key);
      if current.Err? {
        return Err(current.error), picked;
      }
      if current.value.None? {
        return Ok(if wanted.Some? then Bulks([]) else Nil), picked;
      }
      if wanted.Some? && wanted.value < 0 {
        return Err(Negative), picked;
      }
      assert !IsEmptyCollection(db.keys[key].value);
      var chosen := SPopHeld(key, current.value.value, if wanted.Some? then wanted.value else 1);
      return Ok(if wanted.Some? then Bulks(chosen) else Bulk(chosen[0])), chosen;
    }

    /** Takes random members off a set that is there. */
    method SPopHeld(key: string, members: set<string>, n: nat) returns (chosen: seq<string>)
      requires Idle() && key in Live(db.keys, ctx.now) && db.keys[key].value == Set(members)
      modifies this, db
      ensures Ready() && Within(old(db.keys), db.keys, ctx)
      ensures All(chosen) <= members && |All(chosen)| == |chosen| == Least(n, |members|)
      ensures dirty <==> chosen != []
      ensures !dirty ==> Live(db.keys, ctx.now) == Live(old(db.keys), ctx.now)
      ensures dirty ==> propagate == Some([CSRem(key, chosen)])
      ensures dirty ==> Live(db.keys, ctx.now) == ApplySRem(Live(old(db.keys), ctx.now), key, chosen).view
    {
      chosen := PickMembers(members, n);
      if chosen != [] {
        var removed := RemoveMembers(key, members, All(chosen));
        Touch(key);
        propagate := Some([CSRem(key, chosen)]);
      }
    }

    // ---- running any command --------------------------------------------------------------

    method RunString(c: Command) returns (r: R)
      requires Idle() && WellFormed(c)
      requires c.CSet? || c.CSetNx? || c.CGetSet? || c.CGetDel? || c.CGetEx? || c.CDelIfEq? || c.CAppend? || c.CMSet?
      modifies this, db
      ensures MeetsCommand(old(db.keys), c, r)
      ensures Within(old(db.keys), db.keys, ctx)
    {
      match c
      case CSet(key, value, when, get, expiry) => r := SetString(key, value, when, get, expiry);
      case CSetNx(key, value) => r := SetNx(key, value);
      case CGetSet(key, value) => r := GetSet(key, value);
      case CGetDel(key) => r := GetDel(key);
      case CGetEx(key, change) => r := GetEx(key, change);
      case CDelIfEq(key, value) => r := DelIfEq(key, value);
      case CAppend(key, value) => r := Append(key, value);
      case CMSet(pairs, nx) => r := MSet(pairs, nx);
    }

    method RunKey(c: Command) returns (r: R)
      requires Idle()
      requires c.CDel? || c.CExpire? || c.CPersist? || c.CFlush?
      modifies this, db
      ensures MeetsCommand(old(db.keys), c, r)
      ensures Within(old(db.keys), db.keys, ctx)
    {
      match c
      case CDel(names) => r := Del(names);
      case CExpire(key, amount, unit, absolute, flags) => r := Expire(key, amount, unit, absolute, flags);
      case CPersist(key) => r := Persist(key);
      case CFlush => r := Flush();
    }

    method RunAdd(c: Command) returns (r: R)
      requires Idle() && WellFormed(c) && (c.CPush? || c.CSAdd?)
      modifies this, db
      ensures MeetsCommand(old(db.keys), c, r)
      ensures Within(old(db.keys), db.keys, ctx)
    {
      ghost var before := db.keys;
      match c
      case CPush(key, items, left, onlyExisting) =>
        r := Push(key, items, left, onlyExisting);
        DidPush(before, db.keys, key, items, left, onlyExisting, ctx, dirty, r);
      case CSAdd(key, elements) =>
        r := SAdd(key, elements);
        DidSAdd(before, db.keys, key, elements, ctx, dirty, r);
    }

    method RunTake(c: Command) returns (r: R)
      requires Idle() && (c.CPop? || c.CSRem?)
      modifies this, db
      ensures MeetsCommand(old(db.keys), c, r)
      ensures Within(old(db.keys), db.keys, ctx)
    {
      ghost var before := db.keys;
      match c
      case CPop(key, count, left) =>
        r := Pop(key, count, left);
        DidPop(before, db.keys, key, count, left, ctx, dirty, r);
      case CSRem(key, elements) =>
        r := SRem(key, elements);
        DidSRem(before, db.keys, key, elements, ctx, dirty, r);
    }

    method RunMove(c: Command) returns (r: R)
      requires Idle() && (c.CMove? || c.CSMove?)
      modifies this, db
      ensures MeetsCommand(old(db.keys), c, r)
      ensures Within(old(db.keys), db.keys, ctx)
    {
      ghost var before := db.keys;
      match c
      case CMove(from, to, fromLeft, toLeft) =>
        r := Move(from, to, fromLeft, toLeft);
        DidMove(before, db.keys, from, to, fromLeft, toLeft, ctx, dirty, r);
      case CSMove(from, to, element) =>
        r := SMove(from, to, element);
        DidSMove(before, db.keys, from, to, element, ctx, dirty, r);
    }

    method RunInside(c: Command) returns (r: R)
      requires Idle() && (c.CTrim? || c.CRem? || c.CSetAt? || c.CInsert?)
      modifies this, db
      ensures MeetsCommand(old(db.keys), c, r)
      ensures Within(old(db.keys), db.keys, ctx)
    {
      ghost var was := db.keys;
      match c
      case CTrim(key, start, stop) =>
        r := Trim(key, start, stop);
        DidTrim(was, db.keys, key, start, stop, ctx, dirty, r);
      case CRem(key, limit, value) =>
        r := Rem(key, limit, value);
        DidRem(was, db.keys, key, limit, value, ctx, dirty, r);
      case CSetAt(key, index, value) =>
        r := SetAt(key, index, value);
        DidSetAt(was, db.keys, key, index, value, ctx, dirty, r);
      case CInsert(key, before, pivot, value) =>
        r := InsertBeside(key, before, pivot, value);
        DidInsert(was, db.keys, key, before, pivot, value, ctx, dirty, r);
    }

    method RunBPop(c: Command) returns (r: R)
      requires Idle() && c.CBPop?
      modifies this, db
      ensures Ready() && Full(db.keys) && Fits(old(db.keys), db.keys, c, ctx, dirty, propagate, r)
      ensures Within(old(db.keys), db.keys, ctx)
    {
      ghost var before := db.keys;
      ghost var key;
      r, key := BPop(c.names, c.left);
      JournaledInstead(Live(before, ctx.now), Live(db.keys, ctx.now), c, ctx.now, dirty, propagate, r, CPop(key, None, c.left));
      InsteadFits(before, db.keys, c, ctx, dirty, propagate, r);
    }

    method RunBMove(c: Command) returns (r: R)
      requires Idle() && c.CBMove?
      modifies this, db
      ensures Ready() && Full(db.keys) && Fits(old(db.keys), db.keys, c, ctx, dirty, propagate, r)
      ensures Within(old(db.keys), db.keys, ctx)
    {
      ghost var before := db.keys;
      r := BMove(c.from, c.to, c.fromLeft, c.toLeft);
      JournaledInstead(Live(before, ctx.now), Live(db.keys, ctx.now), c, ctx.now, dirty, propagate, r, CMove(c.from, c.to, c.fromLeft, c.toLeft));
      InsteadFits(before, db.keys, c, ctx, dirty, propagate, r);
    }

    method RunSPop(c: Command) returns (r: R)
      requires Idle() && c.CSPop?
      modifies this, db
      ensures Ready() && Full(db.keys) && Fits(old(db.keys), db.keys, c, ctx, dirty, propagate, r)
      ensures Within(old(db.keys), db.keys, ctx)
    {
      ghost var before := db.keys;
      ghost var picked;
      r, picked := SPop(c.key, c.wanted);
      RandomFits(before, db.keys, c, ctx, dirty, propagate, r, picked);
    }

    method RunRename(c: Command) returns (r: R)
      requires Idle() && c.CRename?
      modifies this, db
      ensures timely ==> (db.DeadlinesHold() <==> !old(RenameDrops(db.keys, db.deadlines, c.from, c.to, ctx.now, c.nx)))
      ensures Able() && Full(db.keys) && Fits(old(db.keys), db.keys, c, ctx, dirty, propagate, r)
      ensures |db.keys| <= |old(db.keys)| && MovedWithin(old(db.keys), db.keys, c.from)
    {
      ghost var before := db.keys;
      r := Rename(c.from, c.to, c.nx);
      DidFits(before, db.keys, c, ctx, dirty, r);
    }

    method RunPlain(c: Command) returns (r: R)
      requires Idle() && WellFormed(c) && !c.CBPop? && !c.CBMove? && !c.CSPop? && !c.CRename?
      modifies this, db
      ensures Ready() && Full(db.keys) && Fits(old(db.keys), db.keys, c, ctx, dirty, propagate, r)
      ensures Within(old(db.keys), db.keys, ctx)
    {
      ghost var before := db.keys;
      if c.CPush? || c.CSAdd? {
        r := RunAdd(c);
      } else if c.CPop? || c.CSRem? {
        r := RunTake(c);
      } else if c.CMove? || c.CSMove? {
        r := RunMove(c);
      } else if c.CDel? || c.CExpire? || c.CPersist? || c.CFlush? {
        r := RunKey(c);
      } else if c.CTrim? || c.CRem? || c.CSetAt? || c.CInsert? {
        r := RunInside(c);
      } else {
        r := RunString(c);
      }
      DidFits(before, db.keys, c, ctx, dirty, r);
    }

    /** Runs any command. */
    method Run(c: Command) returns (r: R)
      requires Idle() && WellFormed(c)
      modifies this, db
      ensures Able() && Full(db.keys) && Fits(old(db.keys), db.keys, c, ctx, dirty, propagate, r)
      ensures timely ==> (db.DeadlinesHold() <==> !old(Drops(db.keys, db.deadlines, c, ctx.now)))
      ensures if c.CRename? then |db.keys| <= |old(db.keys)| && MovedWithin(old(db.keys), db.keys, c.from)
              else Within(old(db.keys), db.keys, ctx)
    {
      if c.CBPop? {
        r := RunBPop(c);
      } else if c.CBMove? {
        r := RunBMove(c);
      } else if c.CSPop? {
        r := RunSPop(c);
      } else if c.CRename? {
        r := RunRename(c);
      } else {
        r := RunPlain(c);
      }
    }
  }

  lemma {:induction false} JournaledInstead(
      before: Keys, after: Keys, c: Command, now: nat, dirty: bool, propagate: Option<seq<Command>>, r: R, instead: Command)
    requires WellFormed(instead) && !instead.CSPop?
    requires !dirty && r.Ok? ==> after == before
    requires dirty && r.Ok? ==> propagate == Some([instead]) && Apply(before, instead, now).view == after
    ensures Journaled(before, after, Journal(c, dirty, propagate, r), now, r)
  {
    ApplyOne(before, instead, now);
  }

  /** A command journaled as another fits when the other does the same to the live keys. */
  lemma {:induction false} InsteadFits(before: Keys, after: Keys, c: Command, ctx: Ctx, dirty: bool, propagate: Option<seq<Command>>, r: R)
    requires !c.CSPop? && DidCommand(before, after, c, ctx, dirty, r)
    requires Journaled(Live(before, ctx.now), Live(after, ctx.now), Journal(c, dirty, propagate, r), ctx.now, r)
    ensures Fits(before, after, c, ctx, dirty, propagate, r)
  {}

  lemma {:induction false} AsSRem(view: Keys, key: string, elements: seq<string>, now: nat)
    ensures Apply(view, CSRem(key, elements), now) == ApplySRem(view, key, elements)
  {}

  /** An SPOP is journaled as the SREM of what it took. */
  lemma {:induction false} RandomJournaled(
      before: Keys, after: Keys, c: Command, now: nat, dirty: bool, propagate: Option<seq<Command>>, r: R, picked: seq<string>)
    requires c.CSPop? && after == (if picked == [] then before else ApplySRem(before, c.key, picked).view)
    requires (dirty <==> picked != []) && (dirty ==> r.Ok? && propagate == Some([CSRem(c.key, picked)]))
    ensures Journaled(before, after, Journal(c, dirty, propagate, r), now, r)
  {
    AsSRem(before, c.key, picked, now);
    JournaledInstead(before, after, c, now, dirty, propagate, r, CSRem(c.key, picked));
  }

  lemma {:induction false} RandomFits(before: Keys, after: Keys, c: Command, ctx: Ctx, dirty: bool, propagate: Option<seq<Command>>, r: R, picked: seq<string>)
    requires c.CSPop? && SPopped(Live(before, ctx.now), Live(after, ctx.now), c.key, c.wanted, picked, r)
    requires (dirty <==> picked != []) && (dirty ==> r.Ok? && propagate == Some([CSRem(c.key, picked)]))
    ensures Fits(before, after, c, ctx, dirty, propagate, r)
  {
    RandomJournaled(Live(before, ctx.now), Live(after, ctx.now), c, ctx.now, dirty, propagate, r, picked);
  }

  /** The first `n` pairs are stored. */
  ghost predicate Stored(before: Keys, after: Keys, pairs: seq<(string, string)>, n: nat, ctx: Ctx)
    requires n <= |pairs|
  {
    && Within(before, after, ctx)
    && after.Keys == before.Keys + Names(pairs[..n])
    && Live(after, ctx.now) == StorePairs(Live(before, ctx.now), pairs[..n], ctx.now)
  }

  lemma {:induction false} NoneStored(keys: Keys, pairs: seq<(string, string)>, ctx: Ctx)
    ensures Stored(keys, keys, pairs, 0, ctx)
  {}

  lemma {:induction false} AllStored(before: Keys, after: Keys, pairs: seq<(string, string)>, ctx: Ctx)
    requires Stored(before, after, pairs, |pairs|, ctx)
    ensures Within(before, after, ctx)
    ensures Live(after, ctx.now) == StorePairs(Live(before, ctx.now), pairs, ctx.now)
  {
    assert pairs[..|pairs|] == pairs;
  }

  lemma {:induction false} StoredOn(before: Keys, between: Keys, after: Keys, pairs: seq<(string, string)>, i: nat, ctx: Ctx)
    requires i < |pairs| && Stored(before, between, pairs, i, ctx)
    requires Within(between, after, ctx) && after.Keys == between.Keys + {pairs[i].0}
    requires Live(after, ctx.now) == StoreString(Live(between, ctx.now), pairs[i].0, pairs[i].1, None, ctx.now)
    ensures Stored(before, after, pairs, i + 1, ctx)
  {
    WithinOn(before, between, after, ctx);
    NamesMore(pairs, i);
    PairsMore(Live(before, ctx.now), pairs, i, ctx.now);
  }

  lemma {:induction false} PairsMore(view: Keys, pairs: seq<(string, string)>, i: nat, now: nat)
    requires i < |pairs|
    ensures StorePairs(view, pairs[..i + 1], now)
            == StoreString(StorePairs(view, pairs[..i], now), pairs[i].0, pairs[i].1, None, now)
  {
    assert pairs[..i + 1][..i] == pairs[..i];
  }

  /** When all names are admitted together, each is in turn. */
  lemma {:induction false} AdmitsNext(before: Keys, between: Keys, pairs: seq<(string, string)>, i: nat, ctx: Ctx)
    requires i < |pairs| && between.Keys == before.Keys + Names(pairs[..i])
    requires ctx.replay || Unheld(before, Names(pairs)) == {} || |before| + |Unheld(before, Names(pairs))| <= ctx.maxKeys
    ensures ctx.replay || pairs[i].0 in between || |between| + 1 <= ctx.maxKeys
  {
    var key := pairs[i].0;
    if !ctx.replay && key !in between {
      NamesMore(pairs, i);
      NamesGrow(pairs, i);
      NamesGrow(pairs, i + 1);
      UnheldRoom(before.Keys, Names(pairs), Names(pairs[..i]), key, Unheld(before, Names(pairs)));
      assert |between| == |between.Keys| && |before| == |before.Keys|;
    }
  }

  lemma {:induction false} UnheldRoom(held: set<string>, names: set<string>, some: set<string>, key: string, unheld: set<string>)
    requires some <= names && key in names && key !in held + some
    requires unheld == names - held
    ensures |held + some| + 1 <= |held| + |unheld|
  {
    assert held + some + {key} <= held + unheld;
    Smaller(held + some + {key}, held + unheld);
  }

  lemma {:induction false} NamesMore(pairs: seq<(string, string)>, i: nat)
    requires i < |pairs|
    ensures Names(pairs[..i + 1]) == Names(pairs[..i]) + {pairs[i].0}
  {
    assert pairs[..i + 1][..i] == pairs[..i];
  }

  lemma {:induction false} NamesGrow(pairs: seq<(string, string)>, i: nat)
    requires i <= |pairs|
    ensures Names(pairs[..i]) <= Names(pairs)
    decreases |pairs| - i
  {
    if i < |pairs| {
      NamesMore(pairs, i);
      NamesGrow(pairs, i + 1);
    } else {
      assert pairs[..i] == pairs;
    }
  }

  lemma {:induction false} WithinOn(a: Keys, b: Keys, c: Keys, ctx: Ctx)
    requires Within(a, b, ctx) && Within(b, c, ctx)
    ensures Within(a, c, ctx)
  {}

  lemma {:induction false} TrimMeant(view: Keys, key: string, list: seq<string>, start: int, stop: int, rest: seq<string>)
    requires key in view && view[key].value == List(list)
    requires var bounds := RangeBounds(start, stop, |list|);
             rest == if bounds.Some? then list[bounds.value.0..bounds.value.1 + 1] else []
    ensures ApplyTrim(view, key, start, stop) == Say(WithValue(view, key, List(rest)), Okay)
  {}

  lemma {:induction false} InsertMeant(view: Keys, key: string, list: seq<string>, before: bool, pivot: string, value: string)
    requires key in view && view[key].value == List(list) && FirstOf(list, pivot).Some?
    ensures var i := FirstOf(list, pivot).value + if before then 0 else 1;
            ApplyInsert(view, key, before, pivot, value)
            == Say(WithValue(view, key, List(list[..i] + [value] + list[i..])), Int(|list| + 1))
    ensures InsertNeeds(view, key, pivot) == Needs(Some(|list| + 1), {}, 0)
  {}

  lemma {:induction false} SetAtMeant(view: Keys, key: string, list: seq<string>, index: int, value: string)
    requires key in view && view[key].value == List(list)
    ensures var i := if index < 0 then |list| + index else index;
            0 <= i < |list| ==> ApplySetAt(view, key, index, value) == Say(WithValue(view, key, List(list[i := value])), Okay)
  {}

  /** Popping nothing off a list leaves it, and its key, as they were. */
  lemma {:induction false} PopMeant(view: Keys, key: string, list: seq<string>, n: nat, count: Option<nat>, left: bool,
                                    popped: seq<string>, rest: seq<string>)
    requires key in view && view[key].value == List(list) && list != []
    requires n == (if count.Some? then count.value else 1) && (popped, rest) == PoppedItems(list, n, left)
    ensures ApplyPop(view, key, count, left)
            == Say(WithValue(view, key, List(rest)),
                   if count.Some? then Bulks(popped) else if popped != [] then Bulk(popped[0]) else Nil)
    ensures popped == [] ==> WithValue(view, key, List(rest)) == view
  {
    if popped == [] {
      assert rest == list;
    }
  }

  lemma {:induction false} PushMeant(view: Keys, key: string, onto: seq<string>, items: seq<string>, left: bool, onlyExisting: bool)
    requires !NotList(view, key) && onto == ItemsOf(view, key) && (onlyExisting ==> key in view)
    ensures var list := Pushed(onto, items, left);
            ApplyPush(view, key, items, left, onlyExisting) == Say(WithValue(view, key, List(list)), Int(|list|))
    ensures PushNeeds(view, key, items, onlyExisting) == Needs(Some(|onto| + |items|), {key}, 0)
  {}

  lemma {:induction false} AddMeant(view: Keys, key: string, members: set<string>, elements: seq<string>)
    requires !NotSet(view, key) && members == MembersOf(view, key)
    ensures ApplySAdd(view, key, elements)
            == Say(WithValue(view, key, Set(members + All(elements))), Int(|All(elements) - members|))
    ensures SAddNeeds(view, key, elements) == Needs(Some(|members| + |All(elements) - members|), {key}, 0)
    ensures |members + All(elements)| == |members| + |All(elements) - members|
  {
    AddedSize(members, All(elements));
  }

  lemma {:induction false} AddedSize(members: set<string>, more: set<string>)
    ensures |members + more| == |members| + |more - members|
  {
    assert members + more == members + (more - members);
  }

  lemma {:induction false} RemovedSize(members: set<string>, less: set<string>)
    ensures |members - less| == |members| - |members * less|
    ensures |members * less| == 0 ==> members - less == members
  {
    assert members == (members - less) + members * less;
  }

  lemma {:induction false} NothingAdded(view: Keys, key: string, members: set<string>, elements: seq<string>)
    requires !NotSet(view, key) && members == MembersOf(view, key) && elements != []
    requires |All(elements) - members| == 0
    ensures WithValue(view, key, Set(members + All(elements))) == view
  {
    assert elements[0] in All(elements);
    forall e | e in All(elements)
      ensures e in members
    {
      assert e in All(elements) - members || e in members;
    }
    assert members + All(elements) == members;
  }

  /** Some of the live keys are deleted, `removed` in number. */
  ghost predicate Dropped(before: Keys, after: Keys, names: seq<string>, removed: nat)
  {
    (after, removed) == DropAll(before, names)
  }

  lemma {:induction false} DroppedOn(before: Keys, between: Keys, names: seq<string>, i: nat, removed: nat)
    requires i < |names| && Dropped(before, between, names[..i], removed)
    ensures Dropped(before, between - {names[i]}, names[..i + 1], if names[i] in between then removed + 1 else removed)
  {
    assert names[..i + 1][..i] == names[..i];
  }

  lemma {:induction false} NothingDropped(view: Keys, names: seq<string>)
    ensures DropAll(view, names).1 == 0 ==> DropAll(view, names).0 == view
  {
    if names != [] {
      NothingDropped(view, names[..|names| - 1]);
    }
  }

  /** Going through a list: `kept` is what was looked at and stays, and `todo` is still to be looked at. */
  ghost predicate GoneOn(items: seq<string>, max: nat, value: string, list: seq<string>, kept: seq<string>, todo: seq<string>, removed: nat)
  {
    && removed <= max && removed + |list| == |items| && list == kept + todo
    && RemovedFirst(items, value, max) == kept + RemovedFirst(todo, value, max - removed)
    && (removed == 0 ==> list == items)
  }

  lemma {:induction false} FrontOn(items: seq<string>, max: nat, value: string, list: seq<string>, kept: seq<string>, todo: seq<string>, removed: nat)
    requires GoneOn(items, max, value, list, kept, todo, removed) && todo != [] && removed < max
    ensures var i := |kept|;
            && i < |list| && list[i] == todo[0]
            && if list[i] == value then GoneOn(items, max, value, list[..i] + list[i + 1..], kept, todo[1..], removed + 1)
               else GoneOn(items, max, value, list, kept + [todo[0]], todo[1..], removed)
  {
    var i := |kept|;
    assert list[..i] == kept && list[i + 1..] == todo[1..];
    assert (kept + [todo[0]]) + todo[1..] == list;
    var later := RemovedFirst(todo[1..], value, max - removed);
    assert kept + ([todo[0]] + later) == (kept + [todo[0]]) + later;
  }

  lemma {:induction false} FrontDone(items: seq<string>, max: nat, value: string, list: seq<string>, kept: seq<string>, todo: seq<string>, removed: nat)
    requires GoneOn(items, max, value, list, kept, todo, removed) && (todo == [] || removed == max)
    ensures list == RemovedFirst(items, value, max) && (|list| == |items| ==> list == items)
  {
    RemovedNone(todo, value);
  }

  method RemoveFront(items: seq<string>, max: nat, value: string) returns (list: seq<string>, removed: nat)
    ensures list == RemovedFirst(items, value, max) && removed == |items| - |list|
    ensures |list| <= |items| && (|list| == |items| ==> list == items)
  {
    list, removed := items, 0;
    var i := 0;
    ghost var kept, todo := [], items;
    while i < |list| && removed < max
      invariant |kept| == i && GoneOn(items, max, value, list, kept, todo, removed)
      decreases |todo|
    {
      FrontOn(items, max, value, list, kept, todo, removed);
      if list[i] == value {
        list := list[..i] + list[i + 1..];
        removed := removed + 1;
      } else {
        kept := kept + [todo[0]];
        i := i + 1;
      }
      todo := todo[1..];
    }
    FrontDone(items, max, value, list, kept, todo, removed);
  }

  /** Going back through a list: `todo` is still to be looked at, and `kept` is what was and stays. */
  ghost predicate GoneBack(items: seq<string>, max: nat, value: string, list: seq<string>, todo: seq<string>, kept: seq<string>, removed: nat)
  {
    && removed <= max && removed + |list| == |items| && list == todo + kept
    && RemovedLast(items, value, max) == RemovedLast(todo, value, max - removed) + kept
    && (removed == 0 ==> list == items)
  }

  lemma {:induction false} BackOn(items: seq<string>, max: nat, value: string, list: seq<string>, todo: seq<string>, kept: seq<string>, removed: nat)
    requires GoneBack(items, max, value, list, todo, kept, removed) && todo != [] && removed < max
    ensures var i := |todo| - 1;
            && i < |list| && list[i] == todo[i]
            && if list[i] == value then GoneBack(items, max, value, list[..i] + list[i + 1..], todo[..i], kept, removed + 1)
               else GoneBack(items, max, value, list, todo[..i], [todo[i]] + kept, removed)
  {
    LastOff(list, todo, kept, value, max - removed);
  }

  lemma {:induction false} BackDone(items: seq<string>, max: nat, value: string, list: seq<string>, todo: seq<string>, kept: seq<string>, removed: nat)
    requires GoneBack(items, max, value, list, todo, kept, removed) && (todo == [] || removed == max)
    ensures list == RemovedLast(items, value, max) && (|list| == |items| ==> list == items)
  {
    RemovedNone(todo, value);
  }

  method RemoveBack(items: seq<string>, max: nat, value: string) returns (list: seq<string>, removed: nat)
    ensures list == RemovedLast(items, value, max) && removed == |items| - |list|
    ensures |list| <= |items| && (|list| == |items| ==> list == items)
  {
    list, removed := items, 0;
    var i := |list|;
    ghost var kept, todo := [], items;
    while i > 0 && removed < max
      invariant |todo| == i && GoneBack(items, max, value, list, todo, kept, removed)
      decreases i
    {
      i := i - 1;
      BackOn(items, max, value, list, todo, kept, removed);
      if list[i] == value {
        list := list[..i] + list[i + 1..];
        removed := removed + 1;
      } else {
        kept := [todo[i]] + kept;
      }
      todo := todo[..i];
    }
    BackDone(items, max, value, list, todo, kept, removed);
  }

  /** Looking at the last item of what is still to be looked at. */
  lemma {:induction false} LastOff(list: seq<string>, todo: seq<string>, kept: seq<string>, value: string, max: nat)
    requires todo != [] && list == todo + kept && max > 0
    ensures var i := |todo| - 1;
            && list[i] == todo[i]
            && list[..i] + list[i + 1..] == todo[..i] + kept && list == todo[..i] + ([todo[i]] + kept)
            && RemovedLast(todo, value, max) + kept ==
               if todo[i] == value then RemovedLast(todo[..i], value, max - 1) + kept
               else RemovedLast(todo[..i], value, max) + ([todo[i]] + kept)
  {
    var i := |todo| - 1;
    assert list[..i] == todo[..i] && list[i + 1..] == kept;
    assert RemovedLast(todo[..i], value, max) + [todo[i]] + kept == RemovedLast(todo[..i], value, max) + ([todo[i]] + kept);
  }

  /** A list without the items equal to `value` that a limit allows to be removed, and how many
      were: from the front, or from the back when the limit is negative. */
  method RemoveItems(items: seq<string>, limit: int, value: string) returns (list: seq<string>, removed: nat)
    ensures list == Removed(items, limit, value) && removed == |items| - |list|
    ensures |list| <= |items| && (|list| == |items| ==> list == items)
  {
    if limit >= 0 {
      list, removed := RemoveFront(items, if limit == 0 then |items| else limit, value);
    } else {
      list, removed := RemoveBack(items, -limit, value);
    }
  }

  lemma {:induction false} PushedMore(list: seq<string>, items: seq<string>, item: string, left: bool)
    ensures Pushed(list, items + [item], left)
            == if left then [item] + Pushed(list, items, left) else Pushed(list, items, left) + [item]
  {
    if left {
      ReversedMore(items, item);
    }
  }

  lemma {:induction false} ReversedMore<T>(s: seq<T>, x: T)
    ensures Reversed(s + [x]) == [x] + Reversed(s)
  {
    if s != [] {
      assert (s + [x])[1..] == s[1..] + [x];
      ReversedMore(s[1..], x);
    }
  }

  lemma {:induction false} PoppedMore(items: seq<string>, i: nat, left: bool)
    requires i < |items|
    ensures var (popped, rest) := PoppedItems(items, i, left);
            |rest| == |items| - i && PoppedItems(items, i + 1, left)
            == if left then (popped + [rest[0]], rest[1..]) else (popped + [rest[|rest| - 1]], rest[..|rest| - 1])
  {
    var n := |items|;
    if left {
      assert items[..i + 1] == items[..i] + [items[i]];
      assert items[i..][1..] == items[i + 1..];
    } else {
      var tail := items[n - i - 1..];
      assert tail[1..] == items[n - i..] && tail[0] == items[n - i - 1];
      assert items[..n - i][..n - i - 1] == items[..n - i - 1];
    }
  }

  // ---- serving and replaying --------------------------------------------------------------

  /** What happens to a keyspace: a command at some time, or a batch of the expire cycle. */
  datatype Event = Call(now: nat, c: Command) | ExpireCycle(now: nat)

  /** A journaled command with the time it ran at. */
  datatype Line = Line(now: nat, c: Command)

  /** The keys once a journal is replayed onto those of a snapshot. */
  ghost function Replayed(base: Keys, journal: seq<Line>): Keys
  {
    if journal == [] then base
    else
      var line := journal[|journal| - 1];
      Apply(Live(Replayed(base, journal[..|journal| - 1]), line.now), line.c, line.now).view
  }

  /** The clock never goes back, and commands are as their arity demands. */
  ghost predicate EventsOk(events: seq<Event>)
  {
    && (forall i :: 0 <= i < |events| ==> events[i].now <= I64_MAX && (events[i].Call? ==> WellFormed(events[i].c)))
    && (forall i, j :: 0 <= i < j < |events| ==> events[i].now <= events[j].now)
  }

  /** A journal whose clock never goes back nor past `last`, of commands that mean one thing only. */
  ghost predicate JournalOk(journal: seq<Line>, last: nat)
  {
    && (forall i :: 0 <= i < |journal| ==> journal[i].now <= last <= I64_MAX && WellFormed(journal[i].c) && !journal[i].c.CSPop?)
    && (forall i, j :: 0 <= i < j < |journal| ==> journal[i].now <= journal[j].now)
  }

  /** A keyspace ready to run commands. */
  ghost predicate Runs(db: Db<string, Value>)
    reads db
  {
    db.Valid() && (forall v :: db.emptyCollection(v) <==> IsEmptyCollection(v)) && Full(db.keys)
  }

  /** No more keys, and no larger collections, than so many. */
  ghost predicate Limited(keys: Keys, mostKeys: nat, mostElements: nat)
  {
    |keys| <= mostKeys && forall k :: k in keys ==> Elements(keys[k].value) <= mostElements
  }

  /** Limits, with as many keys and elements as there may be: the limits, or what there was already. */
  datatype Limits = Limits(keys: nat, elements: nat, mostKeys: nat, mostElements: nat)
  {
    ghost predicate Kept(held: Keys)
    {
      keys <= mostKeys && elements <= mostElements && Limited(held, mostKeys, mostElements)
    }

    /** What commands are held to, at whatever time. */
    function Rules(): Ctx
    {
      Ctx(0, false, keys, elements)
    }
  }

  /** A replay is held to no limits. */
  const REPLAYING := Ctx(0, true, 0, 0)

  lemma {:induction false} WithinLimited(before: Keys, after: Keys, ctx: Ctx, limits: Limits)
    requires !ctx.replay && ctx.maxKeys == limits.keys && ctx.maxElements == limits.elements
    requires limits.Kept(before) && Within(before, after, ctx)
    ensures limits.Kept(after)
  {}

  lemma {:induction false} MovedLimited(before: Keys, after: Keys, from: string, limits: Limits)
    requires limits.Kept(before) && |after| <= |before| && MovedWithin(before, after, from)
    ensures limits.Kept(after)
  {}

  /** A batch of the expire cycle removes nothing a client sees. */
  lemma {:induction false} ExpiredUnseen(before: Keys, after: Keys, expired: seq<string>, now: nat)
    requires WentDue(before, after, expired, now)
    ensures Live(after, now) == Live(before, now)
    ensures |after| <= |before| && (Full(before) ==> Full(after))
    ensures forall k :: k in after ==> k in before && after[k] == before[k]
  {
    Smaller(after.Keys, before.Keys);
  }

  // ---- deadlines over a run ----------------------------------------------------------------

  /** A keyspace at one time, with its deadlines. */
  datatype Moment = Moment(keys: Keys, deadlines: multiset<Deadline<string>>)

  /** Every key that expires is among the deadlines. */
  ghost predicate Timely(m: Moment)
  {
    Indexed(m.keys, m.deadlines, None)
  }

  ghost predicate DropsOne(m: Moment, event: Event)
  {
    event.Call? && Drops(m.keys, m.deadlines, event.c, event.now)
  }

  /** Only a RENAME that drops a deadline leaves a key without one. */
  ghost predicate WatchedOver(before: Moment, event: Event, after: Moment)
  {
    Timely(before) ==> (Timely(after) <==> !DropsOne(before, event))
  }

  /** What came of an event: of a command, its reply and what it had journaled; of a batch of the expire cycle, the
      keys it removed. */
  datatype Outcome = Ran(dirty: bool, propagate: Option<seq<Command>>, reply: R) | Swept(expired: seq<string>)

  /** A command did what it means, under the limits of `rules`. A batch removed keys that were due, and stopped only
      when it was full, had looked at many, or nothing more was due. */
  ghost predicate Happened(before: Moment, event: Event, outcome: Outcome, after: Moment, rules: Ctx)
  {
    match event
    case Call(now, c) =>
      outcome.Ran? && Fits(before.keys, after.keys, c, rules.(now := now), outcome.dirty, outcome.propagate, outcome.reply)
    case ExpireCycle(now) =>
      && outcome.Swept? && WentDue(before.keys, after.keys, outcome.expired, now)
      && (|| |outcome.expired| == EXPIRE_BATCH
          || |after.deadlines| + 4 * EXPIRE_BATCH == |before.deadlines|
          || !exists d :: d in after.deadlines && d.at <= now)
  }

  /** The lines an event adds to the journal. */
  function LinesOf(event: Event, outcome: Outcome): seq<Line>
  {
    if event.Call? && outcome.Ran? then
      var journal := Journal(event.c, outcome.dirty, outcome.propagate, outcome.reply);
      seq(|journal|, i requires 0 <= i < |journal| => Line(event.now, journal[i]))
    else []
  }

  /** A run: how it began, and each event with what came of it and what it led to. */
  datatype Story = Opening(now: Moment) | Later(before: Story, event: Event, outcome: Outcome, now: Moment)
  {
    function Events(): seq<Event>
    {
      if Opening? then [] else before.Events() + [event]
    }

    function Start(): Moment
    {
      if Opening? then now else before.Start()
    }

    /** Every event of the run happened as it should. */
    ghost predicate AllHappened(rules: Ctx)
    {
      Later? ==> before.AllHappened(rules) && Happened(before.now, event, outcome, now, rules)
    }

    /** All that was journaled. */
    function Lines(): seq<Line>
    {
      if Opening? then [] else before.Lines() + LinesOf(event, outcome)
    }

    /** The replies to the commands. */
    function Replies(): seq<R>
    {
      if Opening? then [] else before.Replies() + if outcome.Ran? then [outcome.reply] else []
    }

    ghost predicate Watched()
    {
      Later? ==> before.Watched() && WatchedOver(before.now, event, now)
    }

    /** No RENAME of the run drops a deadline. */
    ghost predicate NoneDropped()
    {
      Later? ==> before.NoneDropped() && !DropsOne(before.now, event)
    }

    /** At every moment of the run every key that expires is among the deadlines. */
    ghost predicate AlwaysTimely()
    {
      Timely(now) && (Later? ==> before.AlwaysTimely())
    }
  }

  /** Through a run every key that expires is among the deadlines all along, exactly if it was to begin with and no
      RENAME drops a deadline. */
  lemma {:induction false} TimelyThroughout(story: Story)
    requires story.Watched()
    ensures story.AlwaysTimely() <==> Timely(story.Start()) && story.NoneDropped()
  {
    if story.Later? {
      TimelyThroughout(story.before);
      StillTimely(story.before);
    }
  }

  lemma {:induction false} StillTimely(story: Story)
    requires story.Watched()
    ensures Timely(story.Start()) && story.NoneDropped() ==> Timely(story.now)
  {
    if story.Later? {
      StillTimely(story.before);
    }
  }

  ghost function MomentOf(db: Db<string, Value>): Moment
    reads db
  {
    Moment(db.keys, db.deadlines)
  }

  // ---- one event ---------------------------------------------------------------------------

  method RunExpire(db: Db<string, Value>, now: nat, ghost limits: Limits) returns (outcome: Outcome)
    requires Runs(db) && limits.Kept(db.keys)
    modifies db
    ensures Runs(db) && limits.Kept(db.keys)
    ensures Happened(old(MomentOf(db)), ExpireCycle(now), outcome, MomentOf(db), limits.Rules())
    ensures Live(db.keys, now) == Live(old(db.keys), now)
    ensures old(db.DeadlinesHold()) ==> db.DeadlinesHold()
  {
    ghost var before := db.keys;
    var expired := db.ExpireKeys(now);
    ExpiredUnseen(before, db.keys, expired, now);
    outcome := Swept(expired);
  }

  /** Runs one command for a client, and says what is journaled for it. */
  method RunCommand(db: Db<string, Value>, c: Command, now: nat, limits: Limits) returns (journal: seq<Command>, outcome: Outcome)
    requires Runs(db) && limits.Kept(db.keys) && WellFormed(c) && now <= I64_MAX
    modifies db
    ensures Runs(db) && limits.Kept(db.keys)
    ensures Happened(old(MomentOf(db)), Call(now, c), outcome, MomentOf(db), limits.Rules())
    ensures outcome.Ran? && journal == Journal(c, outcome.dirty, outcome.propagate, outcome.reply)
    ensures |journal| <= 1 && forall j :: j in journal ==> WellFormed(j) && !j.CSPop?
    ensures Live(db.keys, now) == ApplyAll(Live(old(db.keys), now), journal, now)
    ensures old(db.DeadlinesHold()) ==> (db.DeadlinesHold() <==> !old(Drops(db.keys, db.deadlines, c, now)))
  {
    ghost var before := db.keys;
    var ctx := Ctx(now, false, limits.keys, limits.elements);
    var exec := new Exec(db, ctx);
    var r := exec.Run(c);
    journal, outcome := Journal(c, exec.dirty, exec.propagate, r), Ran(exec.dirty, exec.propagate, r);
    if c.CRename? {
      MovedLimited(before, db.keys, c.from, limits);
    } else {
      WithinLimited(before, db.keys, ctx, limits);
    }
  }

  /** Runs one command of a journal. */
  method ReplayCommand(db: Db<string, Value>, c: Command, now: nat) returns (outcome: Outcome)
    requires Runs(db) && WellFormed(c) && !c.CSPop? && now <= I64_MAX
    modifies db
    ensures Runs(db)
    ensures Happened(old(MomentOf(db)), Call(now, c), outcome, MomentOf(db), REPLAYING)
    ensures Live(db.keys, now) == Apply(Live(old(db.keys), now), c, now).view
    ensures old(db.DeadlinesHold()) ==> (db.DeadlinesHold() <==> !old(Drops(db.keys, db.deadlines, c, now)))
  {
    var exec := new Exec(db, REPLAYING.(now := now));
    var r := exec.Run(c);
    outcome := Ran(exec.dirty, exec.propagate, r);
  }

  /** One more journaled command, replayed. */
  lemma {:induction false} ReplayedMore(base: Keys, journal: seq<Line>, line: Line)
    ensures Replayed(base, journal + [line]) == Apply(Live(Replayed(base, journal), line.now), line.c, line.now).view
  {
    assert (journal + [line])[..|journal|] == journal;
  }

  /** What a client sees is what a replay of the journal shows. */
  ghost predicate Mirrors(keys: Keys, base: Keys, journal: seq<Line>, clock: nat)
  {
    Live(keys, clock) == Live(Replayed(base, journal), clock)
  }

  lemma {:induction false} MirrorsLater(keys: Keys, base: Keys, journal: seq<Line>, sooner: nat, later: nat)
    requires sooner <= later && Mirrors(keys, base, journal, sooner)
    ensures Mirrors(keys, base, journal, later)
  {
    LiveLater(keys, sooner, later);
    LiveLater(Replayed(base, journal), sooner, later);
  }

  lemma {:induction false} MirrorsOn(before: Keys, after: Keys, base: Keys, journal: seq<Line>, line: Line)
    requires Mirrors(before, base, journal, line.now)
    requires Live(after, line.now) == Apply(Live(before, line.now), line.c, line.now).view
    ensures Mirrors(after, base, journal + [line], line.now)
  {
    ReplayedMore(base, journal, line);
    LiveLater(after, line.now, line.now);
  }

  lemma {:induction false} JournalMore(journal: seq<Line>, clock: nat, line: Line)
    requires JournalOk(journal, clock) && clock <= line.now <= I64_MAX && WellFormed(line.c) && !line.c.CSPop?
    ensures JournalOk(journal + [line], line.now)
  {}

  /** One event, and the journal with the line it adds, if any. */
  method ServeOne(db: Db<string, Value>, event: Event, ghost base: Keys, journal: seq<Line>, limits: Limits)
    returns (longer: seq<Line>, outcome: Outcome)
    requires Runs(db) && limits.Kept(db.keys) && event.now <= I64_MAX && (event.Call? ==> WellFormed(event.c))
    requires JournalOk(journal, event.now) && Mirrors(db.keys, base, journal, event.now)
    modifies db
    ensures Runs(db) && limits.Kept(db.keys) && WatchedOver(old(MomentOf(db)), event, MomentOf(db))
    ensures Happened(old(MomentOf(db)), event, outcome, MomentOf(db), limits.Rules()) && longer == journal + LinesOf(event, outcome)
    ensures JournalOk(longer, event.now) && Mirrors(db.keys, base, longer, event.now)
  {
    longer := journal;
    if event.ExpireCycle? {
      outcome := RunExpire(db, event.now, limits);
      return;
    }
    ghost var before := db.keys;
    var lines;
    lines, outcome := RunCommand(db, event.c, event.now, limits);
    if lines != [] {
      assert lines == [lines[0]];
      ApplyOne(Live(before, event.now), lines[0], event.now);
      MirrorsOn(before, db.keys, base, journal, Line(event.now, lines[0]));
      JournalMore(journal, event.now, Line(event.now, lines[0]));
      longer := journal + [Line(event.now, lines[0])];
    }
  }

  // ---- whole runs --------------------------------------------------------------------------

  /** A run that came to `clock`: what was journaled, onto the keys it began with, mirrors the live keys, and every key
      that expires is among the deadlines unless a RENAME dropped one. */
  ghost predicate Serving(db: Db<string, Value>, start: Moment, events: seq<Event>, journal: seq<Line>, replies: seq<R>, clock: nat, story: Story, limits: Limits)
    reads db
  {
    && Runs(db) && limits.Kept(db.keys) && clock <= I64_MAX
    && JournalOk(journal, clock) && Mirrors(db.keys, start.keys, journal, clock)
    && story.now == MomentOf(db) && Tells(story, start, events, journal, replies, limits.Rules())
  }

  /** A story of these events, in which each happened as it should, with all that was journaled and replied. */
  ghost predicate Tells(story: Story, start: Moment, events: seq<Event>, journal: seq<Line>, replies: seq<R>, rules: Ctx)
  {
    && story.Watched() && story.AllHappened(rules) && story.Start() == start
    && story.Events() == events && story.Lines() == journal && story.Replies() == replies
  }

  lemma {:induction false} TellsOn(story: Story, start: Moment, events: seq<Event>, i: nat, journal: seq<Line>, replies: seq<R>, rules: Ctx,
                                   outcome: Outcome, after: Moment)
    requires i < |events| && Tells(story, start, events[..i], journal, replies, rules)
    requires Happened(story.now, events[i], outcome, after, rules) && WatchedOver(story.now, events[i], after)
    ensures Tells(Later(story, events[i], outcome, after), start, events[..i + 1], journal + LinesOf(events[i], outcome),
                  replies + if outcome.Ran? then [outcome.reply] else [], rules)
  {
    assert events[..i + 1] == events[..i] + [events[i]];
  }

  lemma {:induction false} JournalLater(journal: seq<Line>, clock: nat, later: nat)
    requires JournalOk(journal, clock) && clock <= later <= I64_MAX
    ensures JournalOk(journal, later)
  {}

  lemma {:induction false} EventsAt(events: seq<Event>, i: nat)
    requires EventsOk(events) && i < |events|
    ensures events[i].now <= I64_MAX && (events[i].Call? ==> WellFormed(events[i].c)) && (i > 0 ==> events[i - 1].now <= events[i].now)
  {}

  /** Serves any events, from any keyspace. */
  method Serve(db: Db<string, Value>, events: seq<Event>, limits: Limits)
    returns (journal: seq<Line>, replies: seq<R>, clock: nat, ghost story: Story)
    requires Runs(db) && limits.Kept(db.keys) && EventsOk(events)
    modifies db
    ensures Serving(db, old(MomentOf(db)), events, journal, replies, clock, story, limits)
    ensures clock == if events == [] then 0 else events[|events| - 1].now
  {
    journal, replies, clock, story := [], [], 0, Opening(MomentOf(db));
    ghost var start := MomentOf(db);
    for i := 0 to |events|
      invariant Serving(db, start, events[..i], journal, replies, clock, story, limits)
      invariant clock == if i == 0 then 0 else events[i - 1].now
    {
      EventsAt(events, i);
      journal, replies, story := ServeNext(db, start, events, i, journal, replies, clock, story, limits);
      clock := events[i].now;
    }
    assert events[..|events|] == events;
  }

  /** One event more. */
  method ServeNext(db: Db<string, Value>, ghost start: Moment, events: seq<Event>, i: nat, journal: seq<Line>, replies: seq<R>, clock: nat,
                   ghost story: Story, limits: Limits)
    returns (longer: seq<Line>, given: seq<R>, ghost more: Story)
    requires i < |events| && Serving(db, start, events[..i], journal, replies, clock, story, limits)
    requires clock <= events[i].now <= I64_MAX && (events[i].Call? ==> WellFormed(events[i].c))
    modifies db
    ensures Serving(db, start, events[..i + 1], longer, given, events[i].now, more, limits)
  {
    var event := events[i];
    MirrorsLater(db.keys, start.keys, journal, clock, event.now);
    JournalLater(journal, clock, event.now);
    var outcome;
    longer, outcome := ServeOne(db, event, start.keys, journal, limits);
    given := replies + if outcome.Ran? then [outcome.reply] else [];
    more := Later(story, event, outcome, MomentOf(db));
    TellsOn(story, start, events, i, journal, replies, limits.Rules(), outcome, MomentOf(db));
  }

  /** Serves any events, and then lets the expire cycle run until nothing is due: what is left are exactly the keys
      not due by then, unless a RENAME dropped a deadline. */
  method ServeThenSweep(db: Db<string, Value>, events: seq<Event>, limits: Limits, now: nat)
    returns (journal: seq<Line>, replies: seq<R>, clock: nat, ghost story: Story)
    requires Runs(db) && limits.Kept(db.keys) && EventsOk(events) && db.DeadlinesHold()
    modifies db
    ensures Tells(story, old(MomentOf(db)), events, journal, replies, limits.Rules())
    ensures OnlyDueGone(story.now.keys, db.keys, now) && !db.ExpiryDue(now)
    ensures story.NoneDropped() ==> db.DeadlinesHold() && db.keys == Live(story.now.keys, now)
  {
    journal, replies, clock, story := Serve(db, events, limits);
    StillTimely(story);
    db.Sweep(now);
  }

  /** A journaled line, run again. */
  function CallsOf(journal: seq<Line>): seq<Event>
  {
    seq(|journal|, i requires 0 <= i < |journal| => Call(journal[i].now, journal[i].c))
  }

  /** A replay that came to `last`. */
  ghost predicate Replaying(db: Db<string, Value>, start: Moment, journal: seq<Line>, last: nat, story: Story)
    reads db
  {
    && Runs(db) && Mirrors(db.keys, start.keys, journal, last) && story.AllHappened(REPLAYING)
    && story.Watched() && story.Events() == CallsOf(journal) && story.Start() == start && story.now == MomentOf(db)
  }

  lemma {:induction false} LinesAt(journal: seq<Line>, clock: nat, i: nat)
    requires JournalOk(journal, clock) && i < |journal|
    ensures journal[i].now <= clock <= I64_MAX && WellFormed(journal[i].c) && !journal[i].c.CSPop?
    ensures i > 0 ==> journal[i - 1].now <= journal[i].now
  {}

  /** One line more. */
  method ReplayNext(db: Db<string, Value>, ghost start: Moment, ghost journal: seq<Line>, ghost last: nat, line: Line, ghost story: Story)
    returns (ghost more: Story)
    requires Replaying(db, start, journal, last, story)
    requires last <= line.now <= I64_MAX && WellFormed(line.c) && !line.c.CSPop?
    modifies db
    ensures Replaying(db, start, journal + [line], line.now, more)
  {
    ghost var before := db.keys;
    MirrorsLater(before, start.keys, journal, last, line.now);
    var outcome := ReplayCommand(db, line.c, line.now);
    MirrorsOn(before, db.keys, start.keys, journal, line);
    more := Later(story, Call(line.now, line.c), outcome, MomentOf(db));
    assert CallsOf(journal + [line]) == CallsOf(journal) + [Call(line.now, line.c)];
  }

  /** Replays a journal onto what there is. */
  method Replay(db: Db<string, Value>, journal: seq<Line>, clock: nat) returns (ghost story: Story)
    requires Runs(db) && JournalOk(journal, clock)
    modifies db
    ensures Runs(db) && Mirrors(db.keys, old(db.keys), journal, clock) && story.AllHappened(REPLAYING)
    ensures story.Watched() && story.Events() == CallsOf(journal) && story.Start() == old(MomentOf(db)) && story.now == MomentOf(db)
  {
    ghost var start := MomentOf(db);
    ghost var last: nat := 0;
    story := Opening(start);
    for i := 0 to |journal|
      invariant Replaying(db, start, journal[..i], last, story) && last <= clock
      invariant last == if i == 0 then 0 else journal[i - 1].now
    {
      LinesAt(journal, clock, i);
      story := ReplayNext(db, start, journal[..i], last, journal[i], story);
      assert journal[..i + 1] == journal[..i] + [journal[i]];
      last := journal[i].now;
    }
    assert journal[..|journal|] == journal;
    MirrorsLater(db.keys, start.keys, journal, last, clock);
  }

  /** Whatever commands ran, and wherever the expire cycle came in between: replaying what was journaled onto a copy of
      what there was shows the same keys, then and at any later time. */
  method ServeThenReplay(db: Db<string, Value>, copy: Db<string, Value>, events: seq<Event>, limits: Limits)
    returns (journal: seq<Line>, replies: seq<R>, clock: nat, ghost story: Story, ghost again: Story)
    requires db != copy && Runs(db) && Runs(copy) && copy.keys == db.keys && limits.Kept(db.keys) && EventsOk(events)
    modifies db, copy
    ensures Runs(db) && Runs(copy) && limits.Kept(db.keys)
    ensures Tells(story, old(MomentOf(db)), events, journal, replies, limits.Rules()) && story.now == MomentOf(db)
    ensures again.AllHappened(REPLAYING) && again.Events() == CallsOf(journal)
    ensures again.Start() == old(MomentOf(copy)) && again.now == MomentOf(copy)
    ensures clock == if events == [] then 0 else events[|events| - 1].now
    ensures forall later: nat {:trigger Live(db.keys, later)} :: clock <= later ==> Live(copy.keys, later) == Live(db.keys, later)
  {
    ghost var base := db.keys;
    journal, replies, clock, story := Serve(db, events, limits);
    again := Replay(copy, journal, clock);
    forall later: nat {:trigger Live(db.keys, later)} | clock <= later
      ensures Live(copy.keys, later) == Live(db.keys, later)
    {
      MirrorsLater(copy.keys, base, journal, clock, later);
      MirrorsLater(db.keys, base, journal, clock, later);
    }
  }
}
