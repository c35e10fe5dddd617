/**
 What SET, GETEX and EXPIRE do to a key and when it expires, said in amounts, units and the clock, and
 which items LTRIM keeps.
 */
module ExpiryLaws {
  import opened Common
  import opened Database
  import opened Commands
  import opened Laws

  /** A number that 64 bits hold, signed. */
  predicate In64(n: int)
  {
    -0x8000_0000_0000_0000 <= n < 0x8000_0000_0000_0000
  }

  /** The time that an amount of units comes to, from the epoch or from the clock. */
  function TimeOf(amount: int, unit: int, absolute: bool, now: nat): int
  {
    if absolute then amount * unit else now + amount * unit
  }

  /** It can be reckoned in 64 bits. */
  predicate Reckoned(amount: int, unit: int, absolute: bool, now: nat)
  {
    In64(amount * unit) && (!absolute ==> In64(now + amount * unit))
  }

  /** What is found under `key` afterwards: the value with its expiry, unless that is not to come. */
  ghost predicate Holding(after: Keys, key: string, value: Value, expires: Option<nat>, now: nat)
  {
    if expires.Some? && expires.value <= now then key !in after
    else key in after && after[key].value == value && after[key].expires == expires
  }

  /** A client sees what is held and has no expiry or one still to come. */
  lemma {:induction false} LiveExactly(keys: Keys, key: string, now: nat)
    ensures var live := key in keys && (keys[key].expires.Some? ==> now < keys[key].expires.value);
            (key in Live(keys, now) <==> live) && (live ==> Live(keys, now)[key] == keys[key])
  {}

  // ---- EXPIRE -----------------------------------------------------------------------------

  /** Flags that rule each other out. */
  predicate Clash(flags: Flags)
  {
    || (flags.nx && (flags.xx || flags.gt || flags.lt))
    || (flags.gt && flags.lt)
  }

  /** The new time may take the place of the old: NX asks for none, XX for one, GT for a later time, LT for a sooner
      one, where no expiry is later than any. A time past 64 bits counts as the last one in them. */
  predicate LetsIn(flags: Flags, was: Option<nat>, at: int)
  {
    && (flags.nx ==> was.None?)
    && (flags.xx ==> was.Some?)
    && (flags.gt ==> was.Some? && at > was.value)
    && (flags.lt ==> was.None? || (at < was.value && (was.value < 0x8000_0000_0000_0000 || at < 0x7FFF_FFFF_FFFF_FFFF)))
  }

  /** EXPIRE of any kind, when its flags allow and its time can be reckoned: a live key whose flags let it in gets exactly
      that time, or is gone when it is not to come; nothing else changes. */
  lemma {:induction false} ExpireSets(view: Keys, key: string, amount: int, unit: int, absolute: bool, flags: Flags, now: nat)
    requires Reckoned(amount, unit, absolute, now) && !Clash(flags)
    ensures var at := TimeOf(amount, unit, absolute, now);
            var applied := Apply(view, CExpire(key, amount, unit, absolute, flags), now);
            if key in view && LetsIn(flags, view[key].expires, at) then
              && applied.reply == Ok(Int(1)) && Elsewhere(view, applied.view, key, key)
              && (if at <= now then key !in applied.view
                  else key in applied.view && applied.view[key].value == view[key].value && applied.view[key].expires == Some(at))
            else applied == Applied(view, Ok(Int(0)))
  {}

  /** It is refused for a time that cannot be reckoned, and then for flags that rule each other out. */
  lemma {:induction false} ExpireRefused(view: Keys, key: string, amount: int, unit: int, absolute: bool, flags: Flags, now: nat)
    ensures var applied := Apply(view, CExpire(key, amount, unit, absolute, flags), now);
            && (applied.reply.Err? <==> !Reckoned(amount, unit, absolute, now) || Clash(flags))
            && (applied.reply.Err? ==>
                  applied == Applied(view, Err(if !Reckoned(amount, unit, absolute, now) then BadExpiry else Incompatible)))
  {}

  // ---- SET and GETEX -------------------------------------------------------------------------

  /** The expiry is one to refuse. */
  predicate Bad(expiry: Expiry, now: nat)
  {
    expiry.At? && (expiry.amount <= 0 || !Reckoned(expiry.amount, expiry.unit, expiry.absolute, now))
  }

  /** When a key given this expiry expires, if it did at `was`. */
  function Expires(expiry: Expiry, was: Option<nat>, now: nat): (r: Option<nat>)
    requires !Bad(expiry, now) && (expiry.At? ==> expiry.unit > 0)
  {
    match expiry
    case Forever => None
    case Keep => was
    case At(amount, unit, absolute) => Some(TimeOf(amount, unit, absolute, now))
  }

  /** SET's condition holds. */
  predicate SetHolds(view: Keys, key: string, when: When)
  {
    match when
    case Always => true
    case Nx => key !in view
    case Xx => key in view
    case IfEq(current) => key in view && view[key].value == Str(current)
  }

  /** A SET that is not refused stores the string with its expiry if its condition holds, and replies what it found
      or whether it stored. */
  lemma {:induction false} SetStores(view: Keys, key: string, value: string, when: When, get: bool, expiry: Expiry, now: nat)
    requires now < 0x8000_0000_0000_0000 && (expiry.At? ==> expiry.unit > 0)
    requires !Bad(expiry, now) && (key in view && (get || when.IfEq?) ==> view[key].value.Str?)
    requires |value| <= 16 * 1024 * 1024
    ensures var applied := Apply(view, CSet(key, value, when, get, expiry), now);
            var expires := Expires(expiry, if key in view then view[key].expires else None, now);
            && Elsewhere(view, applied.view, key, key)
            && (if SetHolds(view, key, when) then Holding(applied.view, key, Str(value), expires, now) else applied.view == view)
            && applied.reply == Ok(if get then (if key in view then Bulk(view[key].value.s) else Nil)
                                   else if SetHolds(view, key, when) then Okay else Nil)
  {}

  /** It is refused, in this order, for its expiry, for what the key holds, and for a string that is too long. */
  lemma {:induction false} SetRefused(view: Keys, key: string, value: string, when: When, get: bool, expiry: Expiry, now: nat)
    requires now < 0x8000_0000_0000_0000 && (expiry.At? ==> expiry.unit > 0)
    ensures var applied := Apply(view, CSet(key, value, when, get, expiry), now);
            var wrong := key in view && !view[key].value.Str? && (get || when.IfEq?);
            && (applied.reply.Err? <==> Bad(expiry, now) || wrong || (SetHolds(view, key, when) && |value| > 16 * 1024 * 1024))
            && (applied.reply.Err? ==>
                  applied == Applied(view, Err(if Bad(expiry, now) then BadExpiry else if wrong then WrongType else TooLong)))
  {}

  /** GETEX replies the string it finds, and gives it the expiry asked for, if one is. */
  lemma {:induction false} GetExSets(view: Keys, key: string, change: Option<Expiry>, now: nat)
    requires now < 0x8000_0000_0000_0000 && (change.Some? ==> !change.value.Keep? && (change.value.At? ==> change.value.unit > 0))
    requires key in view ==> view[key].value.Str?
    ensures var applied := Apply(view, CGetEx(key, change), now);
            if change.Some? && Bad(change.value, now) then applied == Applied(view, Err(BadExpiry))
            else
              && applied.reply == Ok(if key in view then Bulk(view[key].value.s) else Nil)
              && Elsewhere(view, applied.view, key, key)
              && (if key in view && change.Some? then
                    Holding(applied.view, key, view[key].value, Expires(change.value, None, now), now)
                  else applied.view == view)
  {}

  // ---- LTRIM -------------------------------------------------------------------------------

  /** Where an index points, counted from the back when it is below zero. */
  function Pointed(index: int, length: nat): int
  {
    if index < 0 then length + index else index
  }

  predicate Asked(start: int, stop: int, length: nat, i: nat)
  {
    Pointed(start, length) <= i <= Pointed(stop, length)
  }

  /** LTRIM keeps exactly the items from one index to another, in order, and nothing else changes. */
  lemma {:induction false} TrimKeeps(view: Keys, key: string, start: int, stop: int) returns (from: nat, to: nat)
    requires !NotList(view, key)
    ensures var applied, list := Apply(view, CTrim(key, start, stop), 0), ItemsOf(view, key);
            && applied.reply == Ok(Okay) && Elsewhere(view, applied.view, key, key)
            && from <= to <= |list| && ItemsOf(applied.view, key) == list[from..to]
            && forall i :: 0 <= i < |list| ==> (Asked(start, stop, |list|, i) <==> from <= i < to)
  {
    var list := ItemsOf(view, key);
    var bounds := RangeBounds(start, stop, |list|);
    if bounds.Some? {
      from, to := bounds.value.0, bounds.value.1 + 1;
    } else {
      from, to := 0, 0;
      assert list[0..0] == [];
    }
  }
}
