/**
 Walking through the keys: what a client's scope lets it visit, and SCAN a page at a time.

 A scope says by glob patterns which keys a client may read. A walk visits only the runs of keys
 that could be among them, so many at a time, and the keyspace may change between.
 */
module Scanning {
  import opened Common
  import opened Keys
  import opened Database
  import Glob

  // ---- scopes -----------------------------------------------------------------------------

  /** The patterns of the keys a client may change, and of those it may only read. */
  datatype Scope = Scope(keys: seq<string>, read: seq<string>)
  {
    predicate AllKeys()
    {
      exists i :: 0 <= i < |keys| && keys[i] == "*"
    }

    predicate CanRead(key: string)
    {
      || AllKeys()
      || (exists i :: 0 <= i < |keys| && Glob.Means(keys[i], key))
      || (exists i :: 0 <= i < |read| && Glob.Means(read[i], key))
    }

    /** Where the keys that match each pattern start. */
    function Starts(): (r: seq<string>)
      ensures |r| == |keys| + |read|
      ensures forall i :: 0 <= i < |keys| ==> r[i] == Glob.LiteralPrefix(keys[i])
      ensures forall i :: 0 <= i < |read| ==> r[|keys| + i] == Glob.LiteralPrefix(read[i])
    {
      seq(|keys|, i requires 0 <= i < |keys| => Glob.LiteralPrefix(keys[i]))
      + seq(|read|, i requires 0 <= i < |read| => Glob.LiteralPrefix(read[i]))
    }
  }

  /** In order, and none starting with another: each names a run of keys of its own. */
  ghost predicate Apart(prefixes: seq<string>)
  {
    forall i, j :: 0 <= i < j < |prefixes| ==> Below(prefixes[i], prefixes[j]) && !(prefixes[i] <= prefixes[j])
  }

  /** Some prefix starts the key. */
  predicate StartsWithOne(prefixes: seq<string>, key: string)
  {
    exists i :: 0 <= i < |prefixes| && prefixes[i] <= key
  }

  lemma {:induction false} ApartMore(prefixes: seq<string>, more: string)
    requires Apart(prefixes)
    requires prefixes != [] ==> Below(prefixes[|prefixes| - 1], more) && !(prefixes[|prefixes| - 1] <= more)
    ensures Apart(prefixes + [more])
  {
    var after := prefixes + [more];
    forall i | 0 <= i < |prefixes| ensures Below(after[i], more) && !(after[i] <= more) {
      var last := prefixes[|prefixes| - 1];
      if i < |prefixes| - 1 {
        BelowOn(prefixes[i], last, more);
        BelowOneWay(prefixes[i], last);
        BelowOneWay(last, more);
        if prefixes[i] <= more {
          PrefixBetween(prefixes[i], last, more);
          assert false;
        }
      }
    }
  }

  /** The last of the prefixes kept is no later than what was looked at. */
  ghost predicate Reached(prefixes: seq<string>, sorted: seq<string>, k: nat)
    requires k <= |sorted|
  {
    prefixes != [] ==> k > 0 && (prefixes[|prefixes| - 1] == sorted[k - 1] || Below(prefixes[|prefixes| - 1], sorted[k - 1]))
  }

  lemma {:induction false} ReachedNext(prefixes: seq<string>, sorted: seq<string>, k: nat)
    requires Rising(sorted) && k < |sorted| && Reached(prefixes, sorted, k)
    ensures prefixes != [] ==> Below(prefixes[|prefixes| - 1], sorted[k])
  {
    if prefixes != [] {
      assert Below(sorted[k - 1], sorted[k]);
      if prefixes[|prefixes| - 1] != sorted[k - 1] {
        BelowOn(prefixes[|prefixes| - 1], sorted[k - 1], sorted[k]);
      }
    }
  }

  /** The prefixes kept of the first `k` starts, which start with one of them. */
  ghost predicate Kept(prefixes: seq<string>, sorted: seq<string>, k: nat)
    requires k <= |sorted|
  {
    && Apart(prefixes) && Reached(prefixes, sorted, k)
    && (forall p :: p in prefixes ==> p in sorted)
    && (forall i :: 0 <= i < k ==> StartsWithOne(prefixes, sorted[i]))
  }

  lemma {:induction false} KeptMore(prefixes: seq<string>, sorted: seq<string>, k: nat)
    requires Rising(sorted) && k < |sorted| && Kept(prefixes, sorted, k)
    ensures if prefixes == [] || !(prefixes[|prefixes| - 1] <= sorted[k]) then Kept(prefixes + [sorted[k]], sorted, k + 1)
            else Kept(prefixes, sorted, k + 1)
  {
    ReachedNext(prefixes, sorted, k);
    assert sorted[k] in sorted;
    if prefixes == [] || !(prefixes[|prefixes| - 1] <= sorted[k]) {
      ApartMore(prefixes, sorted[k]);
      var more := prefixes + [sorted[k]];
      assert more[|prefixes|] <= sorted[k];
      forall i | 0 <= i < k ensures StartsWithOne(more, sorted[i]) {
        StartsMore(prefixes, sorted[k], sorted[i]);
      }
    }
  }

  lemma {:induction false} KeptAll(prefixes: seq<string>, sorted: seq<string>, starts: seq<string>, key: string)
    requires Kept(prefixes, sorted, |sorted|) && (forall s :: s in starts ==> s in sorted) && StartsWithOne(starts, key)
    ensures StartsWithOne(prefixes, key)
  {
    var i :| 0 <= i < |starts| && starts[i] <= key;
    assert starts[i] in sorted;
    var k :| 0 <= k < |sorted| && sorted[k] == starts[i];
    StartsThrough(prefixes, sorted[k], key);
  }

  /** The shortest starts, in order, none starting with another: whatever starts with one of the starts
      starts with one of these. */
  method Shortest(starts: seq<string>) returns (prefixes: seq<string>)
    ensures Apart(prefixes) && forall p :: p in prefixes ==> p in starts
    ensures forall key :: StartsWithOne(starts, key) ==> StartsWithOne(prefixes, key)
  {
    var sorted := Ascending(set s | s in starts);
    prefixes := [];
    for k := 0 to |sorted|
      invariant Kept(prefixes, sorted, k)
    {
      KeptMore(prefixes, sorted, k);
      if prefixes == [] || !(prefixes[|prefixes| - 1] <= sorted[k]) {
        prefixes := prefixes + [sorted[k]];
      }
    }
    forall key | StartsWithOne(starts, key) ensures StartsWithOne(prefixes, key) {
      KeptAll(prefixes, sorted, starts, key);
    }
  }

  lemma {:induction false} StartsMore(prefixes: seq<string>, more: string, key: string)
    requires StartsWithOne(prefixes, key)
    ensures StartsWithOne(prefixes + [more], key)
  {
    var i :| 0 <= i < |prefixes| && prefixes[i] <= key;
    assert (prefixes + [more])[i] <= key;
  }

  lemma {:induction false} StartsThrough(prefixes: seq<string>, start: string, key: string)
    requires StartsWithOne(prefixes, start) && start <= key
    ensures StartsWithOne(prefixes, key)
  {
    var i :| 0 <= i < |prefixes| && prefixes[i] <= start;
    assert prefixes[i] <= key;
  }

  /** The starts of the runs a scope's keys lie in; none when they may lie anywhere. */
  method Prefixes(scope: Scope) returns (prefixes: Option<seq<string>>)
    ensures prefixes.Some? ==>
              Apart(prefixes.value) && forall key :: scope.CanRead(key) ==> StartsWithOne(prefixes.value, key)
  {
    var found := Shortest(scope.Starts());
    if scope.AllKeys() || [] in found {
      return None;
    }
    forall key | scope.CanRead(key) ensures StartsWithOne(found, key) {
      ReadableStarts(scope, key);
    }
    return Some(found);
  }

  lemma {:induction false} ReadableStarts(scope: Scope, key: string)
    requires scope.CanRead(key) && !scope.AllKeys()
    ensures StartsWithOne(scope.Starts(), key)
  {
    if i :| 0 <= i < |scope.keys| && Glob.Means(scope.keys[i], key) {
      StartLeads(scope.Starts(), i, scope.keys[i], key);
    } else {
      var i :| 0 <= i < |scope.read| && Glob.Means(scope.read[i], key);
      StartLeads(scope.Starts(), |scope.keys| + i, scope.read[i], key);
    }
  }

  lemma {:induction false} StartLeads(starts: seq<string>, i: nat, pattern: string, key: string)
    requires i < |starts| && starts[i] == Glob.LiteralPrefix(pattern) && Glob.Means(pattern, key)
    ensures StartsWithOne(starts, key)
  {
    Glob.LiteralPrefixLeads(pattern, key);
  }

  /** Stretches of the key order, apart from each other, that together hold all a scope may read under a prefix. */
  ghost predicate Runs(scope: Scope, prefix: string, runs: seq<string>)
  {
    && Apart(runs) && (forall run :: run in runs ==> prefix <= run)
    && forall key :: scope.CanRead(key) && prefix <= key ==> StartsWithOne(runs, key)
  }

  lemma {:induction false} OneRun(scope: Scope, prefix: string)
    ensures Runs(scope, prefix, [prefix])
  {
    forall key | prefix <= key ensures StartsWithOne([prefix], key) {
      assert [prefix][0] <= key;
    }
  }

  method SearchPrefixes(scope: Scope, prefix: string) returns (runs: seq<string>)
    ensures Runs(scope, prefix, runs)
  {
    var prefixes := Prefixes(scope);
    if prefixes.None? {
      OneRun(scope, prefix);
      return [prefix];
    }
    var own := prefixes.value;
    runs := [];
    for i := 0 to |own|
      invariant Picked(runs, own, i, prefix)
      invariant forall k :: 0 <= k < i ==> !(own[k] <= prefix)
    {
      if own[i] <= prefix {
        OneRun(scope, prefix);
        return [prefix];
      }
      PickedMore(runs, own, i, prefix);
      if prefix <= own[i] {
        runs := runs + [own[i]];
      }
    }
    forall key | scope.CanRead(key) && prefix <= key ensures StartsWithOne(runs, key) {
      var i :| 0 <= i < |own| && own[i] <= key;
      Glob.CommonPrefix(own[i], prefix, key);
      assert own[i] in runs;
      var k :| 0 <= k < |runs| && runs[k] == own[i];
    }
  }

  /** The runs are the first prefixes that start with `prefix`. */
  ghost predicate Picked(runs: seq<string>, own: seq<string>, i: nat, prefix: string)
    requires i <= |own|
  {
    && (Apart(own) ==> Apart(runs)) && (forall run :: run in runs ==> prefix <= run && run in own[..i])
    && (forall k :: 0 <= k < i && prefix <= own[k] ==> own[k] in runs)
  }

  lemma {:induction false} PickedMore(runs: seq<string>, own: seq<string>, i: nat, prefix: string)
    requires i < |own| && Picked(runs, own, i, prefix)
    ensures Picked(if prefix <= own[i] then runs + [own[i]] else runs, own, i + 1, prefix)
  {
    assert own[..i + 1] == own[..i] + [own[i]];
    if prefix <= own[i] && Apart(own) && runs != [] {
      var last := runs[|runs| - 1];
      assert last in runs && last in own[..i];
      var k :| 0 <= k < i && own[..i][k] == last;
      assert Below(own[k], own[i]) && !(own[k] <= own[i]);
    }
    if prefix <= own[i] && Apart(own) {
      ApartMore(runs, own[i]);
    }
  }

  // ---- runs of keys --------------------------------------------------------------------------

  /** Past a key, or anywhere. */
  predicate Later(after: Option<string>, key: string)
  {
    after.None? || Below(after.value, key)
  }

  function TakeWhile(keys: seq<string>, prefix: string): (r: seq<string>)
    ensures r <= keys
  {
    if keys == [] || !(prefix <= keys[0]) then [] else [keys[0]] + TakeWhile(keys[1..], prefix)
  }

  /** In order, the keys that start with a prefix come before all others from the prefix on. */
  lemma {:induction false} TakenAll(keys: seq<string>, prefix: string)
    requires Rising(keys) && forall key :: key in keys ==> !Below(key, prefix)
    ensures forall key :: key in TakeWhile(keys, prefix) <==> key in keys && prefix <= key
  {
    if keys != [] {
      TailWithout(keys);
      if prefix <= keys[0] {
        TakenAll(keys[1..], prefix);
        assert keys == [keys[0]] + keys[1..];
      } else {
        forall key | key in keys ensures !(prefix <= key) {
          FirstLeast(keys, key);
          assert keys[0] in keys;
          if prefix <= key {
            PrefixBetween(prefix, keys[0], key);
            assert false;
          }
        }
      }
    }
  }

  lemma {:induction false} RisingPart(keys: seq<string>, part: seq<string>)
    requires Rising(keys) && part <= keys
    ensures Rising(part)
  {
    forall i, j | 0 <= i < j < |part| ensures Below(part[i], part[j]) {
      assert part[i] == keys[i] && part[j] == keys[j];
    }
  }

  function InRun(keys: set<string>, prefix: string, after: Option<string>): set<string>
  {
    set key | key in keys && prefix <= key && Later(after, key)
  }

  /** The keys of one run past `after`: from there, or from where the run starts, as long as they start alike. */
  method OneRunOf(keys: set<string>, prefix: string, after: Option<string>) returns (run: seq<string>)
    ensures run == Ascending(InRun(keys, prefix, after))
  {
    var from: seq<string>;
    if after.Some? && !Below(after.value, prefix) {
      from := Ascending(set key | key in keys && Below(after.value, key));
      forall key | key in from ensures !Below(key, prefix) {
        if Below(key, prefix) {
          BelowOn(after.value, key, prefix);
        }
      }
    } else {
      from := Ascending(set key | key in keys && !Below(key, prefix));
    }
    run := TakeWhile(from, prefix);
    TakenAll(from, prefix);
    RisingPart(from, run);
    forall key ensures key in run <==> key in InRun(keys, prefix, after) {
      if prefix <= key {
        PrefixFirst(prefix, key);
        if after.Some? && Below(after.value, prefix) {
          BelowTotal(prefix, key);
          if prefix != key {
            BelowOn(after.value, prefix, key);
          }
        }
      }
    }
    RisingSame(run, Ascending(InRun(keys, prefix, after)));
  }

  function InRuns(keys: set<string>, runs: seq<string>, after: Option<string>): set<string>
  {
    set key | key in keys && StartsWithOne(runs, key) && Later(after, key)
  }

  /** The keys of some runs past `after`, in order. */
  method WithPrefixes(keys: set<string>, runs: seq<string>, after: Option<string>) returns (all: seq<string>)
    requires Apart(runs)
    ensures all == Ascending(InRuns(keys, runs, after))
  {
    all := [];
    for i := 0 to |runs|
      invariant Rising(all) && forall key :: key in all <==> key in InRuns(keys, runs[..i], after)
    {
      var run := OneRunOf(keys, runs[i], after);
      RunsOn(keys, runs, after, i, all, run);
      all := all + run;
    }
    assert runs[..|runs|] == runs;
    RisingSame(all, Ascending(InRuns(keys, runs, after)));
  }

  lemma {:induction false} RunsOn(keys: set<string>, runs: seq<string>, after: Option<string>, i: nat, all: seq<string>, run: seq<string>)
    requires Apart(runs) && i < |runs| && Rising(all) && forall key :: key in all <==> key in InRuns(keys, runs[..i], after)
    requires run == Ascending(InRun(keys, runs[i], after))
    ensures Rising(all + run) && forall key :: key in all + run <==> key in InRuns(keys, runs[..i + 1], after)
  {
    RunAfter(keys, runs, after, i, all, run);
    InRunsOn(keys, runs, after, i);
  }

  lemma {:induction false} InRunsOn(keys: set<string>, runs: seq<string>, after: Option<string>, i: nat)
    requires i < |runs|
    ensures InRuns(keys, runs[..i + 1], after) == InRuns(keys, runs[..i], after) + InRun(keys, runs[i], after)
  {
    assert runs[..i + 1] == runs[..i] + [runs[i]];
    forall key ensures key in InRuns(keys, runs[..i + 1], after) <==> key in InRuns(keys, runs[..i], after) || key in InRun(keys, runs[i], after) {
      StartsAppend(runs[..i], runs[i], key);
    }
  }

  lemma {:induction false} RunAfter(keys: set<string>, runs: seq<string>, after: Option<string>, i: nat, all: seq<string>, run: seq<string>)
    requires Apart(runs) && i < |runs| && Rising(all) && Rising(run)
    requires forall key :: key in all ==> key in InRuns(keys, runs[..i], after)
    requires forall key :: key in run ==> key in InRun(keys, runs[i], after)
    ensures Rising(all + run)
  {
    forall a, b | 0 <= a < |all| && 0 <= b < |run| ensures Below(all[a], run[b]) {
      assert all[a] in all && run[b] in run;
      var k :| 0 <= k < |runs[..i]| && runs[..i][k] <= all[a];
      assert Below(runs[k], runs[i]) && !(runs[k] <= runs[i]);
      PrefixesApart(runs[k], runs[i], all[a], run[b]);
    }
  }

  lemma {:induction false} StartsAppend(prefixes: seq<string>, more: string, key: string)
    ensures StartsWithOne(prefixes + [more], key) <==> StartsWithOne(prefixes, key) || more <= key
  {
    assert (prefixes + [more])[|prefixes|] == more;
    if StartsWithOne(prefixes, key) {
      StartsMore(prefixes, more, key);
    }
  }

  // ---- SCAN ------------------------------------------------------------------------------------

  /** What SCAN asks for: a pattern and a type, each if given. */
  datatype Query<!V> = Query(pattern: Option<string>, kind: Option<string>, typeOf: V -> string)
  {
    predicate Chooses(key: string, value: V)
    {
      && (pattern.None? || Glob.Means(pattern.value, key))
      && (kind.None? || typeOf(value) == kind.value)
    }

    function Prefix(): string
    {
      if pattern.None? then [] else Glob.LiteralPrefix(pattern.value)
    }
  }

  /** A live key that the scope reads. */
  predicate Readable<V>(db: map<string, Entry<V>>, scope: Scope, now: nat, key: string)
  {
    key in db && !db[key].Expired(now) && scope.CanRead(key)
  }

  predicate Wanted<V>(q: Query<V>, db: map<string, Entry<V>>, scope: Scope, now: nat, key: string)
  {
    Readable(db, scope, now, key) && q.Chooses(key, db[key].value)
  }

  /** Past one key, if any, and no further than another, if any. */
  predicate Within(lo: Option<string>, hi: Option<string>, key: string)
  {
    Later(lo, key) && (hi.None? || !Below(hi.value, key))
  }

  ghost function WantedWithin<V>(
      q: Query<V>, db: map<string, Entry<V>>, scope: Scope, now: nat, lo: Option<string>, hi: Option<string>): set<string>
  {
    set key | key in db && Wanted(q, db, scope, now, key) && Within(lo, hi, key)
  }

  /** The wanted keys of a list, in its order. */
  function Found<V>(q: Query<V>, db: map<string, Entry<V>>, scope: Scope, now: nat, keys: seq<string>): seq<string>
  {
    if keys == [] then []
    else
      var front, key := keys[..|keys| - 1], keys[|keys| - 1];
      Found(q, db, scope, now, front) + if Wanted(q, db, scope, now, key) then [key] else []
  }

  lemma {:induction false} FoundRises<V>(q: Query<V>, db: map<string, Entry<V>>, scope: Scope, now: nat, keys: seq<string>)
    requires Rising(keys)
    ensures var found := Found(q, db, scope, now, keys);
            Rising(found) && forall key :: key in found <==> key in keys && Wanted(q, db, scope, now, key)
  {
    if keys != [] {
      var front, key := keys[..|keys| - 1], keys[|keys| - 1];
      FoundRises(q, db, scope, now, front);
      assert keys == front + [key];
      forall k | k in front ensures Below(k, key) {
        var i :| 0 <= i < |front| && front[i] == k;
        assert Below(keys[i], keys[|keys| - 1]);
      }
      var before := Found(q, db, scope, now, front);
      assert forall i :: 0 <= i < |before| ==> before[i] in before;
    }
  }

  /** The first keys of the runs hold every wanted key up to the last of them; all of the runs hold every one. */
  lemma {:induction false} FoundWithin<V>(
      q: Query<V>, db: map<string, Entry<V>>, scope: Scope, now: nat, runs: seq<string>, lo: Option<string>, list: seq<string>, n: nat)
    requires Runs(scope, q.Prefix(), runs) && list == Ascending(InRuns(db.Keys, runs, lo)) && n <= |list|
    ensures n == |list| ==> Found(q, db, scope, now, list[..n]) == Ascending(WantedWithin(q, db, scope, now, lo, None))
    ensures n > 0 ==> Found(q, db, scope, now, list[..n]) == Ascending(WantedWithin(q, db, scope, now, lo, Some(list[n - 1])))
  {
    var part := list[..n];
    RisingPart(list, part);
    FoundRises(q, db, scope, now, part);
    var found := Found(q, db, scope, now, part);
    WantedInList(q, db, scope, now, runs, lo, list);
    if n == |list| {
      assert part == list;
      RisingSame(found, Ascending(WantedWithin(q, db, scope, now, lo, None)));
    }
    if n > 0 {
      UpTo(list, n);
      RisingSame(found, Ascending(WantedWithin(q, db, scope, now, lo, Some(list[n - 1]))));
    }
  }

  lemma {:induction false} WantedInList<V>(
      q: Query<V>, db: map<string, Entry<V>>, scope: Scope, now: nat, runs: seq<string>, lo: Option<string>, list: seq<string>)
    requires Runs(scope, q.Prefix(), runs) && list == Ascending(InRuns(db.Keys, runs, lo))
    ensures forall key :: key in list ==> key in db && Later(lo, key)
    ensures forall key :: key in db && Wanted(q, db, scope, now, key) && Later(lo, key) ==> key in list
  {
    forall key | key in db && Wanted(q, db, scope, now, key) && Later(lo, key) ensures key in list {
      if q.pattern.Some? {
        Glob.LiteralPrefixLeads(q.pattern.value, key);
      }
      assert q.Prefix() <= key;
      assert StartsWithOne(runs, key);
      assert key in InRuns(db.Keys, runs, lo);
    }
  }

  lemma {:induction false} UpTo(list: seq<string>, n: nat)
    requires Rising(list) && 0 < n <= |list|
    ensures forall key :: key in list[..n] <==> key in list && !Below(list[n - 1], key)
  {
    var part, hi := list[..n], list[n - 1];
    forall key | key in part ensures key in list && !Below(hi, key) {
      var i :| 0 <= i < n && list[..n][i] == key;
      assert list[i] == key;
      BelowItself(key);
      if i < n - 1 {
        BelowOneWay(list[i], hi);
      }
    }
    forall key | key in list && !Below(hi, key) ensures key in part {
      var i :| 0 <= i < |list| && list[i] == key;
      assert part[i] == key;
    }
  }

  // a SCAN under way

  /** How a run of SCAN ended: it paused having looked at as many keys as it may, its page is full, or
      it came to the end. */
  datatype Ending = Paused | Page(next: string, found: seq<string>) | Over(found: seq<string>)

  /** Where a run came to: a key, or the end. */
  function Reach(ending: Ending, after: Option<string>): Option<string>
  {
    match ending
    case Paused => after
    case Page(next, _) => Some(next)
    case Over(_) => None
  }

  /** What a page holds, or will. */
  function Total(ending: Ending, found: seq<string>): seq<string>
  {
    if ending.Paused? then found else ending.found
  }

  /** What a run of SCAN found: all the wanted keys from where it was, `lo`, to where it came. */
  ghost predicate Went<V>(
      q: Query<V>, db: map<string, Entry<V>>, scope: Scope, now: nat, lo: Option<string>, before: seq<string>,
      hi: Option<string>, total: seq<string>)
  {
    && (hi.Some? ==> hi.value in db && Later(lo, hi.value))
    && total == before + Ascending(WantedWithin(q, db, scope, now, lo, hi))
  }

  class Scan<V> {
    const q: Query<V>
    const count: nat
    var after: Option<string>
    var seen: nat
    var found: seq<string>

    constructor (q: Query<V>, count: nat, after: Option<string>)
      requires count >= 1
      ensures this.q == q && this.count == count && this.after == after && found == [] && seen == 0
    {
      this.q, this.count, this.after, seen, found := q, count, after, 0, [];
    }

    /** One run, over no more than `most` keys. What it finds are all the wanted keys from where it was to
        where it came; it only stops at a key it can name when the page is full. */
    method Run(db: map<string, Entry<V>>, scope: Scope, most: nat, now: nat) returns (ending: Ending)
      requires seen < count && most >= 1
      modifies this
      ensures Went(q, db, scope, now, old(after), old(found), Reach(ending, after), Total(ending, found))
      ensures !ending.Page? ==> seen < count
      ensures ending.Paused? ==> after.Some?
      ensures ending.Page? ==> Readable(db, scope, now, ending.next)
    {
      var runs := SearchPrefixes(scope, q.Prefix());
      var list := WithPrefixes(db.Keys, runs, after);
      var n, more;
      n, seen, more := Look(q, count, db, scope, most, now, list, seen);
      WentTo(q, db, scope, now, runs, after, found, list, n);
      found := found + more;
      if seen >= count {
        return Page(list[n - 1], found);
      }
      if n == most {
        after := Some(list[n - 1]);
        return Paused;
      }
      ending := Over(found);
    }
  }

  lemma {:induction false} WentTo<V>(
      q: Query<V>, db: map<string, Entry<V>>, scope: Scope, now: nat, runs: seq<string>, lo: Option<string>, before: seq<string>,
      list: seq<string>, n: nat)
    requires Runs(scope, q.Prefix(), runs) && list == Ascending(InRuns(db.Keys, runs, lo)) && n <= |list|
    ensures n > 0 ==> Went(q, db, scope, now, lo, before, Some(list[n - 1]), before + Found(q, db, scope, now, list[..n]))
    ensures n == |list| ==> Went(q, db, scope, now, lo, before, None, before + Found(q, db, scope, now, list[..n]))
  {
    FoundWithin(q, db, scope, now, runs, lo, list, n);
    if n > 0 {
      assert list[n - 1] in list;
    }
  }

  /** Looks at the keys of a list in turn, until the page is full or `most` have been looked at. */
  method Look<V>(q: Query<V>, count: nat, db: map<string, Entry<V>>, scope: Scope, most: nat, now: nat, list: seq<string>, was: nat)
    returns (n: nat, seen: nat, found: seq<string>)
    requires was < count && most >= 1 && forall key :: key in list ==> key in db
    ensures n <= |list| && n <= most && found == Found(q, db, scope, now, list[..n])
    ensures seen <= count && (seen == count ==> n > 0 && Readable(db, scope, now, list[n - 1]))
    ensures seen < count && n < most ==> n == |list|
  {
    n, seen, found := 0, was, [];
    while n < |list| && n < most && seen < count
      invariant n <= |list| && n <= most && found == Found(q, db, scope, now, list[..n])
      invariant seen <= count && (seen == count ==> n > 0 && Readable(db, scope, now, list[n - 1]))
      decreases |list| - n
    {
      var key := list[n];
      assert key in list;
      FoundMore(q, db, scope, now, list, n);
      if !db[key].Expired(now) && scope.CanRead(key) {
        seen := seen + 1;
        if q.Chooses(key, db[key].value) {
          found := found + [key];
        }
      }
      n := n + 1;
    }
  }

  lemma {:induction false} FoundMore<V>(q: Query<V>, db: map<string, Entry<V>>, scope: Scope, now: nat, list: seq<string>, n: nat)
    requires n < |list|
    ensures Found(q, db, scope, now, list[..n + 1]) ==
            Found(q, db, scope, now, list[..n]) + if Wanted(q, db, scope, now, list[n]) then [list[n]] else []
  {
    assert list[..n + 1][..n] == list[..n];
  }

  // ---- a whole scan ------------------------------------------------------------------------------

  /** The keyspace when a run of the scan holds the lock: other requests may change it before the next. */
  datatype Moment<V> = Moment(keys: map<string, Entry<V>>, now: nat)

  /** Every key wanted at every moment. */
  ghost predicate Lasting<V>(q: Query<V>, scope: Scope, moments: seq<Moment<V>>, key: string)
  {
    forall i :: 0 <= i < |moments| ==> Wanted(q, moments[i].keys, scope, moments[i].now, key)
  }

  /** Wanted at some moment. */
  ghost predicate Once<V>(q: Query<V>, scope: Scope, moments: seq<Moment<V>>, key: string)
  {
    exists i :: 0 <= i < |moments| && Wanted(q, moments[i].keys, scope, moments[i].now, key)
  }

  /** What a scan has found by the time it came to `at`: keys in order, each once, wanted when it came by
      them; and every key wanted all along that it has passed. */
  ghost predicate Passed<V>(q: Query<V>, scope: Scope, moments: seq<Moment<V>>, all: seq<string>, at: Option<string>)
  {
    && Rising(all)
    && (forall key :: key in all ==> Once(q, scope, moments, key) && at.Some? && !Below(at.value, key))
    && (forall key :: Lasting(q, scope, moments, key) && !Later(at, key) ==> key in all)
  }

  /** What a scan that came to its end has found. */
  ghost predicate Complete<V>(q: Query<V>, scope: Scope, moments: seq<Moment<V>>, all: seq<string>)
  {
    && Rising(all) && (forall key :: key in all ==> Once(q, scope, moments, key))
    && (forall key :: Lasting(q, scope, moments, key) ==> key in all)
  }

  /** Passing on from `lo` to `hi`, or to the end, at one moment. */
  lemma {:induction false} PassOn<V>(
      q: Query<V>, scope: Scope, moments: seq<Moment<V>>, i: nat, all: seq<string>, lo: Option<string>, hi: Option<string>)
    requires i < |moments| && Passed(q, scope, moments, all, lo) && (hi.Some? ==> Later(lo, hi.value))
    ensures var more := all + Ascending(WantedWithin(q, moments[i].keys, scope, moments[i].now, lo, hi));
      if hi.Some? then Passed(q, scope, moments, more, hi) else Complete(q, scope, moments, more)
  {
    var added := Ascending(WantedWithin(q, moments[i].keys, scope, moments[i].now, lo, hi));
    forall a, b | 0 <= a < |all| && 0 <= b < |added| ensures Below(all[a], added[b]) {
      assert all[a] in all && added[b] in added;
      BelowTotal(lo.value, all[a]);
      if all[a] != lo.value {
        BelowOn(all[a], lo.value, added[b]);
      }
    }
    forall key | key in all && hi.Some? ensures !Below(hi.value, key) {
      if Below(hi.value, key) {
        BelowOn(lo.value, hi.value, key);
      }
    }
    forall key | Lasting(q, scope, moments, key) && (hi.Some? ==> !Later(hi, key)) ensures key in all + added {
      if hi.Some? {
        BelowTotal(hi.value, key);
      }
      if Later(lo, key) {
        assert Wanted(q, moments[i].keys, scope, moments[i].now, key);
        assert key in added;
      }
    }
  }

  /** Where a scan last stopped. */
  function LastOf(cursors: seq<string>): Option<string>
  {
    if cursors == [] then None else Some(cursors[|cursors| - 1])
  }

  /** Where a scan stopped at each moment: at a key there was, and each time further on. */
  ghost predicate Onward<V>(moments: seq<Moment<V>>, cursors: seq<string>)
  {
    && |cursors| <= |moments| && Rising(cursors)
    && forall i :: 0 <= i < |cursors| ==> cursors[i] in moments[i].keys
  }

  /** SCAN from the beginning, a page at a time and in runs, each run at the next moment. A page that starts at a
      moment has the COUNT given for it. Whatever changes meanwhile, keys come in order and none twice. A scan
      that comes to its end has returned every key that was there and wanted all along until then; one that does not
      has used every moment to come further, and has returned those it passed, but for what the page under way holds. */
  method ScanThrough<V>(q: Query<V>, counts: seq<nat>, scope: Scope, moments: seq<Moment<V>>, most: nat)
    returns (all: seq<string>, over: bool, pending: seq<string>, cursors: seq<string>)
    requires |counts| == |moments| + 1 && (forall i :: 0 <= i < |counts| ==> counts[i] >= 1) && most >= 1
    ensures Rising(all) && forall key :: key in all ==> Once(q, scope, moments, key)
    ensures over ==> forall key :: Lasting(q, scope, moments, key) ==> key in all
    ensures Onward(moments, cursors) && if over then |cursors| < |moments| else |cursors| == |moments|
    ensures over ==> Complete(q, scope, moments[..|cursors| + 1], all)
    ensures !over ==> Passed(q, scope, moments, all + pending, LastOf(cursors))
  {
    all, over, cursors := [], false, [];
    var scan := new Scan(q, counts[0], None);
    var i := 0;
    while i < |moments| && !over
      invariant i <= |moments| && fresh(scan) && scan.q == q && scan.seen < scan.count
      invariant Onward(moments, cursors) && |cursors| == if over then i - 1 else i
      invariant !over ==> Passed(q, scope, moments[..i], all + scan.found, scan.after) && scan.after == LastOf(cursors)
      invariant over ==> Complete(q, scope, moments[..i], all)
    {
      PassedLonger(q, scope, moments, i, all + scan.found, scan.after);
      all, over, scan := Turn(scan, scope, moments[..i + 1], i, most, all, counts[i + 1]);
      if !over {
        OnwardMore(moments, cursors, scan.after.value);
        cursors := cursors + [scan.after.value];
      }
      i := i + 1;
    }
    pending := scan.found;
    assert moments[..|moments|] == moments;
    if over {
      CompleteLonger(q, scope, moments, i, all);
    } else {
      RisingPart(all + pending, all);
    }
  }

  /** What was found by some moment was found in the whole of the scan. */
  lemma {:induction false} CompleteLonger<V>(q: Query<V>, scope: Scope, moments: seq<Moment<V>>, i: nat, all: seq<string>)
    requires i <= |moments| && Complete(q, scope, moments[..i], all)
    ensures Complete(q, scope, moments, all)
  {
    forall key | key in all
      ensures Once(q, scope, moments, key)
    {
      var j :| 0 <= j < i && Wanted(q, moments[..i][j].keys, scope, moments[..i][j].now, key);
      assert moments[..i][j] == moments[j];
    }
    forall key | Lasting(q, scope, moments, key)
      ensures Lasting(q, scope, moments[..i], key)
    {
    }
  }

  /** What holds of some moments holds of one more. */
  lemma {:induction false} PassedLonger<V>(q: Query<V>, scope: Scope, moments: seq<Moment<V>>, i: nat, all: seq<string>, at: Option<string>)
    requires i < |moments| && Passed(q, scope, moments[..i], all, at)
    ensures Passed(q, scope, moments[..i + 1], all, at)
  {
    forall key | key in all
      ensures Once(q, scope, moments[..i + 1], key)
    {
      var j :| 0 <= j < i && Wanted(q, moments[..i][j].keys, scope, moments[..i][j].now, key);
      assert moments[..i + 1][j] == moments[..i][j];
    }
    forall key | Lasting(q, scope, moments[..i + 1], key)
      ensures Lasting(q, scope, moments[..i], key)
    {
      forall j | 0 <= j < i
        ensures Wanted(q, moments[..i][j].keys, scope, moments[..i][j].now, key)
      {
        assert moments[..i][j] == moments[..i + 1][j];
      }
    }
  }

  lemma {:induction false} OnwardMore<V>(moments: seq<Moment<V>>, cursors: seq<string>, next: string)
    requires Onward(moments, cursors) && |cursors| < |moments| && Later(LastOf(cursors), next) && next in moments[|cursors|].keys
    ensures Onward(moments, cursors + [next])
  {
    forall a | 0 <= a < |cursors| ensures Below(cursors[a], next) {
      if a < |cursors| - 1 {
        BelowOn(cursors[a], cursors[|cursors| - 1], next);
      }
    }
  }

  /** One run of a scan under way, and the next page's scan once a page is full. */
  method Turn<V>(scan: Scan<V>, scope: Scope, moments: seq<Moment<V>>, i: nat, most: nat, was: seq<string>, count: nat)
    returns (all: seq<string>, over: bool, next: Scan<V>)
    requires i < |moments| && most >= 1 && scan.seen < scan.count && count >= 1
    requires Passed(scan.q, scope, moments, was + scan.found, scan.after)
    modifies scan
    ensures next == scan || (fresh(next) && next.count == count)
    ensures next.q == scan.q && next.seen < next.count
    ensures !over ==> Passed(scan.q, scope, moments, all + next.found, next.after)
    ensures over ==> Complete(scan.q, scope, moments, all)
    ensures !over ==> next.after.Some? && next.after.value in moments[i].keys && Later(old(scan.after), next.after.value)
  {
    all, over, next := was, false, scan;
    ghost var lo, before := scan.after, scan.found;
    var ending := scan.Run(moments[i].keys, scope, most, moments[i].now);
    TurnOn(scan.q, scope, moments, i, was, lo, before, Reach(ending, scan.after), Total(ending, scan.found));
    match ending
    case Paused =>
    case Page(at, found) =>
      all := all + found;
      next := new Scan(scan.q, count, Some(at));
      assert all + next.found == all;
    case Over(found) =>
      all, over := all + found, true;
  }

  lemma {:induction false} TurnOn<V>(
      q: Query<V>, scope: Scope, moments: seq<Moment<V>>, i: nat, was: seq<string>, lo: Option<string>, before: seq<string>,
      hi: Option<string>, total: seq<string>)
    requires i < |moments| && Passed(q, scope, moments, was + before, lo)
    requires Went(q, moments[i].keys, scope, moments[i].now, lo, before, hi, total)
    ensures if hi.Some? then Passed(q, scope, moments, was + total, hi) else Complete(q, scope, moments, was + total)
  {
    var more := Ascending(WantedWithin(q, moments[i].keys, scope, moments[i].now, lo, hi));
    Regrouped(was, before, more);
    PassOn(q, scope, moments, i, was + before, lo, hi);
  }

  // ---- a keyspace that stays as it is --------------------------------------------------------------

  ghost function Ahead<V>(moment: Moment<V>, at: Option<string>): set<string>
  {
    set key | key in moment.keys && Later(at, key)
  }

  lemma {:induction false} AheadLess<V>(moment: Moment<V>, lo: Option<string>, hi: string)
    requires hi in moment.keys && Later(lo, hi)
    ensures |Ahead(moment, Some(hi))| < |Ahead(moment, lo)|
  {
    BelowItself(hi);
    forall key | key in Ahead(moment, Some(hi)) ensures key in Ahead(moment, lo) {
      if lo.Some? {
        BelowOn(lo.value, hi, key);
      }
    }
    var less, more := Ahead(moment, Some(hi)), Ahead(moment, lo);
    assert hi in more && hi !in less;
    assert more == less + (more - less);
  }

  /** On a keyspace that stays as it is, paging through to the end takes a bounded number of runs and
      returns exactly the wanted keys, in order. */
  method ScanStill<V>(q: Query<V>, count: nat, scope: Scope, moment: Moment<V>, most: nat) returns (all: seq<string>)
    requires count >= 1 && most >= 1
    ensures all == Ascending(set key | key in moment.keys && Wanted(q, moment.keys, scope, moment.now, key))
    ensures forall key :: key in all <==>
              && key in moment.keys && (moment.keys[key].expires.Some? ==> moment.now < moment.keys[key].expires.value)
              && (q.pattern.Some? ==> Glob.Means(q.pattern.value, key))
              && (q.kind.Some? ==> q.typeOf(moment.keys[key].value) == q.kind.value)
              && ("*" in scope.keys || exists pattern :: pattern in scope.keys + scope.read && Glob.Means(pattern, key))
  {
    all := [];
    var over := false;
    var scan := new Scan(q, count, None);
    while !over
      invariant fresh(scan) && scan.q == q && scan.seen < scan.count
      invariant !over ==> Passed(q, scope, [moment], all + scan.found, scan.after)
      invariant over ==> Complete(q, scope, [moment], all)
      decreases !over, |Ahead(moment, scan.after)|
    {
      ghost var lo := scan.after;
      all, over, scan := Turn(scan, scope, [moment], 0, most, all, count);
      if !over {
        AheadLess(moment, lo, scan.after.value);
      }
    }
    StillWanted(q, scope, moment, all);
    forall key { WantedExactly(q, moment.keys, scope, moment.now, key); }
  }

  /** What SCAN returns: a key that is live, matches the pattern asked for, is of the type asked for, and matches some
      pattern of the scope, where `*` to change opens all. */
  lemma {:induction false} WantedExactly<V>(q: Query<V>, db: map<string, Entry<V>>, scope: Scope, now: nat, key: string)
    ensures Wanted(q, db, scope, now, key) <==>
            && key in db && (db[key].expires.Some? ==> now < db[key].expires.value)
            && (q.pattern.Some? ==> Glob.Means(q.pattern.value, key))
            && (q.kind.Some? ==> q.typeOf(db[key].value) == q.kind.value)
            && ("*" in scope.keys || exists pattern :: pattern in scope.keys + scope.read && Glob.Means(pattern, key))
  {
    if pattern :| pattern in scope.keys + scope.read && Glob.Means(pattern, key) {
      var i :| 0 <= i < |scope.keys + scope.read| && (scope.keys + scope.read)[i] == pattern;
      assert if i < |scope.keys| then scope.keys[i] == pattern else scope.read[i - |scope.keys|] == pattern;
    }
    if scope.CanRead(key) && !scope.AllKeys() {
      if i :| 0 <= i < |scope.keys| && Glob.Means(scope.keys[i], key) {
        assert scope.keys[i] in scope.keys + scope.read;
      } else {
        var i :| 0 <= i < |scope.read| && Glob.Means(scope.read[i], key);
        assert scope.read[i] in scope.keys + scope.read;
      }
    }
  }

  lemma {:induction false} StillWanted<V>(q: Query<V>, scope: Scope, moment: Moment<V>, all: seq<string>)
    requires Complete(q, scope, [moment], all)
    ensures all == Ascending(set key | key in moment.keys && Wanted(q, moment.keys, scope, moment.now, key))
  {
    var wanted := set key | key in moment.keys && Wanted(q, moment.keys, scope, moment.now, key);
    forall key ensures key in all <==> key in wanted {
      if key in wanted {
        assert [moment][0] == moment;
        assert Lasting(q, scope, [moment], key);
      }
    }
    RisingSame(all, Ascending(wanted));
  }
}
