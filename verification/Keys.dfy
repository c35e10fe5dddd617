/**
 Keys in their order, and the runs of keys that start alike.
 */
module Keys {
  import opened Common
  import Sorting

  /** Lexicographic order. */
  predicate Below(a: string, b: string)
  {
    b != [] && (a == [] || a[0] < b[0] || (a[0] == b[0] && Below(a[1..], b[1..])))
  }

  /** One key is below another when it is its beginning, or has the smaller character where they first differ. */
  lemma {:induction false} BelowExactly(a: string, b: string)
    ensures Below(a, b) <==> a < b || exists i :: 0 <= i < |a| && i < |b| && a[..i] == b[..i] && a[i] < b[i]
  {
    if a != [] && b != [] && a[0] == b[0] {
      BelowExactly(a[1..], b[1..]);
      if a[1..] < b[1..] {
        assert a == [a[0]] + a[1..] && b == [b[0]] + b[1..];
      }
      if a < b {
        assert a[1..] < b[1..];
      }
      if i :| 0 <= i < |a[1..]| && i < |b[1..]| && a[1..][..i] == b[1..][..i] && a[1..][i] < b[1..][i] {
        assert a[..i + 1] == [a[0]] + a[1..][..i] && b[..i + 1] == [b[0]] + b[1..][..i];
        assert a[i + 1] < b[i + 1];
      }
      if i :| 0 <= i < |a| && i < |b| && a[..i] == b[..i] && a[i] < b[i] {
        assert i > 0 && a[1..][..i - 1] == a[..i][1..] && b[1..][..i - 1] == b[..i][1..];
        assert a[1..][i - 1] < b[1..][i - 1];
      }
    } else if a != [] && b != [] {
      assert a[..0] == b[..0];
      forall i | 0 < i < |a| && i < |b| ensures a[..i] != b[..i] {
        assert a[..i][0] != b[..i][0];
      }
    }
  }

  lemma {:induction false} BelowItself(a: string)
    ensures !Below(a, a)
  {
    if a != [] {
      BelowItself(a[1..]);
    }
  }

  lemma {:induction false} BelowTotal(a: string, b: string)
    ensures Below(a, b) || Below(b, a) || a == b
  {
    if a != [] && b != [] && a[0] == b[0] {
      BelowTotal(a[1..], b[1..]);
      assert a == [a[0]] + a[1..] && b == [b[0]] + b[1..];
    }
  }

  lemma {:induction false} BelowOn(a: string, b: string, c: string)
    requires Below(a, b) && Below(b, c)
    ensures Below(a, c)
  {
    if a != [] && a[0] == b[0] && b[0] == c[0] {
      BelowOn(a[1..], b[1..], c[1..]);
    }
  }

  lemma {:induction false} BelowOneWay(a: string, b: string)
    requires Below(a, b)
    ensures !Below(b, a) && a != b
  {
    BelowItself(a);
    if Below(b, a) {
      BelowOn(a, b, a);
    }
  }

  /** A key starts no earlier than its own beginning. */
  lemma {:induction false} PrefixFirst(prefix: string, key: string)
    requires prefix <= key
    ensures !Below(key, prefix)
  {
    if prefix != [] {
      PrefixFirst(prefix[1..], key[1..]);
    }
  }

  /** What lies between a prefix and a key that starts with it starts with it too. */
  lemma {:induction false} PrefixBetween(prefix: string, between: string, key: string)
    requires prefix <= key && !Below(between, prefix) && !Below(key, between)
    ensures prefix <= between
  {
    if prefix != [] {
      assert between != [] && between[0] == key[0] == prefix[0];
      PrefixBetween(prefix[1..], between[1..], key[1..]);
      assert prefix == [prefix[0]] + prefix[1..] && between == [between[0]] + between[1..];
    }
  }

  /** Keys that start apart are in the order of how they start. */
  lemma {:induction false} PrefixesApart(p: string, q: string, a: string, b: string)
    requires Below(p, q) && !(p <= q) && p <= a && q <= b
    ensures Below(a, b)
  {
    if p != [] && p[0] == q[0] {
      assert p[1..] <= q[1..] ==> p <= q;
      PrefixesApart(p[1..], q[1..], a[1..], b[1..]);
    }
  }

  // ---- keys in order ------------------------------------------------------------------------

  ghost predicate Rising(keys: seq<string>)
  {
    Sorting.Rising(keys, Below)
  }

  lemma {:induction false} BelowOrders()
    ensures Sorting.TotalOrder(Below)
  {
    forall a ensures !Below(a, a) {
      BelowItself(a);
    }
    forall a, b ensures a == b || Below(a, b) || Below(b, a) {
      BelowTotal(a, b);
    }
    forall a, b, c | Below(a, b) && Below(b, c) ensures Below(a, c) {
      BelowOn(a, b, c);
    }
  }

  /** The keys of a set in order. */
  function Ascending(keys: set<string>): (r: seq<string>)
    ensures Rising(r) && |r| == |keys| && forall key :: key in r <==> key in keys
  {
    BelowOrders();
    Sorting.Ascending(keys, Below)
  }

  lemma {:induction false} TailWithout(keys: seq<string>)
    requires Rising(keys) && keys != []
    ensures forall key :: key in keys[1..] <==> key in keys && key != keys[0]
  {
    BelowItself(keys[0]);
    assert keys == [keys[0]] + keys[1..];
    forall key | key in keys[1..] ensures key != keys[0] {
      var i :| 0 <= i < |keys[1..]| && keys[1..][i] == key;
      assert Below(keys[0], keys[i + 1]);
    }
  }

  /** Keys have only one order. */
  lemma {:induction false} RisingSame(a: seq<string>, b: seq<string>)
    requires Rising(a) && Rising(b) && forall key :: key in a <==> key in b
    ensures a == b
  {
    assert (a == [] || a[0] in a) && (b == [] || b[0] in b);
    if a != [] {
      FirstLeast(a, b[0]);
      FirstLeast(b, a[0]);
      BelowTotal(a[0], b[0]);
      TailWithout(a);
      TailWithout(b);
      RisingSame(a[1..], b[1..]);
    }
  }

  lemma {:induction false} FirstLeast(keys: seq<string>, key: string)
    requires Rising(keys) && key in keys
    ensures !Below(key, keys[0])
  {
    var i :| 0 <= i < |keys| && keys[i] == key;
    BelowItself(key);
    if i > 0 {
      BelowOneWay(keys[0], keys[i]);
    }
  }
}
