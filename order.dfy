/**
 Python's ordering of `str` keys (code point by code point, a proper prefix
 first) and the ascending order `sorted(d.items())` lists a dictionary's keys
 in. Keys of a dictionary are distinct, so the values are never compared.
 */
module KeyOrder {

  /** `a < b` on Python strings: a proper prefix sorts first, and no string before itself. */
  predicate Below(a: string, b: string)
    ensures |a| < |b| && a == b[..|a|] ==> Below(a, b)
    ensures Below(a, b) ==> a != b
  {
    if |a| == 0 then |b| > 0
    else |b| > 0 && (a[0] < b[0] || (a[0] == b[0] && Below(a[1..], b[1..])))
  }

  lemma {:induction false} BelowIrreflexive(a: string)
    ensures !Below(a, a)
  {
    if |a| > 0 {
      BelowIrreflexive(a[1..]);
    }
  }

  lemma {:induction false} BelowTransitive(a: string, b: string, c: string)
    requires Below(a, b) && Below(b, c)
    ensures Below(a, c)
  {
    if |a| > 0 && a[0] == b[0] && b[0] == c[0] {
      BelowTransitive(a[1..], b[1..], c[1..]);
    }
  }

  lemma {:induction false} BelowTotal(a: string, b: string)
    requires a != b
    ensures Below(a, b) || Below(b, a)
  {
    if |a| > 0 && |b| > 0 && a[0] == b[0] {
      assert a == [a[0]] + a[1..] && b == [b[0]] + b[1..];
      BelowTotal(a[1..], b[1..]);
    }
  }

  lemma BelowAsymmetric(a: string, b: string)
    requires Below(a, b)
    ensures !Below(b, a)
  {
    if Below(b, a) {
      BelowTransitive(a, b, a);
      BelowIrreflexive(a);
    }
  }

  predicate StrictlySorted(ks: seq<string>) {
    forall i, j :: 0 <= i < j < |ks| ==> Below(ks[i], ks[j])
  }

  /** `k` comes before every other element of `s`. */
  predicate IsLeast(k: string, s: set<string>) {
    k in s && forall j :: j in s && j != k ==> Below(k, j)
  }

  lemma {:induction false} HasLeast(s: set<string>)
    requires s != {}
    ensures exists k :: IsLeast(k, s)
    decreases s
  {
    var x :| x in s;
    if s != {x} {
      HasLeast(s - {x});
      var k :| IsLeast(k, s - {x});
      if Below(x, k) {
        forall j | j in s && j != x
          ensures Below(x, j)
        {
          if j != k {
            BelowTransitive(x, k, j);
          }
        }
        assert IsLeast(x, s);
      } else {
        BelowTotal(x, k);
        assert IsLeast(k, s);
      }
    } else {
      assert IsLeast(x, s);
    }
  }

  lemma LeastUnique(a: string, b: string, s: set<string>)
    requires IsLeast(a, s) && IsLeast(b, s)
    ensures a == b
  {
    if a != b {
      BelowAsymmetric(a, b);
    }
  }

  ghost function Least(s: set<string>): (k: string)
    requires s != {}
    ensures IsLeast(k, s)
  {
    HasLeast(s);
    var k :| IsLeast(k, s); k
  }

  /** The keys of a dictionary in the order `sorted` lists them. */
  ghost function Ordered(keys: set<string>): (ks: seq<string>)
    ensures StrictlySorted(ks)
    ensures forall k :: k in ks <==> k in keys
    decreases keys
  {
    if keys == {} then []
    else
      var m := Least(keys);
      var rest := Ordered(keys - {m});
      assert forall j :: j in rest ==> Below(m, j);
      [m] + rest
  }

  /** Only one strictly ascending sequence holds exactly the given keys. */
  lemma {:induction false} OrderedUnique(keys: set<string>, ks: seq<string>)
    requires StrictlySorted(ks)
    requires forall k :: k in ks <==> k in keys
    ensures ks == Ordered(keys)
    decreases |ks|
  {
    if ks == [] {
      assert keys == {};
    } else {
      assert keys != {} by { assert ks[0] in keys; }
      var m := Least(keys);
      assert IsLeast(ks[0], keys) by {
        forall j | j in keys && j != ks[0]
          ensures Below(ks[0], j)
        {
          var i :| 0 <= i < |ks| && ks[i] == j;
        }
      }
      LeastUnique(ks[0], m, keys);
      forall k
        ensures k in ks[1..] <==> k in keys - {m}
      {
        if k in ks[1..] {
          var i :| 1 <= i < |ks| && ks[i] == k;
          if k == m {
            BelowIrreflexive(m);
          }
        }
        if k in keys - {m} {
          var i :| 0 <= i < |ks| && ks[i] == k;
        }
      }
      OrderedUnique(keys - {m}, ks[1..]);
    }
  }

  /** `sorted(keys)`: repeatedly takes the least of the keys not yet listed. */
  method SortKeys(keys: set<string>) returns (ks: seq<string>)
    ensures ks == Ordered(keys)
  {
    ks := [];
    var rest := keys;
    while rest != {}
      invariant forall k :: k in keys <==> k in ks || k in rest
      invariant StrictlySorted(ks)
      invariant forall i, r :: 0 <= i < |ks| && r in rest ==> Below(ks[i], r)
      decreases rest
    {
      HasLeast(rest);
      var m :| IsLeast(m, rest);
      ks := ks + [m];
      rest := rest - {m};
    }
    OrderedUnique(keys, ks);
  }
}
