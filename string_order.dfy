/**
 * The order in which redb iterates a table keyed by `&str`: lexicographic on
 * the UTF-8 bytes, which is lexicographic on code points. A table scan visits
 * its keys as `SortedKeys` lists them.
 */
module StringOrder {
  import opened Wrappers
  import opened Numeric

  predicate Lt(a: string, b: string)
  {
    if a == [] then b != []
    else if b == [] then false
    else a[0] < b[0] || (a[0] == b[0] && Lt(a[1..], b[1..]))
  }

  lemma {:induction false} LtIrreflexive(a: string)
    ensures !Lt(a, a)
  {
    if a != [] {
      LtIrreflexive(a[1..]);
    }
  }

  lemma {:induction false} LtTransitive(a: string, b: string, c: string)
    requires Lt(a, b) && Lt(b, c)
    ensures Lt(a, c)
  {
    if a != [] && a[0] == b[0] && b[0] == c[0] {
      LtTransitive(a[1..], b[1..], c[1..]);
    }
  }

  lemma {:induction false} LtTotal(a: string, b: string)
    ensures a == b || Lt(a, b) || Lt(b, a)
  {
    if a != [] && b != [] && a[0] == b[0] {
      LtTotal(a[1..], b[1..]);
      if a[1..] == b[1..] {
        assert a == [a[0]] + a[1..] && b == [b[0]] + b[1..];
      }
    }
  }

  lemma LtAsymmetric(a: string, b: string)
    requires Lt(a, b)
    ensures !Lt(b, a)
  {
    if Lt(b, a) {
      LtTransitive(a, b, a);
      LtIrreflexive(a);
    }
  }

  /** A shared prefix does not decide the order. */
  lemma {:induction false} LtCommonPrefix(p: string, a: string, b: string)
    ensures Lt(p + a, p + b) <==> Lt(a, b)
  {
    if p != [] {
      assert (p + a)[1..] == p[1..] + a && (p + b)[1..] == p[1..] + b;
      LtCommonPrefix(p[1..], a, b);
    } else {
      assert p + a == a && p + b == b;
    }
  }

  /** Two concatenations whose first parts have the same length compare on the first parts, then on the rest. */
  lemma {:induction false} LtConcat(a: string, b: string, c: string, d: string)
    requires |a| == |c|
    ensures Lt(a + b, c + d) <==> Lt(a, c) || (a == c && Lt(b, d))
  {
    if a == [] {
      assert a + b == b && c + d == d;
    } else {
      assert (a + b)[1..] == a[1..] + b && (c + d)[1..] == c[1..] + d;
      LtConcat(a[1..], b, c[1..], d);
      if a[0] == c[0] && a[1..] == c[1..] {
        assert a == c;
      }
      if a == c {
        assert a[1..] == c[1..];
      }
    }
  }

  /** Zero-padded decimals of one width sort as the numbers they write. */
  lemma {:induction false} ZeroPaddedOrder(x: nat, y: nat, w: nat)
    requires x < Pow10(w) && y < Pow10(w)
    ensures Lt(ZeroPadded(x, w), ZeroPadded(y, w)) <==> x < y
    ensures ZeroPadded(x, w) == ZeroPadded(y, w) <==> x == y
  {
    if w == 0 {
      assert x == 0 && y == 0;
    } else {
      ZeroPaddedOrder(x / 10, y / 10, w - 1);
      var hx, hy := ZeroPadded(x / 10, w - 1), ZeroPadded(y / 10, w - 1);
      var cx, cy := DigitChar(x % 10), DigitChar(y % 10);
      LtConcat(hx, [cx], hy, [cy]);
      assert Lt([cx], [cy]) <==> x % 10 < y % 10 by {
        assert [cx][1..] == [] && [cy][1..] == [];
      }
      if ZeroPadded(x, w) == ZeroPadded(y, w) {
        assert hx + [cx] == hy + [cy];
        assert hx == (hx + [cx])[..w - 1] && hy == (hy + [cy])[..w - 1];
        assert cx == (hx + [cx])[w - 1];
      }
    }
  }

  predicate StrictlySorted(s: seq<string>)
  {
    forall i, j :: 0 <= i < j < |s| ==> Lt(s[i], s[j])
  }

  /** The least key of a non-empty set. */
  ghost function Least(s: set<string>): (m: string)
    requires s != {}
    ensures m in s && forall k :: k in s && k != m ==> Lt(m, k)
  {
    var x :| x in s;
    if s == {x} then x
    else
      var m := Least(s - {x});
      LtTotal(x, m);
      if Lt(x, m) then
        assert forall k :: k in s && k != x ==> Lt(x, k) by {
          forall k | k in s && k != x && k != m ensures Lt(x, k) {
            LtTransitive(x, m, k);
          }
        }
        x
      else
        m
  }

  /** The keys of a table in the order a scan visits them. */
  ghost function SortedKeys(s: set<string>): (r: seq<string>)
    ensures StrictlySorted(r)
    ensures forall k :: k in r <==> k in s
    ensures |r| == |s|
    decreases s
  {
    if s == {} then []
    else
      var m := Least(s);
      var rest := SortedKeys(s - {m});
      assert forall j :: 0 <= j < |rest| ==> Lt(m, rest[j]);
      [m] + rest
  }

  lemma {:induction false} SortedUnique(a: seq<string>, b: seq<string>)
    requires StrictlySorted(a) && StrictlySorted(b)
    requires forall k :: k in a <==> k in b
    requires |a| == |b|
    ensures a == b
  {
    if a != [] {
      assert a[0] in a;
      assert b != [];
      assert b[0] in b;
      if a[0] != b[0] {
        var i :| 0 <= i < |a| && a[i] == b[0];
        var j :| 0 <= j < |b| && b[j] == a[0];
        assert Lt(a[0], b[0]) && Lt(b[0], a[0]);
        LtAsymmetric(a[0], b[0]);
      }
      forall k ensures k in a[1..] <==> k in b[1..] {
        if k in a[1..] {
          var i :| 1 <= i < |a| && a[i] == k;
          assert Lt(a[0], k);
          LtIrreflexive(k);
          assert k in b;
        }
        if k in b[1..] {
          var i :| 1 <= i < |b| && b[i] == k;
          assert Lt(b[0], k);
          LtIrreflexive(k);
          assert k in a;
        }
      }
      SortedUnique(a[1..], b[1..]);
      assert a == [a[0]] + a[1..] && b == [b[0]] + b[1..];
    }
  }

  /** Lists a key set in scan order, one least remaining key at a time. */
  method SortKeys(s: set<string>) returns (r: seq<string>)
    ensures r == SortedKeys(s)
  {
    r := [];
    var rest := s;
    while rest != {}
      invariant StrictlySorted(r)
      invariant forall k :: k in s <==> k in r || k in rest
      invariant forall k :: k in r ==> k !in rest
      invariant |r| + |rest| == |s|
      invariant forall i, k :: 0 <= i < |r| && k in rest ==> Lt(r[i], k)
      decreases rest
    {
      var m := Least(rest);
      var m' :| m' in rest && forall k :: k in rest && k != m' ==> Lt(m', k);
      r := r + [m'];
      rest := rest - {m'};
    }
    SortedUnique(r, SortedKeys(s));
  }

  /** Key-value pairs of `m` in the order of `ks`. */
  function Zip<V>(ks: seq<string>, m: map<string, V>): (es: seq<(string, V)>)
    requires forall k :: k in ks ==> k in m
    ensures |es| == |ks|
    ensures forall i :: 0 <= i < |ks| ==> es[i] == (ks[i], m[ks[i]])
  {
    if ks == [] then [] else [(ks[0], m[ks[0]])] + Zip(ks[1..], m)
  }

  /** A table's entries as a full scan yields them. */
  ghost function Ordered<V>(m: map<string, V>): seq<(string, V)>
  {
    Zip(SortedKeys(m.Keys), m)
  }

  /** Lists a table's entries in scan order. */
  method OrderedEntries<V>(m: map<string, V>) returns (es: seq<(string, V)>)
    ensures es == Ordered(m)
  {
    var ks := SortKeys(m.Keys);
    es := Zip(ks, m);
  }

  predicate KeysSorted<V>(es: seq<(string, V)>)
  {
    forall i, j :: 0 <= i < j < |es| ==> Lt(es[i].0, es[j].0)
  }

  /** Entries listing exactly the rows of `m`. */
  ghost predicate Lists<V>(es: seq<(string, V)>, m: map<string, V>)
  {
    && (forall i :: 0 <= i < |es| ==> es[i].0 in m && es[i].1 == m[es[i].0])
    && (forall k :: k in m ==> exists i :: 0 <= i < |es| && es[i].0 == k)
  }

  lemma ZipFacts<V>(ks: seq<string>, m: map<string, V>)
    requires StrictlySorted(ks)
    requires forall k :: k in ks <==> k in m
    ensures KeysSorted(Zip(ks, m))
    ensures Lists(Zip(ks, m), m)
  {
    var es := Zip(ks, m);
    forall i, j | 0 <= i < j < |es| ensures Lt(es[i].0, es[j].0) {
      assert es[i].0 == ks[i] && es[j].0 == ks[j];
    }
    forall k | k in m ensures exists i :: 0 <= i < |es| && es[i].0 == k {
      var i :| 0 <= i < |ks| && ks[i] == k;
      assert es[i].0 == k;
    }
  }

  /** A full scan visits every row of the table once, in strictly ascending key order. */
  lemma OrderedFacts<V>(m: map<string, V>)
    ensures KeysSorted(Ordered(m))
    ensures Lists(Ordered(m), m)
    ensures |Ordered(m)| == |m|
  {
    ZipFacts(SortedKeys(m.Keys), m);
  }

  function OptionToSeq<T>(o: Option<T>): (s: seq<T>)
    ensures |s| <= 1
  {
    if o.Some? then [o.value] else []
  }

  /** What a scan loop pushing `f`'s picks collects from entries `es`, in entry order. */
  function Collect<V, T>(es: seq<(string, V)>, f: (string, V) -> Option<T>): (r: seq<T>)
    ensures |r| <= |es|
  {
    if es == [] then [] else Collect(es[..|es| - 1], f) + OptionToSeq(f(es[|es| - 1].0, es[|es| - 1].1))
  }

  lemma {:induction false} CollectMember<V, T>(es: seq<(string, V)>, f: (string, V) -> Option<T>, x: T)
    ensures x in Collect(es, f) <==> exists i :: 0 <= i < |es| && f(es[i].0, es[i].1) == Some(x)
  {
    if es != [] {
      var init := es[..|es| - 1];
      CollectMember(init, f, x);
      if x in Collect(init, f) {
        var i :| 0 <= i < |init| && f(init[i].0, init[i].1) == Some(x);
        assert es[i] == init[i];
      }
      if exists i :: 0 <= i < |es| && f(es[i].0, es[i].1) == Some(x) {
        var i :| 0 <= i < |es| && f(es[i].0, es[i].1) == Some(x);
        if i < |init| {
          assert init[i] == es[i];
        }
      }
    }
  }

  /** Collecting over two runs of entries gives the first run's picks, then the second's. */
  lemma {:induction false} CollectAppend<V, T>(a: seq<(string, V)>, b: seq<(string, V)>, f: (string, V) -> Option<T>)
    ensures Collect(a + b, f) == Collect(a, f) + Collect(b, f)
  {
    if b == [] {
      assert a + b == a;
    } else {
      var b' := b[..|b| - 1];
      assert (a + b)[..|a + b| - 1] == a + b';
      CollectAppend(a, b', f);
    }
  }

  /** What a full scan collects, in terms of the table's rows. */
  lemma CollectTable<V, T>(m: map<string, V>, f: (string, V) -> Option<T>, x: T)
    ensures x in Collect(Ordered(m), f) <==> exists k :: k in m && f(k, m[k]) == Some(x)
  {
    var es := Ordered(m);
    OrderedFacts(m);
    CollectMember(es, f, x);
    if x in Collect(es, f) {
      var i :| 0 <= i < |es| && f(es[i].0, es[i].1) == Some(x);
      assert es[i].0 in m && es[i].1 == m[es[i].0];
    }
    if exists k :: k in m && f(k, m[k]) == Some(x) {
      var k :| k in m && f(k, m[k]) == Some(x);
      var i :| 0 <= i < |es| && es[i].0 == k;
      assert es[i].1 == m[k];
    }
  }
}
