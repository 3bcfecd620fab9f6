/** The cache key of an upstream query: `"usgs_data:"` followed by
    `json.dumps(params, sort_keys=True)`, so that it depends on the parameters
    the query sends and not on the order they were written in. */
module CacheKey {
  import opened Geo
  import opened Codec

  const KeyPrefix := "usgs_data:"

  /** Python's `<` on `str`: code-point lexicographic order. */
  predicate Below(a: string, b: string) {
    if a == [] then b != []
    else if b == [] then false
    else if a[0] == b[0] then Below(a[1..], b[1..])
    else a[0] < b[0]
  }

  lemma {:induction false} BelowIrreflexive(a: string)
    ensures !Below(a, a)
  {
    if a != [] {
      BelowIrreflexive(a[1..]);
    }
  }

  lemma {:induction false} BelowTransitive(a: string, b: string, c: string)
    requires Below(a, b) && Below(b, c)
    ensures Below(a, c)
  {
    if a != [] && b != [] && c != [] && a[0] == b[0] && b[0] == c[0] {
      BelowTransitive(a[1..], b[1..], c[1..]);
    }
  }

  lemma {:induction false} BelowTotal(a: string, b: string)
    requires a != b
    ensures Below(a, b) || Below(b, a)
  {
    if a != [] && b != [] && a[0] == b[0] {
      assert a == [a[0]] + a[1..] && b == [b[0]] + b[1..];
      BelowTotal(a[1..], b[1..]);
    }
  }

  /** Parameter names are distinct, as the keys of a dict are. */
  predicate UniqueNames(ps: Pairs) {
    forall i, j :: 0 <= i < j < |ps| ==> ps[i].0 != ps[j].0
  }

  /** Names strictly increasing. */
  predicate SortedByName(ps: Pairs) {
    forall i, j :: 0 <= i < j < |ps| ==> Below(ps[i].0, ps[j].0)
  }

  function Insert(p: (string, string), ps: Pairs): (r: Pairs)
    ensures multiset(r) == multiset(ps) + multiset{p}
  {
    if ps == [] then [p]
    else if Below(p.0, ps[0].0) then [p] + ps
    else
      assert ps == [ps[0]] + ps[1..];
      [ps[0]] + Insert(p, ps[1..])
  }

  /** `sorted(params.items())`. */
  function SortByName(ps: Pairs): (r: Pairs)
    ensures multiset(r) == multiset(ps)
  {
    if ps == [] then []
    else
      assert ps == [ps[0]] + ps[1..];
      Insert(ps[0], SortByName(ps[1..]))
  }

  lemma {:induction false} InsertSorted(p: (string, string), ps: Pairs)
    requires SortedByName(ps)
    requires forall i :: 0 <= i < |ps| ==> ps[i].0 != p.0
    ensures SortedByName(Insert(p, ps))
  {
    if ps != [] && !Below(p.0, ps[0].0) {
      BelowTotal(p.0, ps[0].0);
      InsertSorted(p, ps[1..]);
      var r := Insert(p, ps);
      forall i, j | 0 <= i < j < |r| ensures Below(r[i].0, r[j].0) {
        if i == 0 {
          var x := r[j];
          assert x in multiset(ps[1..]) + multiset{p};
          if x == p {
          } else {
            assert x in ps[1..];
            var k :| 0 <= k < |ps[1..]| && ps[1..][k] == x;
            assert ps[k + 1] == x;
          }
        }
      }
    } else if ps != [] {
      var r := Insert(p, ps);
      forall i, j | 0 <= i < j < |r| ensures Below(r[i].0, r[j].0) {
        if i == 0 && j > 1 {
          BelowTransitive(p.0, ps[0].0, ps[j - 1].0);
        }
      }
    }
  }

  lemma {:induction false} SortSorted(ps: Pairs)
    requires UniqueNames(ps)
    ensures SortedByName(SortByName(ps))
  {
    if ps != [] {
      SortSorted(ps[1..]);
      var s := SortByName(ps[1..]);
      forall i | 0 <= i < |s| ensures s[i].0 != ps[0].0 {
        assert s[i] in multiset(ps[1..]);
        var k :| 0 <= k < |ps[1..]| && ps[1..][k] == s[i];
        assert ps[k + 1] == s[i];
      }
      InsertSorted(ps[0], s);
    }
  }

  /** Two name-sorted lists with the same entries start with the same entry:
      the one with the least name. */
  lemma SortedHeads(a: Pairs, b: Pairs)
    requires SortedByName(a) && SortedByName(b) && multiset(a) == multiset(b) && a != []
    ensures b != [] && a[0] == b[0]
  {
    assert a[0] in multiset(b);
    var j :| 0 <= j < |b| && b[j] == a[0];
    assert b[0] in multiset(a);
    var i :| 0 <= i < |a| && a[i] == b[0];
    if j > 0 {
      if i == 0 {
        BelowIrreflexive(a[0].0);
      } else {
        BelowTransitive(b[0].0, b[j].0, b[0].0);
        BelowIrreflexive(b[0].0);
      }
    }
  }

  /** The entries after the first. */
  lemma TailEntries(a: Pairs)
    requires a != []
    ensures multiset(a[1..]) == multiset(a) - multiset{a[0]}
  {
    assert a == [a[0]] + a[1..];
    assert multiset(a) == multiset{a[0]} + multiset(a[1..]);
  }

  /** Two name-sorted lists with the same entries are the same list. */
  lemma {:induction false} SortedUnique(a: Pairs, b: Pairs)
    requires SortedByName(a) && SortedByName(b) && multiset(a) == multiset(b)
    ensures a == b
  {
    if a == [] {
      assert |b| == |multiset(b)| == 0;
    } else {
      SortedHeads(a, b);
      TailEntries(a);
      TailEntries(b);
      SortedUnique(a[1..], b[1..]);
      assert a == [a[0]] + a[1..] && b == [b[0]] + b[1..];
    }
  }

  /** The text `json.dumps(params, sort_keys=True)` writes. */
  function SortedJson(ps: Pairs): string {
    PairsThen(SortByName(ps), "")
  }

  /** `cache_key` in `fetch_usgs_data`. */
  function KeyOf(ps: Pairs): (k: string)
    ensures |k| > |KeyPrefix| && k[..|KeyPrefix|] == KeyPrefix
  {
    KeyPrefix + SortedJson(ps)
  }

  /** The key is fixed by which parameters are sent, not by their order. */
  lemma KeyIgnoresOrder(p: Pairs, q: Pairs)
    requires UniqueNames(p) && UniqueNames(q) && multiset(p) == multiset(q)
    ensures KeyOf(p) == KeyOf(q)
  {
    SortSorted(p);
    SortSorted(q);
    SortedUnique(SortByName(p), SortByName(q));
  }

  /** Different parameter sets never share a key: the JSON text can be read
      back to the sorted parameters. */
  lemma KeySeparatesParams(p: Pairs, q: Pairs)
    requires KeyOf(p) == KeyOf(q)
    ensures multiset(p) == multiset(q)
  {
    assert KeyOf(p)[|KeyPrefix|..] == SortedJson(p);
    assert KeyOf(q)[|KeyPrefix|..] == SortedJson(q);
    PairsRoundTrip(SortByName(p), "");
    PairsRoundTrip(SortByName(q), "");
  }
}
