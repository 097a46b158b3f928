/** Generic sequence operations: a query set is a sequence of rows, and
    `filter`, `get`, `update` and uniqueness are stated once here. */
module Seqs {
  import opened Results

  // ---------------------------------------------------------------------
  // Row predicates built from field accessors. Naming them (instead of
  // writing a fresh lambda at every use) keeps one closure per meaning.
  // ---------------------------------------------------------------------

  /** Rows whose field `ref` equals `id`. */
  function Refs<T(!new)>(ref: T -> nat, id: nat): T -> bool {
    x => ref(x) == id
  }

  /** Rows whose field `ref` is one of `ids`. */
  function RefsAny<T(!new)>(ref: T -> nat, ids: set<nat>): T -> bool {
    x => ref(x) in ids
  }

  function Not<T(!new)>(keep: T -> bool): T -> bool {
    x => !keep(x)
  }

  function Both<T(!new)>(f: T -> bool, g: T -> bool): T -> bool {
    x => f(x) && g(x)
  }

  // ---------------------------------------------------------------------
  // Filter: the order-preserving selection of rows.
  // ---------------------------------------------------------------------

  function Filter<T(!new)>(s: seq<T>, keep: T -> bool): (r: seq<T>)
    ensures |r| <= |s|
    ensures forall x :: x in r <==> x in s && keep(x)
    decreases |s|
  {
    if |s| == 0 then []
    else if keep(s[0]) then [s[0]] + Filter(s[1..], keep)
    else Filter(s[1..], keep)
  }

  /** `r` is obtained from `s` by deleting elements: same relative order, nothing new. */
  ghost predicate IsSubseq<T(!new)>(r: seq<T>, s: seq<T>)
    decreases |s|
  {
    if |r| == 0 then true
    else if |s| == 0 then false
    else (r[0] == s[0] && IsSubseq(r[1..], s[1..])) || IsSubseq(r, s[1..])
  }

  lemma {:induction false} FilterIsSubseq<T(!new)>(s: seq<T>, keep: T -> bool)
    ensures IsSubseq(Filter(s, keep), s)
    decreases |s|
  {
    if |s| > 0 {
      FilterIsSubseq(s[1..], keep);
      var r := Filter(s, keep);
      if keep(s[0]) {
        assert r[0] == s[0] && r[1..] == Filter(s[1..], keep);
      } else {
        assert r == Filter(s[1..], keep);
      }
    }
  }

  lemma {:induction false} FilterAppend<T(!new)>(a: seq<T>, b: seq<T>, keep: T -> bool)
    ensures Filter(a + b, keep) == Filter(a, keep) + Filter(b, keep)
    decreases |a|
  {
    if |a| > 0 {
      assert (a + b)[0] == a[0] && (a + b)[1..] == a[1..] + b;
      FilterAppend(a[1..], b, keep);
    } else {
      assert a + b == b;
    }
  }

  /** Filters that agree on every element of `s` select the same rows. */
  lemma {:induction false} FilterAgree<T(!new)>(s: seq<T>, f: T -> bool, g: T -> bool)
    requires forall x :: x in s ==> f(x) == g(x)
    ensures Filter(s, f) == Filter(s, g)
    decreases |s|
  {
    if |s| > 0 {
      assert s[0] in s;
      forall x | x in s[1..] ensures f(x) == g(x) {
        assert x in s;
      }
      FilterAgree(s[1..], f, g);
    }
  }

  /** A filter that keeps every element is the identity. */
  lemma {:induction false} FilterKeepsAll<T(!new)>(s: seq<T>, keep: T -> bool)
    requires forall x :: x in s ==> keep(x)
    ensures Filter(s, keep) == s
    decreases |s|
  {
    if |s| > 0 {
      assert s[0] in s;
      forall x | x in s[1..] ensures keep(x) {
        assert x in s;
      }
      FilterKeepsAll(s[1..], keep);
      assert [s[0]] + s[1..] == s;
    }
  }

  /** A filter that rejects every element selects nothing. */
  lemma {:induction false} FilterNone<T(!new)>(s: seq<T>, keep: T -> bool)
    requires forall x :: x in s ==> !keep(x)
    ensures Filter(s, keep) == []
    decreases |s|
  {
    if |s| > 0 {
      assert s[0] in s;
      forall x | x in s[1..] ensures !keep(x) {
        assert x in s;
      }
      FilterNone(s[1..], keep);
    }
  }

  /** A filter and its negation split a sequence: their sizes add up to its length. */
  lemma {:induction false} FilterSplit<T(!new)>(s: seq<T>, keep: T -> bool)
    ensures |Filter(s, keep)| + |Filter(s, Not(keep))| == |s|
    decreases |s|
  {
    if |s| > 0 {
      FilterSplit(s[1..], keep);
    }
  }

  /** A filter selects nothing exactly when no element passes it. */
  lemma FilterEmptyIff<T(!new)>(s: seq<T>, keep: T -> bool)
    ensures |Filter(s, keep)| == 0 <==> forall x :: x in s ==> !keep(x)
  {
    if |Filter(s, keep)| > 0 {
      assert Filter(s, keep)[0] in Filter(s, keep);
    } else {
      FilterNone(s, keep);
    }
  }

  /** Applying two filters in a row is filtering by their conjunction. */
  lemma {:induction false} FilterFuse<T(!new)>(s: seq<T>, f: T -> bool, g: T -> bool)
    ensures Filter(Filter(s, f), g) == Filter(s, Both(f, g))
    decreases |s|
  {
    if |s| > 0 {
      FilterFuse(s[1..], f, g);
      if f(s[0]) {
        assert Filter(s, f) == [s[0]] + Filter(s[1..], f);
        assert Filter(s, f)[1..] == Filter(s[1..], f);
      }
    }
  }

  /** The order in which two filters are applied does not matter. */
  lemma FilterCommutes<T(!new)>(s: seq<T>, f: T -> bool, g: T -> bool)
    ensures Filter(Filter(s, f), g) == Filter(Filter(s, g), f)
  {
    FilterFuse(s, f, g);
    FilterFuse(s, g, f);
    FilterAgree(s, Both(f, g), Both(g, f));
  }

  /** Applying the same filter twice is applying it once. */
  lemma FilterIdempotent<T(!new)>(s: seq<T>, f: T -> bool)
    ensures Filter(Filter(s, f), f) == Filter(s, f)
  {
    FilterKeepsAll(Filter(s, f), f);
  }

  /** Excluding the rows whose field `ref` is `id` keeps exactly the others. */
  lemma FilterOutRefs<T(!new)>(s: seq<T>, ref: T -> nat, id: nat)
    ensures forall x :: x in Filter(s, Not(Refs(ref, id))) <==> x in s && ref(x) != id
  {
  }

  /** Excluding the rows whose field `ref` is among `ids` keeps exactly the others. */
  lemma FilterOutRefsAny<T(!new)>(s: seq<T>, ref: T -> nat, ids: set<nat>)
    ensures forall x :: x in Filter(s, Not(RefsAny(ref, ids))) <==> x in s && ref(x) !in ids
  {
  }

  // ---------------------------------------------------------------------
  // Keys, uniqueness and lookup.
  // ---------------------------------------------------------------------

  /** The values a column takes. */
  function Keys<T(==, !new), K(==)>(s: seq<T>, key: T -> K): set<K> {
    set x | x in s :: key(x)
  }

  /** A `unique=True` column (or a `unique_together` pair): no two rows share a key. */
  ghost predicate UniqueBy<T(!new), K>(s: seq<T>, key: T -> K) {
    forall i, j :: 0 <= i < j < |s| ==> key(s[i]) != key(s[j])
  }

  /** Every key lies below the next value of an auto-increment counter. */
  ghost predicate KeysBelow<T(!new)>(s: seq<T>, key: T -> nat, next: nat) {
    forall x :: x in s ==> key(x) < next
  }

  lemma UniqueByAppend<T(!new), K>(s: seq<T>, key: T -> K, x: T)
    requires UniqueBy(s, key) && key(x) !in Keys(s, key)
    ensures UniqueBy(s + [x], key)
  {
    var t := s + [x];
    forall i, j | 0 <= i < j < |t| ensures key(t[i]) != key(t[j]) {
      if j == |s| {
        assert t[i] == s[i] && s[i] in s;
      } else {
        assert t[i] == s[i] && t[j] == s[j];
      }
    }
  }

  lemma {:induction false} UniqueByFilter<T(!new), K>(s: seq<T>, key: T -> K, keep: T -> bool)
    requires UniqueBy(s, key)
    ensures UniqueBy(Filter(s, keep), key)
    decreases |s|
  {
    if |s| > 0 {
      assert UniqueBy(s[1..], key) by {
        forall i, j | 0 <= i < j < |s| - 1 ensures key(s[1..][i]) != key(s[1..][j]) {
          assert s[1..][i] == s[i + 1] && s[1..][j] == s[j + 1];
        }
      }
      UniqueByFilter(s[1..], key, keep);
      if keep(s[0]) {
        var rest := Filter(s[1..], keep);
        var r := [s[0]] + rest;
        forall i, j | 0 <= i < j < |r| ensures key(r[i]) != key(r[j]) {
          if i == 0 {
            assert r[j] == rest[j - 1] && rest[j - 1] in s[1..];
            var k :| 0 <= k < |s| - 1 && s[1..][k] == rest[j - 1];
            assert s[k + 1] == r[j];
          } else {
            assert r[i] == rest[i - 1] && r[j] == rest[j - 1];
          }
        }
      }
    }
  }

  /** Rewriting rows without touching their key keeps the set of keys. */
  lemma UpdateKeepsKeys<T(!new), K>(s: seq<T>, r: seq<T>, key: T -> K)
    requires |r| == |s| && forall i :: 0 <= i < |s| ==> key(r[i]) == key(s[i])
    ensures Keys(r, key) == Keys(s, key)
    ensures UniqueBy(s, key) ==> UniqueBy(r, key)
  {
    forall k | k in Keys(s, key) ensures k in Keys(r, key) {
      var x :| x in s && key(x) == k;
      var i :| 0 <= i < |s| && s[i] == x;
      assert r[i] in r;
    }
    forall k | k in Keys(r, key) ensures k in Keys(s, key) {
      var x :| x in r && key(x) == k;
      var i :| 0 <= i < |r| && r[i] == x;
      assert s[i] in s;
    }
  }

  /** The first row whose key is `k` (Django's `get(pk=k)`). */
  function Find<T(!new), K(==)>(s: seq<T>, key: T -> K, k: K): (r: Option<T>)
    ensures r.Some? ==> r.value in s && key(r.value) == k
    ensures r.None? <==> k !in Keys(s, key)
    decreases |s|
  {
    if |s| == 0 then None
    else if key(s[0]) == k then Some(s[0])
    else Find(s[1..], key, k)
  }

  /** Under a unique key, lookup by a row's key returns that very row. */
  lemma {:induction false} FindUnique<T(!new), K>(s: seq<T>, key: T -> K, x: T)
    requires UniqueBy(s, key) && x in s
    ensures Find(s, key, key(x)) == Some(x)
    decreases |s|
  {
    if s[0] != x {
      assert key(s[0]) != key(x) by {
        var j :| 0 <= j < |s| && s[j] == x;
        assert j != 0;
      }
      assert x in s[1..] by {
        var j :| 0 <= j < |s| && s[j] == x;
        assert s[1..][j - 1] == x;
      }
      assert UniqueBy(s[1..], key) by {
        forall i, j | 0 <= i < j < |s| - 1 ensures key(s[1..][i]) != key(s[1..][j]) {
          assert s[1..][i] == s[i + 1] && s[1..][j] == s[j + 1];
        }
      }
      FindUnique(s[1..], key, x);
    }
  }

  /** `queryset.filter(pick).update(...)`: rows satisfying `pick` are rewritten, the rest kept. */
  function Update<T(!new)>(s: seq<T>, pick: T -> bool, change: T -> T): (r: seq<T>)
    ensures |r| == |s|
    ensures forall i :: 0 <= i < |s| ==> r[i] == if pick(s[i]) then change(s[i]) else s[i]
  {
    seq(|s|, i requires 0 <= i < |s| => if pick(s[i]) then change(s[i]) else s[i])
  }
}
