/** Lists, sets and insertion-ordered dictionaries as the scripts use them. */
module Collections {
  import opened Common
  import opened Text

  // ---------------------------------------------------------------------------
  // First-seen de-duplication: the `if x not in seen: out.append(x); seen.add(x)`
  // idiom, and equally the key order of a dict filled by `setdefault`.

  function Dedupe<T(==,!new)>(s: seq<T>): (r: seq<T>)
    ensures NoDuplicates(r)
    ensures forall x :: x in r <==> x in s
    ensures |r| <= |s|
  {
    if s == [] then []
    else
      var p := Dedupe(s[..|s| - 1]);
      assert s == s[..|s| - 1] + [s[|s| - 1]];
      if s[|s| - 1] in p then p else p + [s[|s| - 1]]
  }

  lemma DedupeSnoc<T(!new)>(s: seq<T>, x: T)
    ensures Dedupe(s + [x]) == if x in Dedupe(s) then Dedupe(s) else Dedupe(s) + [x]
  {
    assert (s + [x])[..|s|] == s;
  }

  /** Position of `x` in a sequence that contains it. */
  function IndexOf<T(==)>(s: seq<T>, x: T): (i: nat)
    requires x in s
    ensures i < |s| && s[i] == x
    ensures forall j :: 0 <= j < i ==> s[j] != x
  {
    if s[0] == x then 0 else 1 + IndexOf(s[1..], x)
  }

  // ---------------------------------------------------------------------------
  // Members(s, k): the positions j, ascending, at which s[j] == k.

  function Members<T(==)>(s: seq<T>, k: T): (m: seq<nat>)
    ensures forall j: int :: j in m <==> 0 <= j < |s| && s[j] == k
    ensures forall a, b :: 0 <= a < b < |m| ==> m[a] < m[b]
    ensures forall a :: 0 <= a < |m| ==> m[a] < |s|
  {
    if s == [] then []
    else
      var p := Members(s[..|s| - 1], k);
      if s[|s| - 1] == k then p + [|s| - 1] else p
  }

  lemma MembersSnoc<T>(s: seq<T>, x: T, k: T)
    ensures Members(s + [x], k) == Members(s, k) + if x == k then [|s|] else []
  {
    assert (s + [x])[..|s|] == s;
  }

  lemma MembersOfAbsent<T>(s: seq<T>, k: T)
    requires k !in s
    ensures Members(s, k) == []
  {
  }

  /** The classes of Dedupe(s) are met in order: the first member of an earlier key
      comes before the first member of a later one. */
  lemma {:induction false} FirstMembersAscending<T(!new)>(s: seq<T>, p: nat, q: nat)
    requires p < q < |Dedupe(s)|
    ensures Members(s, Dedupe(s)[p]) != [] && Members(s, Dedupe(s)[q]) != []
    ensures Members(s, Dedupe(s)[p])[0] < Members(s, Dedupe(s)[q])[0]
  {
    var t, x := s[..|s| - 1], s[|s| - 1];
    assert s == t + [x];
    DedupeSnoc(t, x);
    var d, dt := Dedupe(s), Dedupe(t);
    var kp, kq := d[p], d[q];
    if q < |dt| {
      assert kp == dt[p] && kq == dt[q];
      FirstMembersAscending(t, p, q);
      FirstMemberKept(t, x, kp);
      FirstMemberKept(t, x, kq);
    } else {
      assert kq == x && x !in t && kp == dt[p] && kp in t;
      NewKeyComesLast(t, x, kp);
    }
  }

  lemma FirstMemberKept<T>(t: seq<T>, x: T, k: T)
    requires Members(t, k) != []
    ensures Members(t + [x], k) != [] && Members(t + [x], k)[0] == Members(t, k)[0]
  {
    MembersSnoc(t, x, k);
  }

  lemma NewKeyComesLast<T>(t: seq<T>, x: T, k: T)
    requires x !in t && k in t
    ensures Members(t + [x], k) != [] && Members(t + [x], x) == [|t|]
    ensures Members(t + [x], k)[0] < |t|
  {
    MembersSnoc(t, x, k);
    MembersSnoc(t, x, x);
    MembersOfAbsent(t, x);
    var j := IndexOf(t, k);
    assert j in Members(t, k);
  }

  // ---------------------------------------------------------------------------
  // `sorted(...)` of distinct strings.

  predicate StrictlySorted(r: seq<string>) {
    forall i, j :: 0 <= i < j < |r| ==> LexLess(r[i], r[j])
  }

  lemma StrictlySortedNoDuplicates(r: seq<string>)
    requires StrictlySorted(r)
    ensures NoDuplicates(r)
  {
    forall i, j | 0 <= i < j < |r| ensures r[i] != r[j] {
      if r[i] == r[j] {
        LexLessIrreflexive(r[i]);
      }
    }
  }

  function InsertSorted(r: seq<string>, x: string): (r': seq<string>)
    requires StrictlySorted(r)
    ensures StrictlySorted(r')
    ensures forall y :: y in r' <==> y in r || y == x
  {
    if r == [] then [x]
    else if x == r[0] then r
    else if LexLess(x, r[0]) then
      assert forall j :: 0 < j < |r| ==> LexLess(x, r[j]) by {
        forall j | 0 < j < |r| ensures LexLess(x, r[j]) {
          LexLessTransitive(x, r[0], r[j]);
        }
      }
      [x] + r
    else
      LexLessTotal(x, r[0]);
      var rest := InsertSorted(r[1..], x);
      assert forall y :: y in rest ==> LexLess(r[0], y);
      [r[0]] + rest
  }

  /** `sorted(set(xs))`. */
  function SortedUnique(xs: seq<string>): (r: seq<string>)
    ensures StrictlySorted(r)
    ensures forall y :: y in r <==> y in xs
  {
    if xs == [] then []
    else
      assert xs == xs[..|xs| - 1] + [xs[|xs| - 1]];
      InsertSorted(SortedUnique(xs[..|xs| - 1]), xs[|xs| - 1])
  }

  /** `sorted(s)` for a set of strings. Python enumerates the set in an order of
      its own; each element is taken in whatever order the set yields it. */
  method SortSet(s: set<string>) returns (r: seq<string>)
    ensures StrictlySorted(r)
    ensures forall y :: y in r <==> y in s
  {
    r := [];
    var rest := s;
    while rest != {}
      invariant StrictlySorted(r)
      invariant forall y :: y in r <==> y in s && y !in rest
      invariant rest <= s
      decreases rest
    {
      var x :| x in rest;
      r := InsertSorted(r, x);
      rest := rest - {x};
    }
  }

  // ---------------------------------------------------------------------------
  // Insertion-ordered dictionaries (Python dicts whose key order is observable).

  function Keys<K, V>(d: seq<(K, V)>): (ks: seq<K>)
    ensures |ks| == |d|
    ensures forall i :: 0 <= i < |d| ==> ks[i] == d[i].0
  {
    seq(|d|, i requires 0 <= i < |d| => d[i].0)
  }

  /** `d.get(k)`. */
  function Lookup<K(==), V>(d: seq<(K, V)>, k: K): (r: Option<V>)
    ensures r.Some? <==> k in Keys(d)
    ensures r.Some? ==> (k, r.value) in d
  {
    if d == [] then None
    else if d[0].0 == k then Some(d[0].1)
    else
      assert Keys(d) == [d[0].0] + Keys(d[1..]);
      Lookup(d[1..], k)
  }

  lemma KeysCons<K, V>(e: (K, V), d: seq<(K, V)>)
    ensures Keys([e] + d) == [e.0] + Keys(d)
  {
  }

  lemma LookupCons<K, V>(e: (K, V), d: seq<(K, V)>, k: K)
    ensures Lookup([e] + d, k) == if e.0 == k then Some(e.1) else Lookup(d, k)
  {
    assert ([e] + d)[1..] == d;
  }

  /** `d[k] = v`. */
  function Put<K(==), V>(d: seq<(K, V)>, k: K, v: V): (r: seq<(K, V)>)
    ensures |r| == |d| || |r| == |d| + 1
  {
    if d == [] then [(k, v)]
    else if d[0].0 == k then [(k, v)] + d[1..]
    else [d[0]] + Put(d[1..], k, v)
  }

  /** A present key keeps its place, a new key goes to the end. */
  lemma {:induction false} PutKeys<K, V>(d: seq<(K, V)>, k: K, v: V)
    ensures Keys(Put(d, k, v)) == if k in Keys(d) then Keys(d) else Keys(d) + [k]
  {
    if d != [] {
      assert d == [d[0]] + d[1..];
      KeysCons(d[0], d[1..]);
      if d[0].0 == k {
        KeysCons((k, v), d[1..]);
      } else {
        PutKeys(d[1..], k, v);
        KeysCons(d[0], Put(d[1..], k, v));
      }
    }
  }

  /** Afterwards k maps to v and every other key to what it mapped to before. */
  lemma {:induction false} PutLookup<K, V>(d: seq<(K, V)>, k: K, v: V, k': K)
    ensures Lookup(Put(d, k, v), k') == if k' == k then Some(v) else Lookup(d, k')
  {
    if d != [] {
      assert d == [d[0]] + d[1..];
      LookupCons(d[0], d[1..], k');
      if d[0].0 == k {
        LookupCons((k, v), d[1..], k');
      } else {
        PutLookup(d[1..], k, v, k');
        LookupCons(d[0], Put(d[1..], k, v), k');
      }
    }
  }

  /** Every entry after `d[k] = v` is the new one or was there before. */
  lemma {:induction false} PutMembers<K, V>(d: seq<(K, V)>, k: K, v: V, e: (K, V))
    requires e in Put(d, k, v)
    ensures e == (k, v) || e in d
  {
    if d != [] && d[0].0 != k {
      if e != d[0] {
        assert e in Put(d[1..], k, v);
        PutMembers(d[1..], k, v, e);
      }
    }
  }
}
