/**
 * Frequency tables over strings, as both aggregators keep them: Python's
 * `collections.Counter` (`counter[k] += 1`) and C#'s
 * `Dictionary<string, int>` updated with "increment if present, else set to
 * 1". Both read a missing key as 0 and insert it at 1 on its first increment,
 * so one model serves both. Also the dictionaries of lists that collect
 * salary observations per key.
 */
module Counters {

  /** Counts per key; a missing key counts 0. */
  type Counter = map<string, nat>

  function Get(c: Counter, k: string): nat {
    if k in c then c[k] else 0
  }

  /** One increment: an existing key grows by one, a new key starts at 1. */
  function Bump(c: Counter, k: string): Counter {
    c[k := Get(c, k) + 1]
  }

  /** Counting every entry of ks, in order. */
  function CountAll(c: Counter, ks: seq<string>): Counter
    decreases |ks|
  {
    if ks == [] then c else Bump(CountAll(c, ks[..|ks| - 1]), ks[|ks| - 1])
  }

  /** The sum of all counts. */
  ghost function Total(c: Counter): nat
    decreases |c|
  {
    if c == map[] then 0 else var k :| k in c; c[k] + Total(c - {k})
  }

  predicate PositiveCounts(c: Counter) {
    forall k :: k in c ==> c[k] >= 1
  }

  /** The list stored under k, or the empty list. */
  function GetList<T>(t: map<string, seq<T>>, k: string): seq<T> {
    if k in t then t[k] else []
  }

  predicate NoEmptyLists<T>(t: map<string, seq<T>>) {
    forall k :: k in t ==> |t[k]| >= 1
  }

  /** Taking out any one key leaves the rest of the total. */
  lemma {:induction false} TotalRemove(c: Counter, k: string)
    requires k in c
    ensures Total(c) == c[k] + Total(c - {k})
    decreases |c|
  {
    var j :| j in c && Total(c) == c[j] + Total(c - {j});
    if j != k {
      var rest := c - {j} - {k};
      assert c - {k} - {j} == rest;
      assert |c - {j}| < |c|;
      TotalRemove(c - {j}, k);
      assert |c - {k}| < |c|;
      TotalRemove(c - {k}, j);
    }
  }

  /** One increment grows the total by one. */
  lemma TotalBump(c: Counter, k: string)
    ensures Total(Bump(c, k)) == Total(c) + 1
  {
    var b := Bump(c, k);
    TotalRemove(b, k);
    if k in c {
      TotalRemove(c, k);
      assert b - {k} == c - {k};
    } else {
      assert b - {k} == c;
    }
  }

  /** Counting n entries grows the total by exactly n. */
  lemma {:induction false} CountAllTotal(c: Counter, ks: seq<string>)
    ensures Total(CountAll(c, ks)) == Total(c) + |ks|
    decreases |ks|
  {
    if ks != [] {
      CountAllTotal(c, ks[..|ks| - 1]);
      TotalBump(CountAll(c, ks[..|ks| - 1]), ks[|ks| - 1]);
    }
  }

  /** Each key's count grows by its number of occurrences in ks, and a key is
      present afterwards exactly when it was before or occurs in ks. */
  lemma {:induction false} CountAllAt(c: Counter, ks: seq<string>, k: string)
    ensures Get(CountAll(c, ks), k) == Get(c, k) + multiset(ks)[k]
    ensures k in CountAll(c, ks) <==> k in c || k in ks
    decreases |ks|
  {
    if ks != [] {
      var init := ks[..|ks| - 1];
      assert ks == init + [ks[|ks| - 1]];
      assert multiset(ks) == multiset(init) + multiset{ks[|ks| - 1]};
      CountAllAt(c, init, k);
    }
  }

  /** Counting a then b is counting a + b: the counts accumulate across
      calls. */
  lemma {:induction false} CountAllAppend(c: Counter, a: seq<string>, b: seq<string>)
    ensures CountAll(CountAll(c, a), b) == CountAll(c, a + b)
    decreases |b|
  {
    if b == [] {
      assert a + b == a;
    } else {
      assert (a + b)[..|a + b| - 1] == a + b[..|b| - 1];
      CountAllAppend(c, a, b[..|b| - 1]);
    }
  }

  /** Counting never leaves a key at 0. */
  lemma {:induction false} CountAllKeepsPositive(c: Counter, ks: seq<string>)
    requires PositiveCounts(c)
    ensures PositiveCounts(CountAll(c, ks))
    decreases |ks|
  {
    if ks != [] {
      CountAllKeepsPositive(c, ks[..|ks| - 1]);
    }
  }

  lemma CountAllSnoc(c: Counter, ks: seq<string>, k: string)
    ensures CountAll(c, ks + [k]) == Bump(CountAll(c, ks), k)
  {
    assert (ks + [k])[..|ks|] == ks;
  }

  lemma CountAllOne(c: Counter, k: string)
    ensures CountAll(c, [k]) == Bump(c, k)
  {
    assert [k][..0] == [];
  }

  lemma CountAllPrefixStep(c: Counter, ks: seq<string>, j: nat)
    requires j < |ks|
    ensures CountAll(c, ks[..j + 1]) == Bump(CountAll(c, ks[..j]), ks[j])
  {
    assert ks[..j + 1][..j] == ks[..j];
  }

  lemma CountAllWhole(c: Counter, ks: seq<string>, j: nat)
    requires j == |ks|
    ensures CountAll(c, ks[..j]) == CountAll(c, ks)
  {
    assert ks[..j] == ks;
  }

  // ---------------------------------------------------------------------------
  // Tables of lists

  /** Appending x to the list under k, the list being created on first use. */
  function Append<T>(t: map<string, seq<T>>, k: string, x: T): map<string, seq<T>> {
    t[k := GetList(t, k) + [x]]
  }

  /** Appending every keyed value of es, in order. */
  function AppendAll<T>(t: map<string, seq<T>>, es: seq<(string, T)>): map<string, seq<T>>
    decreases |es|
  {
    if es == [] then t else Append(AppendAll(t, es[..|es| - 1]), es[|es| - 1].0, es[|es| - 1].1)
  }

  /** The values es holds under key k, in order. */
  function ValuesFor<T>(es: seq<(string, T)>, k: string): seq<T>
    decreases |es|
  {
    if es == [] then []
    else ValuesFor(es[..|es| - 1], k) + if es[|es| - 1].0 == k then [es[|es| - 1].1] else []
  }

  /** The keyed values a sequence of records contributes, record by record. */
  function Collect<R, T>(entry: R -> seq<(string, T)>, rs: seq<R>): seq<(string, T)>
    decreases |rs|
  {
    if rs == [] then [] else Collect(entry, rs[..|rs| - 1]) + entry(rs[|rs| - 1])
  }

  /** Each key's list is its old list followed by the values appended under
      it, and a key is present exactly when it was before or received a
      value: lists only grow at their end, and other keys are untouched. */
  lemma {:induction false} AppendAllAt<T>(t: map<string, seq<T>>, es: seq<(string, T)>, k: string)
    ensures GetList(AppendAll(t, es), k) == GetList(t, k) + ValuesFor(es, k)
    ensures k in AppendAll(t, es) <==> k in t || |ValuesFor(es, k)| > 0
    decreases |es|
  {
    if es == [] {
      assert GetList(t, k) + [] == GetList(t, k);
    } else {
      var init := es[..|es| - 1];
      AppendAllAt(t, init, k);
      var x, y := GetList(t, k), ValuesFor(init, k);
      var z := if es[|es| - 1].0 == k then [es[|es| - 1].1] else [];
      assert (x + y) + z == x + (y + z);
    }
  }

  /** A key is created only together with its first value, so no list is
      ever empty. */
  lemma {:induction false} AppendAllKeepsNonEmpty<T>(t: map<string, seq<T>>, es: seq<(string, T)>)
    requires NoEmptyLists(t)
    ensures NoEmptyLists(AppendAll(t, es))
    decreases |es|
  {
    if es != [] {
      AppendAllKeepsNonEmpty(t, es[..|es| - 1]);
    }
  }

  /** Appending a then b is appending a + b. */
  lemma {:induction false} AppendAllAppend<T>(t: map<string, seq<T>>, a: seq<(string, T)>, b: seq<(string, T)>)
    ensures AppendAll(AppendAll(t, a), b) == AppendAll(t, a + b)
    decreases |b|
  {
    if b == [] {
      assert a + b == a;
    } else {
      assert (a + b)[..|a + b| - 1] == a + b[..|b| - 1];
      AppendAllAppend(t, a, b[..|b| - 1]);
    }
  }

  lemma AppendAllOne<T>(t: map<string, seq<T>>, k: string, x: T)
    ensures AppendAll(t, [(k, x)]) == Append(t, k, x)
  {
    assert [(k, x)][..0] == [];
  }

  /** The values under a key split like the entries. */
  lemma {:induction false} ValuesForAppend<T>(a: seq<(string, T)>, b: seq<(string, T)>, k: string)
    ensures ValuesFor(a + b, k) == ValuesFor(a, k) + ValuesFor(b, k)
    decreases |b|
  {
    if b == [] {
      assert a + b == a;
    } else {
      assert (a + b)[..|a + b| - 1] == a + b[..|b| - 1];
      ValuesForAppend(a, b[..|b| - 1], k);
    }
  }

  /** The entries of a + b are those of a followed by those of b. */
  lemma {:induction false} CollectAppend<R, T>(entry: R -> seq<(string, T)>, a: seq<R>, b: seq<R>)
    ensures Collect(entry, a + b) == Collect(entry, a) + Collect(entry, b)
    decreases |b|
  {
    if b == [] {
      assert a + b == a;
    } else {
      assert (a + b)[..|a + b| - 1] == a + b[..|b| - 1];
      CollectAppend(entry, a, b[..|b| - 1]);
    }
  }

  lemma CollectOne<R, T>(entry: R -> seq<(string, T)>, r: R)
    ensures Collect(entry, [r]) == entry(r)
  {
    assert [r][..0] == [];
  }

  /** Appending the entries of records a and then of records b is appending
      the entries of a + b. */
  lemma CollectAppendAll<R, T>(entry: R -> seq<(string, T)>, t: map<string, seq<T>>, a: seq<R>, b: seq<R>)
    ensures AppendAll(AppendAll(t, Collect(entry, a)), Collect(entry, b)) == AppendAll(t, Collect(entry, a + b))
  {
    CollectAppend(entry, a, b);
    AppendAllAppend(t, Collect(entry, a), Collect(entry, b));
  }

  /** One more record appends its own entries after those of the others. */
  lemma CollectAppendAllSnoc<R, T>(entry: R -> seq<(string, T)>, t: map<string, seq<T>>, rs: seq<R>, r: R)
    ensures AppendAll(t, Collect(entry, rs + [r])) == AppendAll(AppendAll(t, Collect(entry, rs)), entry(r))
  {
    CollectAppendAll(entry, t, rs, [r]);
    CollectOne(entry, r);
  }

}
