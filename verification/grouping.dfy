/** Grouping a list by a string key into an ordered mapping from key to the
    items filed under it. The dashboard builds these with a reduce into a
    plain object; object keys that are not integer-like keep insertion order,
    so the mapping is a sequence of (key, items) entries in first-seen key
    order. */
module Grouping {

  /** Entries in first-seen key order; each holds the items filed under its key. */
  type Groups<T> = seq<(string, seq<T>)>

  /** The key of every item, in item order. */
  function KeySeq<T>(items: seq<T>, key: T -> string): (ks: seq<string>)
    ensures |ks| == |items|
    ensures forall i :: 0 <= i < |items| ==> ks[i] == key(items[i])
  {
    seq(|items|, i requires 0 <= i < |items| => key(items[i]))
  }

  /** The keys of a grouping, in entry order. */
  function KeysOf<T>(g: Groups<T>): (ks: seq<string>)
    ensures |ks| == |g|
    ensures forall i :: 0 <= i < |g| ==> ks[i] == g[i].0
  {
    seq(|g|, i requires 0 <= i < |g| => g[i].0)
  }

  predicate Distinct(ks: seq<string>)
  {
    forall i, j :: 0 <= i < j < |ks| ==> ks[i] != ks[j]
  }

  /** The position of the entry for `k`, or `|g|` when there is none. */
  function FindKey<T>(g: Groups<T>, k: string): (r: nat)
    ensures r <= |g|
    ensures r < |g| ==> g[r].0 == k
    ensures forall i :: 0 <= i < r ==> g[i].0 != k
  {
    if |g| == 0 then 0
    else if g[0].0 == k then 0
    else 1 + FindKey(g[1..], k)
  }

  /** One step of the reduce: create the entry for `k` at the end when it is
      missing, then push `x` onto that entry. */
  function Add<T>(g: Groups<T>, k: string, x: T): Groups<T>
  {
    var i := FindKey(g, k);
    if i < |g| then g[i := (k, g[i].1 + [x])] else g + [(k, [x])]
  }

  /** The reduce over `items`, left to right, starting from the empty object. */
  function GroupBy<T>(items: seq<T>, key: T -> string): Groups<T>
    decreases |items|
  {
    if |items| == 0 then []
    else
      var n := |items| - 1;
      Add(GroupBy(items[..n], key), key(items[n]), items[n])
  }

  /** Reference definition of the key order: each distinct key once, in the
      order of its first occurrence. */
  function FirstSeen(ks: seq<string>): seq<string>
    decreases |ks|
  {
    if |ks| == 0 then []
    else
      var p := FirstSeen(ks[..|ks| - 1]);
      if ks[|ks| - 1] in p then p else p + [ks[|ks| - 1]]
  }

  /** Reference definition of one group: the items whose key is `k`, in item order. */
  function Select<T>(items: seq<T>, key: T -> string, k: string): seq<T>
    decreases |items|
  {
    if |items| == 0 then []
    else
      var n := |items| - 1;
      Select(items[..n], key, k) + (if key(items[n]) == k then [items[n]] else [])
  }

  /** The groups' items concatenated in entry order. */
  function Flatten<T>(g: Groups<T>): seq<T>
  {
    if |g| == 0 then [] else g[0].1 + Flatten(g[1..])
  }

  /** Items that share a key sit next to each other: a key that differs from
      its predecessor has not been seen before. */
  predicate Contiguous(ks: seq<string>)
  {
    forall i :: 0 < i < |ks| && ks[i] != ks[i - 1] ==> ks[i] !in ks[..i]
  }

  // ---------------------------------------------------------------------
  // Facts about the reference definitions

  lemma {:induction false} FirstSeenFacts(ks: seq<string>)
    ensures Distinct(FirstSeen(ks))
    ensures forall k :: k in FirstSeen(ks) <==> k in ks
    decreases |ks|
  {
    if |ks| > 0 {
      var q := ks[..|ks| - 1];
      FirstSeenFacts(q);
      assert ks == q + [ks[|ks| - 1]];
    }
  }

  lemma {:induction false} SelectFacts<T>(items: seq<T>, key: T -> string, k: string)
    ensures forall y :: y in Select(items, key, k) ==> key(y) == k
    ensures Select(items, key, k) == [] <==> k !in KeySeq(items, key)
    decreases |items|
  {
    if |items| > 0 {
      var n := |items| - 1;
      SelectFacts(items[..n], key, k);
      assert KeySeq(items, key) == KeySeq(items[..n], key) + [key(items[n])];
    }
  }

  lemma KeySeqPrefix<T>(items: seq<T>, key: T -> string, n: nat)
    requires n <= |items|
    ensures KeySeq(items, key)[..n] == KeySeq(items[..n], key)
  {
  }

  lemma {:induction false} FlattenAppend<T>(a: Groups<T>, b: Groups<T>)
    ensures Flatten(a + b) == Flatten(a) + Flatten(b)
    decreases |a|
  {
    if |a| == 0 {
      assert a + b == b;
    } else {
      assert (a + b)[0] == a[0];
      assert (a + b)[1..] == a[1..] + b;
      FlattenAppend(a[1..], b);
    }
  }

  lemma FlattenSingle<T>(e: (string, seq<T>))
    ensures Flatten([e]) == e.1
  {
    assert [e][1..] == [];
  }

  /** Pushing `x` onto one entry adds exactly `x` to the flattened items. */
  lemma FlattenUpdate<T>(g: Groups<T>, i: nat, k: string, x: T)
    requires i < |g|
    ensures multiset(Flatten(g[i := (k, g[i].1 + [x])])) == multiset(Flatten(g)) + multiset{x}
  {
    var g' := g[i := (k, g[i].1 + [x])];
    assert g == g[..i] + [g[i]] + g[i + 1..];
    assert g' == g[..i] + [g'[i]] + g[i + 1..];
    FlattenAppend(g[..i] + [g[i]], g[i + 1..]);
    FlattenAppend(g[..i], [g[i]]);
    FlattenAppend(g[..i] + [g'[i]], g[i + 1..]);
    FlattenAppend(g[..i], [g'[i]]);
    FlattenSingle(g[i]);
    FlattenSingle(g'[i]);
  }

  // ---------------------------------------------------------------------
  // The reduce agrees with the reference definitions

  /** The reduce produces one entry per distinct key, in first-seen order,
      and each entry holds exactly the items with that key, in item order. */
  lemma {:induction false} GroupByIsSelect<T>(items: seq<T>, key: T -> string)
    ensures KeysOf(GroupBy(items, key)) == FirstSeen(KeySeq(items, key))
    ensures forall i :: 0 <= i < |GroupBy(items, key)| ==>
      GroupBy(items, key)[i].1 == Select(items, key, GroupBy(items, key)[i].0)
    decreases |items|
  {
    if |items| > 0 {
      var n := |items| - 1;
      var p := items[..n];
      var x := items[n];
      var k := key(x);
      var g := GroupBy(p, key);
      GroupByIsSelect(p, key);
      FirstSeenFacts(KeySeq(p, key));
      KeySeqPrefix(items, key, n);
      assert KeySeq(items, key)[n] == k;
      var i := FindKey(g, k);
      var g' := GroupBy(items, key);
      assert g' == Add(g, k, x);
      if i < |g| {
        assert KeysOf(g)[i] == k;
        assert k in FirstSeen(KeySeq(p, key));
        assert KeysOf(g') == KeysOf(g);
        forall j | 0 <= j < |g'|
          ensures g'[j].1 == Select(items, key, g'[j].0)
        {
          if j != i {
            assert KeysOf(g)[j] != KeysOf(g)[i];
          }
        }
      } else {
        assert k !in KeysOf(g);
        assert KeysOf(g') == KeysOf(g) + [k];
        SelectFacts(p, key, k);
        forall j | 0 <= j < |g'|
          ensures g'[j].1 == Select(items, key, g'[j].0)
        {
          if j < |g| {
            assert g[j].0 == KeysOf(g)[j];
          }
        }
      }
    }
  }

  /** The keys of a grouping are pairwise distinct and are exactly the keys
      of the items, in first-seen order. */
  lemma GroupByKeys<T>(items: seq<T>, key: T -> string)
    ensures KeysOf(GroupBy(items, key)) == FirstSeen(KeySeq(items, key))
    ensures Distinct(KeysOf(GroupBy(items, key)))
    ensures forall k :: k in KeysOf(GroupBy(items, key)) <==> k in KeySeq(items, key)
  {
    GroupByIsSelect(items, key);
    FirstSeenFacts(KeySeq(items, key));
  }

  /** No entry is empty, and every item filed under `k` has key `k`. */
  lemma GroupByMembers<T>(items: seq<T>, key: T -> string)
    ensures forall i :: 0 <= i < |GroupBy(items, key)| ==> GroupBy(items, key)[i].1 != []
    ensures forall i, y :: 0 <= i < |GroupBy(items, key)| && y in GroupBy(items, key)[i].1 ==>
      key(y) == GroupBy(items, key)[i].0
  {
    var g := GroupBy(items, key);
    GroupByKeys(items, key);
    GroupByIsSelect(items, key);
    forall i | 0 <= i < |g|
      ensures g[i].1 != []
      ensures forall y :: y in g[i].1 ==> key(y) == g[i].0
    {
      assert KeysOf(g)[i] == g[i].0;
      SelectFacts(items, key, g[i].0);
    }
  }

  /** Every item lands in exactly one entry, once: the flattened grouping
      is a permutation of the items. */
  lemma {:induction false} GroupByPermutes<T>(items: seq<T>, key: T -> string)
    ensures multiset(Flatten(GroupBy(items, key))) == multiset(items)
    ensures |Flatten(GroupBy(items, key))| == |items|
    decreases |items|
  {
    if |items| > 0 {
      var n := |items| - 1;
      var g := GroupBy(items[..n], key);
      var k := key(items[n]);
      GroupByPermutes(items[..n], key);
      assert items == items[..n] + [items[n]];
      var i := FindKey(g, k);
      if i < |g| {
        FlattenUpdate(g, i, k, items[n]);
      } else {
        FlattenAppend(g, [(k, [items[n]])]);
        FlattenSingle((k, [items[n]]));
      }
    }
    assert |multiset(Flatten(GroupBy(items, key)))| == |multiset(items)|;
  }

  lemma {:induction false} FirstSeenLastOfContiguous(ks: seq<string>)
    requires Contiguous(ks) && |ks| > 0
    ensures |FirstSeen(ks)| > 0 && FirstSeen(ks)[|FirstSeen(ks)| - 1] == ks[|ks| - 1]
    decreases |ks|
  {
    var n := |ks| - 1;
    var q := ks[..n];
    FirstSeenFacts(q);
    if ks[n] in FirstSeen(q) {
      assert ks[n] in q;
      assert ks[n] == ks[n - 1];
      assert Contiguous(q) by {
        forall i | 0 < i < |q| && q[i] != q[i - 1]
          ensures q[i] !in q[..i]
        {
          assert q[..i] == ks[..i];
        }
      }
      FirstSeenLastOfContiguous(q);
    }
  }

  lemma ContiguousPrefix(ks: seq<string>, n: nat)
    requires Contiguous(ks) && n <= |ks|
    ensures Contiguous(ks[..n])
  {
    forall i | 0 < i < n && ks[..n][i] != ks[..n][i - 1]
      ensures ks[..n][i] !in ks[..n][..i]
    {
      assert ks[..n][..i] == ks[..i];
    }
  }

  /** Pushing onto the last entry appends to the flattened items. */
  lemma FlattenPushLast<T>(g: Groups<T>, x: T)
    requires |g| > 0
    ensures Flatten(g[|g| - 1 := (g[|g| - 1].0, g[|g| - 1].1 + [x])]) == Flatten(g) + [x]
  {
    var i := |g| - 1;
    var last := (g[i].0, g[i].1 + [x]);
    assert g == g[..i] + [g[i]];
    assert g[i := last] == g[..i] + [last];
    FlattenAppend(g[..i], [g[i]]);
    FlattenAppend(g[..i], [last]);
    FlattenSingle(g[i]);
    FlattenSingle(last);
  }

  /** Opening a new entry at the end appends to the flattened items. */
  lemma FlattenPushNew<T>(g: Groups<T>, k: string, x: T)
    ensures Flatten(g + [(k, [x])]) == Flatten(g) + [x]
  {
    FlattenAppend(g, [(k, [x])]);
    FlattenSingle((k, [x]));
  }

  /** Under contiguity, a key already present belongs to the last entry. */
  lemma ContiguousFindsLast<T>(p: seq<T>, key: T -> string, k: string)
    requires Contiguous(KeySeq(p, key) + [k])
    requires FindKey(GroupBy(p, key), k) < |GroupBy(p, key)|
    ensures FindKey(GroupBy(p, key), k) == |GroupBy(p, key)| - 1
  {
    var g := GroupBy(p, key);
    var ks := KeySeq(p, key);
    var n := |p|;
    GroupByKeys(p, key);
    var i := FindKey(g, k);
    assert KeysOf(g)[i] == k;
    assert k in ks;
    assert (ks + [k])[..n] == ks;
    assert k == ks[n - 1];
    ContiguousPrefix(ks + [k], n);
    FirstSeenLastOfContiguous(ks);
    assert KeysOf(g)[|g| - 1] == k;
  }

  /** When equal keys are adjacent, grouping only cuts the list into runs:
      concatenating the entries in key order gives back the items unchanged. */
  lemma {:induction false} ContiguousGroupsFlatten<T>(items: seq<T>, key: T -> string)
    requires Contiguous(KeySeq(items, key))
    ensures Flatten(GroupBy(items, key)) == items
    decreases |items|
  {
    if |items| > 0 {
      var n := |items| - 1;
      var p := items[..n];
      var x := items[n];
      var k := key(x);
      KeySeqPrefix(items, key, n);
      assert KeySeq(items, key) == KeySeq(p, key) + [k];
      ContiguousPrefix(KeySeq(items, key), n);
      ContiguousGroupsFlatten(p, key);
      var g := GroupBy(p, key);
      if FindKey(g, k) < |g| {
        ContiguousFindsLast(p, key, k);
        FlattenPushLast(g, x);
      } else {
        FlattenPushNew(g, k, x);
      }
      assert items == p + [x];
    }
  }

  /** The reduce takes one more step for one more item. */
  lemma GroupBySnoc<T>(q: seq<T>, y: T, key: T -> string)
    ensures GroupBy(q + [y], key) == Add(GroupBy(q, key), key(y), y)
  {
    assert (q + [y])[..|q|] == q;
  }

  lemma AddNewKey<T>(g: Groups<T>, k: string, y: T)
    requires k !in KeysOf(g)
    ensures Add(g, k, y) == g + [(k, [y])]
  {
    assert forall j :: 0 <= j < |g| ==> g[j].0 == KeysOf(g)[j];
  }

  lemma AddToNewest<T>(g: Groups<T>, k: string, run: seq<T>, y: T)
    requires k !in KeysOf(g)
    ensures Add(g + [(k, run)], k, y) == g + [(k, run + [y])]
  {
    var g1 := g + [(k, run)];
    assert forall j :: 0 <= j < |g| ==> g1[j].0 == KeysOf(g)[j];
    assert g1[|g|].0 == k;
  }

  /** Appending a run of items that all share a key not seen before adds
      exactly one new entry holding that run. */
  lemma {:induction false} GroupByAppendRun<T>(p: seq<T>, run: seq<T>, key: T -> string, k: string)
    requires |run| > 0
    requires forall y :: y in run ==> key(y) == k
    requires k !in KeySeq(p, key)
    ensures GroupBy(p + run, key) == GroupBy(p, key) + [(k, run)]
    decreases |run|
  {
    var g := GroupBy(p, key);
    GroupByKeys(p, key);
    var n := |run| - 1;
    var y := run[n];
    assert key(y) == k;
    assert p + run == (p + run[..n]) + [y];
    GroupBySnoc(p + run[..n], y, key);
    if n == 0 {
      assert p + run[..n] == p;
      AddNewKey(g, k, y);
      assert [y] == run;
    } else {
      GroupByAppendRun(p, run[..n], key, k);
      AddToNewest(g, k, run[..n], y);
      assert run[..n] + [y] == run;
    }
  }

  lemma KeySeqAppend<T>(a: seq<T>, b: seq<T>, key: T -> string)
    ensures KeySeq(a + b, key) == KeySeq(a, key) + KeySeq(b, key)
  {
  }

  /** A run of one key not seen before keeps a key sequence contiguous. */
  lemma ContiguousAppendRun(ks: seq<string>, run: seq<string>, k: string)
    requires Contiguous(ks)
    requires forall i :: 0 <= i < |run| ==> run[i] == k
    requires k !in ks
    ensures Contiguous(ks + run)
  {
    var s := ks + run;
    forall i | 0 < i < |s| && s[i] != s[i - 1]
      ensures s[i] !in s[..i]
    {
      if i < |ks| {
        assert s[..i] == ks[..i];
      } else {
        assert i == |ks|;
        assert s[..i] == ks;
      }
    }
  }

  /** `secs` is a list of non-empty runs, each run's items sharing the run's
      key, and no key used by two runs. */
  ghost predicate IsRunList<T>(secs: Groups<T>, key: T -> string)
  {
    && Distinct(KeysOf(secs))
    && forall i :: 0 <= i < |secs| ==> secs[i].1 != [] && forall y :: y in secs[i].1 ==> key(y) == secs[i].0
  }

  lemma {:induction false} FlattenMember<T>(g: Groups<T>, y: T)
    requires y in Flatten(g)
    ensures exists i :: 0 <= i < |g| && y in g[i].1
    decreases |g|
  {
    if y !in g[0].1 {
      FlattenMember(g[1..], y);
      var i :| 0 <= i < |g[1..]| && y in g[1..][i].1;
      assert y in g[i + 1].1;
    }
  }

  /** Grouping the concatenation of a run list gives the run list back, and
      its key sequence is contiguous. */
  lemma {:induction false} GroupByRuns<T>(secs: Groups<T>, key: T -> string)
    requires IsRunList(secs, key)
    ensures GroupBy(Flatten(secs), key) == secs
    ensures Contiguous(KeySeq(Flatten(secs), key))
    decreases |secs|
  {
    if |secs| == 0 {
      assert Flatten(secs) == [];
    } else {
      var n := |secs| - 1;
      var init := secs[..n];
      var last := secs[n];
      var k := last.0;
      assert secs == init + [last];
      assert KeysOf(init) == KeysOf(secs)[..n];
      assert IsRunList(init, key);
      GroupByRuns(init, key);
      var p := Flatten(init);
      FlattenAppend(init, [last]);
      FlattenSingle(last);
      assert Flatten(secs) == p + last.1;
      forall j | 0 <= j < |p|
        ensures KeySeq(p, key)[j] != k
      {
        assert p[j] in p;
        FlattenMember(init, p[j]);
        var i :| 0 <= i < |init| && p[j] in init[i].1;
        assert KeysOf(secs)[i] != KeysOf(secs)[n];
      }
      assert k !in KeySeq(p, key);
      GroupByAppendRun(p, last.1, key, k);
      ContiguousAppendRun(KeySeq(p, key), KeySeq(last.1, key), k);
      KeySeqAppend(p, last.1, key);
    }
  }
}
