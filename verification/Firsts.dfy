/** Insertion-ordered dictionaries filled by a loop that stores a value only the first time its key
    turns up: what such a loop keeps, and that it keeps the first of every key, in input order. */
module Firsts {
  import opened Text

  /** The first value stored under a key. */
  function Get<K(==), V>(entries: seq<(K, V)>, key: K): Option<V> {
    if entries == [] then None
    else if entries[0].0 == key then Some(entries[0].1)
    else Get(entries[1..], key)
  }

  function Kept<K(==), V>(entries: seq<(K, V)>): seq<(K, V)>
    decreases |entries|
  {
    if entries == [] then []
    else Put(Kept(entries[..|entries| - 1]), entries[|entries| - 1])
  }

  function Put<K(==), V>(entries: seq<(K, V)>, entry: (K, V)): seq<(K, V)> {
    if Get(entries, entry.0).Some? then entries else entries + [entry]
  }

  predicate DistinctKeys<K(==), V>(entries: seq<(K, V)>) {
    forall i, j :: 0 <= i < j < |entries| ==> entries[i].0 != entries[j].0
  }

  function Values<K, V>(entries: seq<(K, V)>): (r: seq<V>)
    ensures |r| == |entries| && forall i :: 0 <= i < |entries| ==> r[i] == entries[i].1
  {
    seq(|entries|, i requires 0 <= i < |entries| => entries[i].1)
  }

  lemma KeptMore<K, V>(entries: seq<(K, V)>, entry: (K, V))
    ensures Kept(entries + [entry]) == Put(Kept(entries), entry)
  {
    assert (entries + [entry])[..|entries|] == entries;
  }

  lemma {:induction false} GetMore<K, V>(entries: seq<(K, V)>, entry: (K, V), key: K)
    ensures Get(entries + [entry], key)
         == if Get(entries, key).Some? then Get(entries, key) else if entry.0 == key then Some(entry.1) else None
  {
    if entries != [] {
      assert (entries + [entry])[1..] == entries[1..] + [entry];
      if entries[0].0 != key { GetMore(entries[1..], entry, key); }
    }
  }

  lemma {:induction false} GetNone<K, V>(entries: seq<(K, V)>, key: K)
    requires Get(entries, key).None?
    ensures forall i :: 0 <= i < |entries| ==> entries[i].0 != key
  {
    if entries != [] {
      GetNone(entries[1..], key);
      forall i | 0 <= i < |entries| ensures entries[i].0 != key {
        if i > 0 { assert entries[i] == entries[1..][i - 1]; }
      }
    }
  }

  /** Get finds the entry with the least position among those with its key. */
  lemma {:induction false} GetFirst<K, V>(entries: seq<(K, V)>, key: K) returns (i: nat)
    requires Get(entries, key).Some?
    ensures i < |entries| && entries[i].0 == key && Get(entries, key) == Some(entries[i].1)
    ensures forall j :: 0 <= j < i ==> entries[j].0 != key
  {
    i := 0;
    if entries[0].0 != key {
      var j := GetFirst(entries[1..], key);
      i := j + 1;
      assert entries[1..][j] == entries[i];
      assert forall k :: 0 < k < i ==> entries[k] == entries[1..][k - 1];
    }
  }

  lemma {:induction false} GetSome<K, V>(entries: seq<(K, V)>, i: nat)
    requires i < |entries|
    ensures Get(entries, entries[i].0).Some?
  {
    if Get(entries, entries[i].0).None? { GetNone(entries, entries[i].0); }
  }

  /** The dictionary answers every look-up as the whole input does: it holds the first of each key. */
  lemma {:induction false} KeptGet<K, V>(entries: seq<(K, V)>, key: K)
    ensures Get(Kept(entries), key) == Get(entries, key)
    decreases |entries|
  {
    if entries != [] {
      var before, last := entries[..|entries| - 1], entries[|entries| - 1];
      assert entries == before + [last];
      KeptGet(before, key);
      GetMore(before, last, key);
      KeptGet(before, last.0);
      GetMore(Kept(before), last, key);
    }
  }

  lemma {:induction false} KeptDistinct<K, V>(entries: seq<(K, V)>)
    ensures DistinctKeys(Kept(entries))
    decreases |entries|
  {
    if entries != [] {
      var before, last := entries[..|entries| - 1], entries[|entries| - 1];
      KeptDistinct(before);
      if Get(Kept(before), last.0).None? { GetNone(Kept(before), last.0); }
    }
  }

  /** Later input only adds behind: the order is that of the first occurrences. */
  lemma {:induction false} KeptGrows<K, V>(entries: seq<(K, V)>, n: nat)
    requires n <= |entries|
    ensures Kept(entries[..n]) <= Kept(entries)
    decreases |entries|
  {
    if n == |entries| {
      assert entries[..n] == entries;
    } else {
      var before := entries[..|entries| - 1];
      KeptGrows(before, n);
      assert before[..n] == entries[..n];
    }
  }

  lemma {:induction false} DistinctGet<K, V>(entries: seq<(K, V)>, k: nat)
    requires k < |entries| && DistinctKeys(entries)
    ensures Get(entries, entries[k].0) == Some(entries[k].1)
  {
    if k > 0 {
      assert entries[1..][k - 1] == entries[k];
      DistinctGet(entries[1..], k - 1);
    }
  }

  lemma DistinctMore<K, V>(entries: seq<(K, V)>, entry: (K, V))
    ensures DistinctKeys(entries + [entry]) <==> DistinctKeys(entries) && Get(entries, entry.0).None?
  {
    var more := entries + [entry];
    assert more[|entries|] == entry;
    assert forall i :: 0 <= i < |entries| ==> more[i] == entries[i];
    if Get(entries, entry.0).Some? {
      var i := GetFirst(entries, entry.0);
      assert more[i].0 == more[|entries|].0;
    } else {
      GetNone(entries, entry.0);
    }
    hide Get;
  }

  /** Nothing is dropped exactly when no key repeats. */
  lemma {:induction false} KeptAll<K, V>(entries: seq<(K, V)>)
    ensures |Kept(entries)| <= |entries|
    ensures |Kept(entries)| == |entries| <==> DistinctKeys(entries)
    ensures DistinctKeys(entries) ==> Kept(entries) == entries
    decreases |entries|
  {
    if entries != [] {
      var before, last := entries[..|entries| - 1], entries[|entries| - 1];
      assert before + [last] == entries;
      KeptAll(before);
      KeptGet(before, last.0);
      DistinctMore(before, last);
      hide DistinctKeys, Get;
    }
  }

  predicate Rising(at: seq<nat>) { forall j, k :: 0 <= j < k < |at| ==> at[j] < at[k] }

  /** The entry is the first with its key. */
  predicate IsFirst<K(==), V>(entries: seq<(K, V)>, i: nat) {
    i < |entries| && forall j :: 0 <= j < i ==> entries[j].0 != entries[i].0
  }

  /** The positions of the first entries, in order. */
  ghost predicate FirstsAt<K, V>(entries: seq<(K, V)>, kept: seq<(K, V)>, at: seq<nat>) {
    && |at| == |kept| && Rising(at)
    && (forall i: nat :: i in at <==> IsFirst(entries, i))
    && (forall k :: 0 <= k < |at| ==> at[k] < |entries| && kept[k] == entries[at[k]])
  }

  lemma IsFirstBefore<K, V>(entries: seq<(K, V)>, n: nat, i: nat)
    requires n + 1 == |entries|
    ensures IsFirst(entries[..n], i) <==> IsFirst(entries, i) && i < n
    ensures IsFirst(entries, n) <==> Get(entries[..n], entries[n].0).None?
  {
    if Get(entries[..n], entries[n].0).Some? {
      var j := GetFirst(entries[..n], entries[n].0);
    } else {
      GetNone(entries[..n], entries[n].0);
    }
  }

  /** What is kept are the first entries of every key, where they stood. */
  lemma {:induction false} KeptFirsts<K, V>(entries: seq<(K, V)>) returns (at: seq<nat>)
    ensures FirstsAt(entries, Kept(entries), at)
    decreases |entries|
  {
    at := [];
    if entries != [] {
      var n := |entries| - 1;
      var before := KeptFirsts(entries[..n]);
      at := before + if IsFirst(entries, n) then [n] else [];
      KeptGet(entries[..n], entries[n].0);
      IsFirstBefore(entries, n, n);
      hide IsFirst, Get, FirstsAt;
      OneMoreFirst(entries, Kept(entries[..n]), before, Kept(entries), at);
    }
  }

  lemma OneMoreFirst<K, V>(entries: seq<(K, V)>, kept: seq<(K, V)>, before: seq<nat>, all: seq<(K, V)>, at: seq<nat>)
    requires entries != [] && FirstsAt(entries[..|entries| - 1], kept, before)
    requires var n := |entries| - 1;
             if IsFirst(entries, n) then all == kept + [entries[n]] && at == before + [n] else all == kept && at == before
    ensures FirstsAt(entries, all, at)
  {
    var n := |entries| - 1;
    hide IsFirst, Get;
    forall i: nat ensures i in at <==> IsFirst(entries, i) {
      FirstsMean(entries[..n], kept, before, i);
      IsFirstBefore(entries, n, i);
      WithinEntries(entries, i);
    }
  }

  lemma FirstsMean<K, V>(entries: seq<(K, V)>, kept: seq<(K, V)>, at: seq<nat>, i: nat)
    requires FirstsAt(entries, kept, at)
    ensures i in at <==> IsFirst(entries, i)
  {
    hide IsFirst;
  }

  lemma WithinEntries<K, V>(entries: seq<(K, V)>, i: nat)
    ensures IsFirst(entries, i) ==> i < |entries|
  {
  }
}
