/** Keep-the-first-of-each-key deduplication, stated for an arbitrary key
    function from an element to a string. The relay instantiates the key with
    its `title-artist-score` text (module Recognition). */
module Dedup {
  import opened Wrappers


  /** The keys carried by the elements of xs. */
  function KeySet<T>(xs: seq<T>, key: T -> string): set<string> {
    if |xs| == 0 then {} else KeySet(xs[..|xs| - 1], key) + {key(xs[|xs| - 1])}
  }

  /** The elements of xs that carry a key no earlier element carried, in
      their order in xs: what one pass with a `seen` set keeps. */
  function Unique<T>(xs: seq<T>, key: T -> string): (u: seq<T>)
    ensures |u| <= |xs|
  {
    if |xs| == 0 then []
    else
      var prefix := xs[..|xs| - 1];
      if key(xs[|xs| - 1]) in KeySet(prefix, key) then Unique(prefix, key)
      else Unique(prefix, key) + [xs[|xs| - 1]]
  }

  /** One more element of xs: how KeySet and Unique of the prefix grow. This
      is the step a left-to-right pass takes. */
  lemma UniqueStep<T>(xs: seq<T>, key: T -> string, i: nat)
    requires i < |xs|
    ensures KeySet(xs[..i + 1], key) == KeySet(xs[..i], key) + {key(xs[i])}
    ensures Unique(xs[..i + 1], key) ==
      if key(xs[i]) in KeySet(xs[..i], key) then Unique(xs[..i], key) else Unique(xs[..i], key) + [xs[i]]
  {
    var prefix := xs[..i + 1];
    assert prefix[..i] == xs[..i] && prefix[i] == xs[i];
  }

  /** The pass itself: a loop that pushes each element whose key is not yet
      in `seen` and then adds that key. Computing a key may throw: `hasKey(x)`
      is false for an element whose key cannot be computed, and the pass then
      stops with None. */
  method RemoveDuplicates<T>(results: seq<T>, key: T -> string, hasKey: T -> bool) returns (r: Option<seq<T>>)
    ensures r.None? <==> exists i :: 0 <= i < |results| && !hasKey(results[i])
    ensures r.Some? ==> r.value == Unique(results, key)
  {
    var uniqueResults: seq<T> := [];
    var seen: set<string> := {};
    for i := 0 to |results|
      invariant forall j :: 0 <= j < i ==> hasKey(results[j])
      invariant uniqueResults == Unique(results[..i], key)
      invariant seen == KeySet(results[..i], key)
    {
      var result := results[i];
      if !hasKey(result) {
        return None;
      }
      var k := key(result);
      UniqueStep(results, key, i);
      if k !in seen {
        uniqueResults := uniqueResults + [result];
        seen := seen + {k};
      }
    }
    assert results[..|results|] == results;
    return Some(uniqueResults);
  }

  /** No two elements of s share a key. */
  ghost predicate DistinctKeys<T>(s: seq<T>, key: T -> string) {
    forall i, j :: 0 <= i < j < |s| ==> key(s[i]) != key(s[j])
  }

  /** xs[i] is the first element of xs that carries its key. */
  ghost predicate IsFirstOccurrence<T>(xs: seq<T>, key: T -> string, i: int) {
    0 <= i < |xs| && forall j :: 0 <= j < i ==> key(xs[j]) != key(xs[i])
  }

  /** The indices of the first occurrences of each key, in ascending order. */
  ghost function FirstOccurrences<T>(xs: seq<T>, key: T -> string): seq<nat> {
    if |xs| == 0 then []
    else if IsFirstOccurrence(xs, key, |xs| - 1) then FirstOccurrences(xs[..|xs| - 1], key) + [|xs| - 1]
    else FirstOccurrences(xs[..|xs| - 1], key)
  }

  /** A key is in KeySet exactly when some element carries it. */
  lemma {:induction false} KeySetMembers<T>(xs: seq<T>, key: T -> string, k: string)
    ensures k in KeySet(xs, key) <==> exists i :: 0 <= i < |xs| && key(xs[i]) == k
  {
    if |xs| > 0 {
      var prefix := xs[..|xs| - 1];
      KeySetMembers(prefix, key, k);
      if k in KeySet(prefix, key) {
        var i :| 0 <= i < |prefix| && key(prefix[i]) == k;
        assert key(xs[i]) == k;
      }
      if exists i :: 0 <= i < |xs| && key(xs[i]) == k {
        var i :| 0 <= i < |xs| && key(xs[i]) == k;
        if i < |xs| - 1 { assert key(prefix[i]) == k; }
      }
    }
  }

  /** Coverage: every key of the input is kept, and no other. */
  lemma {:induction false} UniqueKeepsEveryKey<T>(xs: seq<T>, key: T -> string)
    ensures KeySet(Unique(xs, key), key) == KeySet(xs, key)
  {
    if |xs| > 0 {
      var prefix := xs[..|xs| - 1];
      UniqueKeepsEveryKey(prefix, key);
      var u := Unique(xs, key);
      if key(xs[|xs| - 1]) !in KeySet(prefix, key) {
        assert u[..|u| - 1] == Unique(prefix, key);
      }
    }
  }

  /** Uniqueness: no two kept elements share a key. */
  lemma {:induction false} UniqueHasDistinctKeys<T>(xs: seq<T>, key: T -> string)
    ensures DistinctKeys(Unique(xs, key), key)
  {
    if |xs| > 0 {
      var prefix := xs[..|xs| - 1];
      var last := xs[|xs| - 1];
      var up := Unique(prefix, key);
      UniqueHasDistinctKeys(prefix, key);
      if key(last) !in KeySet(prefix, key) {
        UniqueKeepsEveryKey(prefix, key);
        forall i | 0 <= i < |up|
          ensures key(up[i]) != key(last)
        {
          KeySetMembers(up, key, key(last));
        }
        var u := up + [last];
        forall i, j | 0 <= i < j < |u|
          ensures key(u[i]) != key(u[j])
        {
          if j < |up| { assert u[i] == up[i] && u[j] == up[j]; }
        }
      }
    }
  }

  /** xs[i] is a first occurrence exactly when its key is not among the earlier keys. */
  lemma FirstOccurrenceOfLast<T>(xs: seq<T>, key: T -> string)
    requires |xs| > 0
    ensures IsFirstOccurrence(xs, key, |xs| - 1) <==> key(xs[|xs| - 1]) !in KeySet(xs[..|xs| - 1], key)
  {
    var prefix := xs[..|xs| - 1];
    KeySetMembers(prefix, key, key(xs[|xs| - 1]));
    if exists i :: 0 <= i < |prefix| && key(prefix[i]) == key(xs[|xs| - 1]) {
      var i :| 0 <= i < |prefix| && key(prefix[i]) == key(xs[|xs| - 1]);
      assert key(xs[i]) == key(xs[|xs| - 1]);
    }
  }

  /** The output is the subsequence of the input at exactly the first
      occurrence of each key: ascending indices (input order), each kept
      element is the input element at its index, and an index is used iff it
      is the first occurrence of its key. */
  lemma {:induction false} UniqueIsFirstOccurrences<T>(xs: seq<T>, key: T -> string)
    ensures var u, idx := Unique(xs, key), FirstOccurrences(xs, key);
      && |idx| == |u|
      && (forall k :: 0 <= k < |idx| ==> idx[k] < |xs| && u[k] == xs[idx[k]])
      && (forall k, l :: 0 <= k < l < |idx| ==> idx[k] < idx[l])
      && (forall i :: 0 <= i < |xs| ==> (i in idx <==> IsFirstOccurrence(xs, key, i)))
  {
    if |xs| > 0 {
      var n := |xs| - 1;
      var prefix := xs[..n];
      UniqueIsFirstOccurrences(prefix, key);
      FirstOccurrenceOfLast(xs, key);
      var up, ip := Unique(prefix, key), FirstOccurrences(prefix, key);
      var u, idx := Unique(xs, key), FirstOccurrences(xs, key);
      assert forall i :: 0 <= i < n ==> (IsFirstOccurrence(xs, key, i) <==> IsFirstOccurrence(prefix, key, i));
      if IsFirstOccurrence(xs, key, n) {
        assert u == up + [xs[n]] && idx == ip + [n];
      } else {
        assert u == up && idx == ip;
      }
    }
  }

  /** An input whose keys are already distinct is returned as it is. */
  lemma {:induction false} UniqueOfDistinct<T>(xs: seq<T>, key: T -> string)
    requires DistinctKeys(xs, key)
    ensures Unique(xs, key) == xs
  {
    if |xs| > 0 {
      var prefix := xs[..|xs| - 1];
      assert DistinctKeys(prefix, key);
      UniqueOfDistinct(prefix, key);
      KeySetMembers(prefix, key, key(xs[|xs| - 1]));
    }
  }

  /** Deduplicating twice is deduplicating once. */
  lemma UniqueIdempotent<T>(xs: seq<T>, key: T -> string)
    ensures Unique(Unique(xs, key), key) == Unique(xs, key)
  {
    UniqueHasDistinctKeys(xs, key);
    UniqueOfDistinct(Unique(xs, key), key);
  }

  /** Exactly one element survives per distinct key. */
  lemma {:induction false} UniqueSize<T>(xs: seq<T>, key: T -> string)
    ensures |Unique(xs, key)| == |KeySet(xs, key)|
  {
    if |xs| > 0 {
      var prefix := xs[..|xs| - 1];
      var k := key(xs[|xs| - 1]);
      UniqueSize(prefix, key);
      if k in KeySet(prefix, key) {
        assert KeySet(xs, key) == KeySet(prefix, key);
      } else {
        assert |KeySet(xs, key)| == |KeySet(prefix, key)| + 1;
        assert |Unique(xs, key)| == |Unique(prefix, key)| + 1;
      }
    }
  }

  /** Nothing is dropped exactly when the input keys are already distinct. */
  lemma {:induction false} UniqueKeepsAllIffDistinct<T>(xs: seq<T>, key: T -> string)
    ensures |Unique(xs, key)| == |xs| <==> DistinctKeys(xs, key)
  {
    if DistinctKeys(xs, key) {
      UniqueOfDistinct(xs, key);
    } else if |xs| > 0 {
      var prefix := xs[..|xs| - 1];
      var last := xs[|xs| - 1];
      UniqueKeepsAllIffDistinct(prefix, key);
      if key(last) !in KeySet(prefix, key) {
        // The duplicate sits inside the prefix, so the prefix already lost an element.
        KeySetMembers(prefix, key, key(last));
        if DistinctKeys(prefix, key) {
          forall i, j | 0 <= i < j < |xs|
            ensures key(xs[i]) != key(xs[j])
          {
            if j < |xs| - 1 { assert xs[i] == prefix[i] && xs[j] == prefix[j]; }
            else { assert xs[i] == prefix[i]; }
          }
          assert false;
        }
      }
    }
  }
}
