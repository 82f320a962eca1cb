/** Sequence and map vocabulary shared by the delivery loop and the chat discovery loop. */
module Collections {

  /** The key of every element of `s`, in order. */
  function KeysOf<T, K>(s: seq<T>, key: T -> K): (ks: seq<K>)
    ensures |ks| == |s|
    ensures forall i :: 0 <= i < |s| ==> ks[i] == key(s[i])
  {
    seq(|s|, i requires 0 <= i < |s| => key(s[i]))
  }

  lemma KeysOfSnoc<T, K>(s: seq<T>, x: T, key: T -> K)
    ensures KeysOf(s + [x], key) == KeysOf(s, key) + [key(x)]
  {
    assert forall i :: 0 <= i < |s| + 1 ==> KeysOf(s + [x], key)[i] == (KeysOf(s, key) + [key(x)])[i];
  }

  predicate NoDuplicates<K(==)>(ks: seq<K>) {
    forall i, j :: 0 <= i < j < |ks| ==> ks[i] != ks[j]
  }

  /** Go's lookup in a `map[K]bool`: a missing key reads as the zero value `false`. */
  predicate IsSet<K>(m: map<K, bool>, k: K) {
    k in m && m[k]
  }

  /** The position of the first occurrence of `k` in `ks`. */
  function FirstIndex<K(==)>(ks: seq<K>, k: K): (i: nat)
    requires k in ks
    ensures i < |ks| && ks[i] == k && k !in ks[..i]
  {
    if ks[0] == k then 0 else 1 + FirstIndex(ks[1..], k)
  }

  lemma FirstIndexSnoc<K>(ks: seq<K>, x: K, k: K)
    requires k in ks
    ensures FirstIndex(ks + [x], k) == FirstIndex(ks, k)
  {
    if ks[0] != k {
      assert (ks + [x])[1..] == ks[1..] + [x];
      FirstIndexSnoc(ks[1..], x, k);
    }
  }

  /**
   * The elements of `s` whose key has not occurred earlier in `s`, in their
   * original order: the first element for every distinct key.
   */
  function DedupBy<T, K(==, !new)>(s: seq<T>, key: T -> K): (r: seq<T>)
    ensures |r| <= |s|
    ensures NoDuplicates(KeysOf(r, key))
    ensures forall k :: k in KeysOf(r, key) <==> k in KeysOf(s, key)
    decreases |s|
  {
    if s == [] then []
    else
      var init, last := s[..|s| - 1], s[|s| - 1];
      var r0 := DedupBy(init, key);
      assert s == init + [last];
      KeysOfSnoc(init, last, key);
      if key(last) in KeysOf(init, key) then r0
      else
        KeysOfSnoc(r0, last, key);
        r0 + [last]
  }

  lemma DedupBySnoc<T, K(!new)>(s: seq<T>, x: T, key: T -> K)
    ensures DedupBy(s + [x], key) == if key(x) in KeysOf(s, key) then DedupBy(s, key) else DedupBy(s, key) + [x]
  {
    assert (s + [x])[..|s|] == s;
  }

  /** Each element kept by DedupBy is the first element of `s` with its key. */
  lemma {:induction false} DedupByKeepsFirst<T, K(!new)>(s: seq<T>, key: T -> K)
    ensures forall j :: 0 <= j < |DedupBy(s, key)| ==>
      var r := DedupBy(s, key);
      key(r[j]) in KeysOf(s, key) && r[j] == s[FirstIndex(KeysOf(s, key), key(r[j]))]
  {
    if s != [] {
      var init, last := s[..|s| - 1], s[|s| - 1];
      assert s == init + [last];
      DedupByKeepsFirst(init, key);
      DedupBySnoc(init, last, key);
      KeysOfSnoc(init, last, key);
      var r0, ks0, ks := DedupBy(init, key), KeysOf(init, key), KeysOf(s, key);
      forall j | 0 <= j < |r0|
        ensures key(r0[j]) in ks && r0[j] == s[FirstIndex(ks, key(r0[j]))]
      {
        FirstIndexSnoc(ks0, key(last), key(r0[j]));
      }
      if key(last) !in ks0 {
        FirstIndexOfNew(ks0, key(last));
      }
    }
  }

  /** Appending a key not yet present puts its first occurrence at the end. */
  lemma FirstIndexOfNew<K>(ks: seq<K>, k: K)
    requires k !in ks
    ensures FirstIndex(ks + [k], k) == |ks|
  {
    var ks' := ks + [k];
    assert ks'[..|ks|] == ks;
  }

  /** DedupBy keeps its elements in the order their keys first occur in `s`. */
  lemma {:induction false} DedupByKeepsOrder<T, K(!new)>(s: seq<T>, key: T -> K)
    ensures forall i, j :: 0 <= i < j < |DedupBy(s, key)| ==>
      var r, ks := DedupBy(s, key), KeysOf(s, key);
      FirstIndex(ks, key(r[i])) < FirstIndex(ks, key(r[j]))
  {
    if s != [] {
      var init, last := s[..|s| - 1], s[|s| - 1];
      assert s == init + [last];
      DedupByKeepsOrder(init, key);
      DedupBySnoc(init, last, key);
      KeysOfSnoc(init, last, key);
      var r0, ks0, ks := DedupBy(init, key), KeysOf(init, key), KeysOf(s, key);
      forall j | 0 <= j < |r0|
        ensures key(r0[j]) in ks0 && FirstIndex(ks, key(r0[j])) == FirstIndex(ks0, key(r0[j])) < |init|
      {
        assert KeysOf(r0, key)[j] == key(r0[j]);
        FirstIndexSnoc(ks0, key(last), key(r0[j]));
      }
      if key(last) !in ks0 {
        FirstIndexOfNew(ks0, key(last));
      }
    }
  }

  /**
   * Each element kept by DedupBy is the first element of `s` with its key,
   * and the kept elements appear in the order their keys first occur in `s`.
   */
  lemma DedupByFirstSeen<T, K(!new)>(s: seq<T>, key: T -> K)
    ensures forall j :: 0 <= j < |DedupBy(s, key)| ==>
      var r := DedupBy(s, key);
      key(r[j]) in KeysOf(s, key) && r[j] == s[FirstIndex(KeysOf(s, key), key(r[j]))]
    ensures forall i, j :: 0 <= i < j < |DedupBy(s, key)| ==>
      var r, ks := DedupBy(s, key), KeysOf(s, key);
      FirstIndex(ks, key(r[i])) < FirstIndex(ks, key(r[j]))
  {
    DedupByKeepsFirst(s, key);
    DedupByKeepsOrder(s, key);
  }

  /**
   * DedupBy skips no key: every key that first occurs in `s` before the key
   * of a kept element is the key of an element kept before it.
   */
  lemma DedupByNoGap<T, K(!new)>(s: seq<T>, key: T -> K)
    ensures forall j, k :: 0 <= j < |DedupBy(s, key)| && 0 <= k < FirstIndex(KeysOf(s, key), key(DedupBy(s, key)[j])) ==>
      KeysOf(s, key)[k] in KeysOf(DedupBy(s, key)[..j], key)
  {
    var r, ks := DedupBy(s, key), KeysOf(s, key);
    DedupByKeepsOrder(s, key);
    forall j, k | 0 <= j < |r| && 0 <= k < FirstIndex(ks, key(r[j]))
      ensures ks[k] in KeysOf(r[..j], key)
    {
      var rs := KeysOf(r, key);
      assert ks[k] in rs;
      var m :| 0 <= m < |rs| && rs[m] == ks[k];
      assert FirstIndex(ks, ks[k]) <= k;
      assert m < j;
      assert KeysOf(r[..j], key)[m] == key(r[m]);
    }
  }

  /** Extending the input only extends the deduplicated output. */
  lemma {:induction false} DedupByExtend<T, K(!new)>(s: seq<T>, t: seq<T>, key: T -> K)
    ensures DedupBy(s, key) <= DedupBy(s + t, key)
    decreases |t|
  {
    if t != [] {
      var t0, last := t[..|t| - 1], t[|t| - 1];
      assert s + t == (s + t0) + [last];
      DedupByExtend(s, t0, key);
      DedupBySnoc(s + t0, last, key);
    } else {
      assert s + t == s;
    }
  }
}
