/**
 * Sequences viewed through a key function: the distinct keys in order of first occurrence,
 * the elements that carry one key, the first element that carries it, and the string-keyed
 * JavaScript objects built by appending or counting under each key (whose entries come out
 * in insertion order). The functions are plain definitions; what they guarantee is stated
 * by the lemmas below them.
 */
module KeyedSeqs {
  import opened Wrappers

  predicate NoDuplicates<K(==)>(ks: seq<K>) {
    forall i, j :: 0 <= i < j < |ks| ==> ks[i] != ks[j]
  }

  /** The distinct keys of `xs`, each listed once, at the point where it first occurs. */
  function KeyOrder<T, K(==)>(xs: seq<T>, key: T -> K): seq<K> {
    if xs == [] then []
    else
      var ks, k := KeyOrder(xs[..|xs| - 1], key), key(xs[|xs| - 1]);
      if k in ks then ks else ks + [k]
  }

  /** The elements of `xs` whose key is `k`, in their order in `xs`. */
  function Select<T, K(==)>(xs: seq<T>, key: T -> K, k: K): seq<T> {
    if xs == [] then []
    else
      var x := xs[|xs| - 1];
      Select(xs[..|xs| - 1], key, k) + (if key(x) == k then [x] else [])
  }

  /**
   * The object built by appending each element under its key, as a value:
   * `acc[k] = acc[k] || []; acc[k].push(x)` for each element in turn.
   */
  function Groups<T, K(==)>(xs: seq<T>, key: T -> K): map<K, seq<T>> {
    if xs == [] then map[]
    else
      var g, x := Groups(xs[..|xs| - 1], key), xs[|xs| - 1];
      g[key(x) := (if key(x) in g then g[key(x)] else []) + [x]]
  }

  /** The object built by counting each element under its key: `acc[k] = (acc[k] || 0) + 1`. */
  function Counts<T, K(==)>(xs: seq<T>, key: T -> K): map<K, nat> {
    if xs == [] then map[]
    else
      var c, x := Counts(xs[..|xs| - 1], key), xs[|xs| - 1];
      c[key(x) := (if key(x) in c then c[key(x)] else 0) + 1]
  }

  /** `xs.find(x => key(x) === k)`: the first element whose key is `k`. */
  function FindFirst<T, K(==)>(xs: seq<T>, key: T -> K, k: K): (r: Option<T>)
    ensures r.Some? <==> exists i :: 0 <= i < |xs| && key(xs[i]) == k
    ensures r.Some? ==> exists i :: 0 <= i < |xs| && xs[i] == r.value && key(xs[i]) == k &&
                                    forall j :: 0 <= j < i ==> key(xs[j]) != k
  {
    if xs == [] then None
    else if key(xs[0]) == k then Some(xs[0])
    else
      var r := FindFirst(xs[1..], key, k);
      assert forall i :: 1 <= i < |xs| ==> xs[1..][i - 1] == xs[i];
      r
  }

  // ---------------------------------------------------------------- key order

  /**
   * The listed keys are distinct, every element's key is listed, and every listed key is
   * some element's key.
   */
  lemma {:induction false} KeyOrderMembers<T, K>(xs: seq<T>, key: T -> K)
    ensures NoDuplicates(KeyOrder(xs, key))
    ensures forall i :: 0 <= i < |xs| ==> key(xs[i]) in KeyOrder(xs, key)
    ensures forall j :: 0 <= j < |KeyOrder(xs, key)| ==>
              exists i :: 0 <= i < |xs| && key(xs[i]) == KeyOrder(xs, key)[j]
    decreases |xs|
  {
    if xs != [] {
      var p := xs[..|xs| - 1];
      KeyOrderMembers(p, key);
      assert forall i :: 0 <= i < |p| ==> p[i] == xs[i];
    }
  }

  /** Extending a prefix by one element lists its key at the end if it is new. */
  lemma KeyOrderStep<T, K>(xs: seq<T>, key: T -> K, i: int)
    requires 0 <= i < |xs|
    ensures KeyOrder(xs[..i + 1], key) ==
              if key(xs[i]) in KeyOrder(xs[..i], key) then KeyOrder(xs[..i], key)
              else KeyOrder(xs[..i], key) + [key(xs[i])]
  {
    assert xs[..i + 1][..i] == xs[..i];
  }

  /** The keys of a prefix are listed, in the same order, at the head of the keys of the whole. */
  lemma {:induction false} KeyOrderPrefix<T, K>(xs: seq<T>, key: T -> K, n: nat)
    requires n <= |xs|
    ensures KeyOrder(xs[..n], key) <= KeyOrder(xs, key)
    decreases |xs|
  {
    if n < |xs| {
      var p := xs[..|xs| - 1];
      assert p[..n] == xs[..n];
      KeyOrderPrefix(p, key, n);
    } else {
      assert xs[..n] == xs;
    }
  }

  /**
   * Keys are listed in order of first occurrence: a key that occurs at position m comes
   * before every key that does not occur at or before m.
   */
  lemma KeyOrderFollowsFirstOccurrence<T, K>(xs: seq<T>, key: T -> K, i: int, j: int, m: int)
    requires 0 <= i < |KeyOrder(xs, key)| && 0 <= j < |KeyOrder(xs, key)|
    requires 0 <= m < |xs| && key(xs[m]) == KeyOrder(xs, key)[i]
    requires forall m' :: 0 <= m' <= m ==> key(xs[m']) != KeyOrder(xs, key)[j]
    ensures i < j
  {
    var ks := KeyOrder(xs, key);
    var q := xs[..m + 1];
    var ps := KeyOrder(q, key);
    KeyOrderPrefix(xs, key, m + 1);
    KeyOrderMembers(xs, key);
    KeyOrderMembers(q, key);
    assert q[m] == xs[m];
    assert ks[i] in ps;
    var i' :| 0 <= i' < |ps| && ps[i'] == ks[i];
    assert ks[i'] == ks[i];
  }

  // ---------------------------------------------------------------- selections

  /** A selection holds only elements of `xs` with key `k`, and no more of them than `xs` has. */
  lemma {:induction false} SelectMembers<T, K>(xs: seq<T>, key: T -> K, k: K)
    ensures |Select(xs, key, k)| <= |xs|
    ensures forall j :: 0 <= j < |Select(xs, key, k)| ==>
              Select(xs, key, k)[j] in xs && key(Select(xs, key, k)[j]) == k
    decreases |xs|
  {
    if xs != [] {
      var p := xs[..|xs| - 1];
      SelectMembers(p, key, k);
      assert forall j :: 0 <= j < |p| ==> p[j] == xs[j];
    }
  }

  /** Every element belongs to the selection of its own key. */
  lemma {:induction false} SelectComplete<T, K>(xs: seq<T>, key: T -> K, i: int)
    requires 0 <= i < |xs|
    ensures xs[i] in Select(xs, key, key(xs[i]))
    decreases |xs|
  {
    var p := xs[..|xs| - 1];
    if i < |xs| - 1 {
      SelectComplete(p, key, i);
      assert p[i] == xs[i];
    }
  }

  /** A key's selection is non-empty exactly when the key is listed. */
  lemma SelectNonEmpty<T, K>(xs: seq<T>, key: T -> K, k: K)
    ensures |Select(xs, key, k)| > 0 <==> k in KeyOrder(xs, key)
  {
  }

  /** Within one key, the selection from a prefix is a prefix of the selection from the whole. */
  lemma {:induction false} SelectPrefix<T, K>(xs: seq<T>, key: T -> K, k: K, n: nat)
    requires n <= |xs|
    ensures Select(xs[..n], key, k) <= Select(xs, key, k)
    decreases |xs|
  {
    if n < |xs| {
      var p := xs[..|xs| - 1];
      assert p[..n] == xs[..n];
      SelectPrefix(p, key, k, n);
    } else {
      assert xs[..n] == xs;
    }
  }

  /** The total size of the selections of the keys `ks`. */
  function SelectedCount<T, K(==)>(ks: seq<K>, xs: seq<T>, key: T -> K): nat {
    if ks == [] then 0
    else SelectedCount(ks[..|ks| - 1], xs, key) + |Select(xs, key, ks[|ks| - 1])|
  }

  lemma {:induction false} SelectedCountAppend<T, K>(ks: seq<K>, p: seq<T>, x: T, key: T -> K)
    requires NoDuplicates(ks)
    ensures SelectedCount(ks, p + [x], key) == SelectedCount(ks, p, key) + (if key(x) in ks then 1 else 0)
    decreases |ks|
  {
    if ks != [] {
      var q, k := ks[..|ks| - 1], ks[|ks| - 1];
      assert (p + [x])[..|p|] == p;
      assert ks == q + [k];
      SelectedCountAppend(q, p, x, key);
    }
  }

  /**
   * The selections of the listed keys partition the sequence: their sizes add up to its
   * length, so no element is lost or counted twice.
   */
  lemma {:induction false} SelectionsPartition<T, K>(xs: seq<T>, key: T -> K)
    ensures SelectedCount(KeyOrder(xs, key), xs, key) == |xs|
    decreases |xs|
  {
    if xs != [] {
      var p, x := xs[..|xs| - 1], xs[|xs| - 1];
      var ks := KeyOrder(p, key);
      assert xs == p + [x];
      KeyOrderMembers(p, key);
      SelectionsPartition(p, key);
      SelectedCountAppend(ks, p, x, key);
      if key(x) !in ks {
        SelectNonEmpty(p, key, key(x));
        assert (ks + [key(x)])[..|ks|] == ks;
      }
    }
  }

  // ---------------------------------------------------------------- the built objects

  /** The appended object's keys are the listed keys. */
  lemma {:induction false} GroupsKeys<T, K>(xs: seq<T>, key: T -> K)
    ensures forall k :: k in Groups(xs, key) <==> k in KeyOrder(xs, key)
    decreases |xs|
  {
    if xs != [] {
      GroupsKeys(xs[..|xs| - 1], key);
    }
  }

  /** Extending a prefix by one element appends it under its key. */
  lemma GroupsStep<T, K>(xs: seq<T>, key: T -> K, i: int)
    requires 0 <= i < |xs|
    ensures var g, k := Groups(xs[..i], key), key(xs[i]);
            Groups(xs[..i + 1], key) == g[k := (if k in g then g[k] else []) + [xs[i]]]
  {
    assert xs[..i + 1][..i] == xs[..i];
  }

  /** Extending a prefix by one element counts it under its key. */
  lemma CountsStep<T, K>(xs: seq<T>, key: T -> K, i: int)
    requires 0 <= i < |xs|
    ensures var c, k := Counts(xs[..i], key), key(xs[i]);
            Counts(xs[..i + 1], key) == c[k := (if k in c then c[k] else 0) + 1]
  {
    assert xs[..i + 1][..i] == xs[..i];
  }

  /** The counted object's keys are the listed keys. */
  lemma {:induction false} CountsKeys<T, K>(xs: seq<T>, key: T -> K)
    ensures forall k :: k in Counts(xs, key) <==> k in KeyOrder(xs, key)
    decreases |xs|
  {
    if xs != [] {
      CountsKeys(xs[..|xs| - 1], key);
    }
  }

  /** Each key of the appended object holds exactly that key's selection. */
  lemma {:induction false} GroupsAreSelections<T, K>(xs: seq<T>, key: T -> K, k: K)
    requires k in Groups(xs, key)
    ensures Groups(xs, key)[k] == Select(xs, key, k)
    decreases |xs|
  {
    var p, x := xs[..|xs| - 1], xs[|xs| - 1];
    if k in Groups(p, key) {
      GroupsAreSelections(p, key, k);
    } else {
      GroupsKeys(p, key);
      SelectNonEmpty(p, key, k);
    }
  }

  /** Each key of the counted object holds the size of that key's selection. */
  lemma {:induction false} CountsAreSelectionSizes<T, K>(xs: seq<T>, key: T -> K, k: K)
    requires k in Counts(xs, key)
    ensures Counts(xs, key)[k] == |Select(xs, key, k)|
    decreases |xs|
  {
    var p, x := xs[..|xs| - 1], xs[|xs| - 1];
    if k in Counts(p, key) {
      CountsAreSelectionSizes(p, key, k);
    } else {
      CountsKeys(p, key);
      SelectNonEmpty(p, key, k);
    }
  }
}
