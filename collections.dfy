/** Ordered-search and duplicate-freedom notions shared by the pattern database and the list collector. */
module Collections {
  import opened Wrappers

  /**
   * The position of the first element of `s` that satisfies `hit`, scanning from `i`:
   * the first-match-wins search every pattern query performs.
   */
  function FirstIndexFrom<T>(s: seq<T>, hit: T -> bool, i: nat): (r: Option<nat>)
    requires i <= |s|
    ensures r.Some? ==> i <= r.value < |s| && hit(s[r.value])
    ensures r.Some? ==> forall j :: i <= j < r.value ==> !hit(s[j])
    ensures r.None? ==> forall j :: i <= j < |s| ==> !hit(s[j])
    decreases |s| - i
  {
    if i == |s| then None
    else if hit(s[i]) then Some(i)
    else FirstIndexFrom(s, hit, i + 1)
  }

  function FirstIndex<T>(s: seq<T>, hit: T -> bool): (r: Option<nat>)
    ensures r.Some? ==> r.value < |s| && hit(s[r.value])
    ensures r.Some? ==> forall j :: 0 <= j < r.value ==> !hit(s[j])
    ensures r.None? ==> forall j :: 0 <= j < |s| ==> !hit(s[j])
  {
    FirstIndexFrom(s, hit, 0)
  }

  /** The first element of `s` that satisfies `hit`, if any. */
  function FirstWhere<T>(s: seq<T>, hit: T -> bool): (r: Option<T>)
    ensures r.None? <==> forall j :: 0 <= j < |s| ==> !hit(s[j])
    ensures r.Some? ==> exists k :: 0 <= k < |s| && s[k] == r.value && hit(s[k]) && forall j :: 0 <= j < k ==> !hit(s[j])
  {
    match FirstIndex(s, hit)
    case Some(k) => Some(s[k])
    case None => None
  }

  predicate NoDuplicates<T(==)>(s: seq<T>) {
    forall i, j :: 0 <= i < j < |s| ==> s[i] != s[j]
  }

  /** The map built by assigning `key(x) := val(x)` for each `x` of `xs` in order. */
  function AssignAll<T, K, V>(xs: seq<T>, key: T -> K, val: T -> V): map<K, V> {
    if xs == [] then map[]
    else AssignAll(xs[..|xs| - 1], key, val)[key(xs[|xs| - 1]) := val(xs[|xs| - 1])]
  }

  /** Some element of `xs` has key `k`. */
  ghost predicate HasKey<T, K>(xs: seq<T>, key: T -> K, k: K) {
    exists i :: 0 <= i < |xs| && key(xs[i]) == k
  }

  /** A key is assigned exactly when some element carries it. */
  lemma {:induction false} AssignAllKeys<T, K, V>(xs: seq<T>, key: T -> K, val: T -> V, k: K)
    ensures k in AssignAll(xs, key, val) <==> HasKey(xs, key, k)
    decreases |xs|
  {
    if xs != [] {
      var n := |xs| - 1;
      var init := xs[..n];
      AssignAllKeys(init, key, val, k);
      if key(xs[n]) == k {
        assert HasKey(xs, key, k);
      } else {
        if HasKey(init, key, k) {
          var i :| 0 <= i < |init| && key(init[i]) == k;
          assert xs[i] == init[i];
        }
        if HasKey(xs, key, k) {
          var i :| 0 <= i < |xs| && key(xs[i]) == k;
          assert i != n;
          assert init[i] == xs[i];
        }
      }
    }
  }

  /** Later assignments win: a key holds the value of the last element that carries it. */
  lemma {:induction false} AssignAllLastWins<T, K, V>(xs: seq<T>, key: T -> K, val: T -> V, i: nat)
    requires i < |xs|
    requires forall j :: i < j < |xs| ==> key(xs[j]) != key(xs[i])
    ensures key(xs[i]) in AssignAll(xs, key, val)
    ensures AssignAll(xs, key, val)[key(xs[i])] == val(xs[i])
    decreases |xs|
  {
    if i < |xs| - 1 {
      var init := xs[..|xs| - 1];
      assert init[i] == xs[i];
      AssignAllLastWins(init, key, val, i);
    }
  }
}
