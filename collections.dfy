/** Sequence and map helpers shared by the extractor's accumulation loops. */
module Collections {

  predicate NoDuplicates<T(==)>(s: seq<T>)
  {
    forall i, j :: 0 <= i < j < |s| ==> s[i] != s[j]
  }

  function Elements<T>(s: seq<T>): set<T>
  {
    set x | x in s
  }

  /**
   * The dictionary left behind by assigning `d[k] = v` for every binding in order,
   * starting from an empty dictionary: a later binding overwrites an earlier one.
   */
  function LastWins<K, V>(bindings: seq<(K, V)>): map<K, V>
  {
    if bindings == [] then map[]
    else
      var last := bindings[|bindings| - 1];
      LastWins(bindings[..|bindings| - 1])[last.0 := last.1]
  }

  /** A key is bound exactly when some binding names it. */
  lemma {:induction false} LastWinsKeys<K, V>(bindings: seq<(K, V)>, k: K)
    ensures k in LastWins(bindings) <==> exists i :: 0 <= i < |bindings| && bindings[i].0 == k
  {
    if bindings != [] {
      var init := bindings[..|bindings| - 1];
      LastWinsKeys(init, k);
      if k in LastWins(init) {
        var i :| 0 <= i < |init| && init[i].0 == k;
        assert bindings[i].0 == k;
      }
      if exists i :: 0 <= i < |bindings| && bindings[i].0 == k {
        var i :| 0 <= i < |bindings| && bindings[i].0 == k;
        if i < |init| {
          assert init[i].0 == k;
        }
      }
    }
  }

  /** A key maps to the value of the last binding that names it. */
  lemma {:induction false} LastWinsValue<K, V>(bindings: seq<(K, V)>, i: nat)
    requires i < |bindings|
    requires forall j :: i < j < |bindings| ==> bindings[j].0 != bindings[i].0
    ensures bindings[i].0 in LastWins(bindings)
    ensures LastWins(bindings)[bindings[i].0] == bindings[i].1
  {
    var init := bindings[..|bindings| - 1];
    if i < |init| {
      LastWinsValue(init, i);
    }
  }

  /** Every entry of the dictionary is one of the bindings. */
  lemma {:induction false} LastWinsBinding<K, V>(bindings: seq<(K, V)>, k: K)
    requires k in LastWins(bindings)
    ensures (k, LastWins(bindings)[k]) in bindings
  {
    var init := bindings[..|bindings| - 1];
    var last := bindings[|bindings| - 1];
    if k != last.0 {
      LastWinsBinding(init, k);
      assert (k, LastWins(init)[k]) in init;
    }
  }

  /** One more assignment updates its key and nothing else. */
  lemma {:induction false} LastWinsSnoc<K, V>(bindings: seq<(K, V)>, k: K, v: V)
    ensures LastWins(bindings + [(k, v)]) == LastWins(bindings)[k := v]
  {
    assert (bindings + [(k, v)])[..|bindings|] == bindings;
  }

  /** Assignments to other keys leave a key's presence and value as they were. */
  lemma {:induction false} LastWinsKeep<K, V>(bindings: seq<(K, V)>, extra: seq<(K, V)>, k: K)
    requires forall m :: 0 <= m < |extra| ==> extra[m].0 != k
    ensures k in LastWins(bindings + extra) <==> k in LastWins(bindings)
    ensures k in LastWins(bindings) ==> LastWins(bindings + extra)[k] == LastWins(bindings)[k]
    decreases |extra|
  {
    if extra != [] {
      var init, last := extra[..|extra| - 1], extra[|extra| - 1];
      assert bindings + extra == (bindings + init) + [last];
      LastWinsSnoc(bindings + init, last.0, last.1);
      LastWinsKeep(bindings, init, k);
    } else {
      assert bindings + extra == bindings;
    }
  }

  /** The bindings `(key(x), value(x))` of the elements that `keep` accepts, in order. */
  function SelectedBindings<T, K, V>(xs: seq<T>, keep: T -> bool, key: T -> K, value: T -> V): seq<(K, V)>
  {
    if xs == [] then []
    else
      var x := xs[|xs| - 1];
      SelectedBindings(xs[..|xs| - 1], keep, key, value) + (if keep(x) then [(key(x), value(x))] else [])
  }

  /** One more element either leaves the dictionary as it was or binds its key to its value. */
  lemma SelectedSnoc<T, K, V>(xs: seq<T>, keep: T -> bool, key: T -> K, value: T -> V)
    requires xs != []
    ensures var init, x := xs[..|xs| - 1], xs[|xs| - 1];
      LastWins(SelectedBindings(xs, keep, key, value))
        == if keep(x) then LastWins(SelectedBindings(init, keep, key, value))[key(x) := value(x)]
           else LastWins(SelectedBindings(init, keep, key, value))
  {
    var init, x := xs[..|xs| - 1], xs[|xs| - 1];
    var before := SelectedBindings(init, keep, key, value);
    if keep(x) {
      assert (before + [(key(x), value(x))])[..|before|] == before;
    } else {
      assert SelectedBindings(xs, keep, key, value) == before;
    }
  }

  /** Every entry of the dictionary comes from an accepted element with that key and that value. */
  lemma {:induction false} SelectedSource<T, K, V>(xs: seq<T>, keep: T -> bool, key: T -> K, value: T -> V, k: K)
    requires k in LastWins(SelectedBindings(xs, keep, key, value))
    ensures exists i :: 0 <= i < |xs| && keep(xs[i]) && key(xs[i]) == k
                        && LastWins(SelectedBindings(xs, keep, key, value))[k] == value(xs[i])
  {
    var n := |xs|;
    var init, x := xs[..n - 1], xs[n - 1];
    SelectedSnoc(xs, keep, key, value);
    if keep(x) && key(x) == k {
      assert keep(xs[n - 1]) && key(xs[n - 1]) == k;
    } else {
      SelectedSource(init, keep, key, value, k);
      var i :| 0 <= i < |init| && keep(init[i]) && key(init[i]) == k
               && LastWins(SelectedBindings(init, keep, key, value))[k] == value(init[i]);
      assert init[i] == xs[i];
    }
  }

  /** An accepted element that no later accepted element overrides gives its key its value. */
  lemma {:induction false} SelectedLastWins<T, K, V>(xs: seq<T>, keep: T -> bool, key: T -> K, value: T -> V, i: nat)
    requires i < |xs| && keep(xs[i])
    requires forall j :: i < j < |xs| && keep(xs[j]) ==> key(xs[j]) != key(xs[i])
    ensures key(xs[i]) in LastWins(SelectedBindings(xs, keep, key, value))
    ensures LastWins(SelectedBindings(xs, keep, key, value))[key(xs[i])] == value(xs[i])
  {
    var n := |xs|;
    var init := xs[..n - 1];
    SelectedSnoc(xs, keep, key, value);
    if i < n - 1 {
      assert init[i] == xs[i];
      forall j | i < j < |init| && keep(init[j])
        ensures key(init[j]) != key(init[i])
      {
        assert init[j] == xs[j];
      }
      SelectedLastWins(init, keep, key, value, i);
    }
  }

  /** Every accepted element's key is bound. */
  lemma {:induction false} SelectedHasKey<T, K, V>(xs: seq<T>, keep: T -> bool, key: T -> K, value: T -> V, i: nat)
    requires i < |xs| && keep(xs[i])
    ensures key(xs[i]) in LastWins(SelectedBindings(xs, keep, key, value))
  {
    var n := |xs|;
    var init := xs[..n - 1];
    SelectedSnoc(xs, keep, key, value);
    if i < n - 1 {
      assert init[i] == xs[i];
      SelectedHasKey(init, keep, key, value, i);
    }
  }

  /** Two bindings leave exactly their two keys. */
  lemma LastWinsPairKeys<K, V>(ka: K, va: V, kb: K, vb: V)
    ensures LastWins([(ka, va), (kb, vb)]).Keys == {ka, kb}
  {
    var one, two := [(ka, va)], [(ka, va), (kb, vb)];
    assert one[..0] == [] && two[..1] == one;
    assert LastWins(one) == map[][ka := va];
  }

  /** A list is empty exactly when it has no members. */
  lemma {:induction false} ElementsEmpty<T>(s: seq<T>)
    ensures Elements(s) == {} <==> s == []
  {
    if s != [] {
      assert s[0] in Elements(s);
    }
  }
}
