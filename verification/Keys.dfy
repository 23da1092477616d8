/** Repeated keys: the check duplicateKeys makes for every kind of manifest spec. */
module Keys {

  predicate Distinct<T(==)>(keys: seq<T>) {
    forall i, j | 0 <= i < j < |keys| :: keys[i] != keys[j]
  }

  predicate Repeated<T(==)>(keys: seq<T>, key: T) {
    exists i, j | 0 <= i < j < |keys| :: keys[i] == key && keys[j] == key
  }

  /** The occurrences of keys that repeat an earlier one, in order. */
  function Repeats<T(==)>(keys: seq<T>): seq<T> {
    if keys == [] then []
    else
      var init, last := keys[..|keys| - 1], keys[|keys| - 1];
      Repeats(init) + if last in init then [last] else []
  }

  lemma DistinctSplits<T>(keys: seq<T>)
    requires keys != []
    ensures Distinct(keys) <==> Distinct(keys[..|keys| - 1]) && keys[|keys| - 1] !in keys[..|keys| - 1]
  {
    var init, last := keys[..|keys| - 1], keys[|keys| - 1];
    if last in init {
      var i :| 0 <= i < |init| && init[i] == last;
      assert keys[i] == keys[|keys| - 1];
    }
  }

  lemma {:induction false} NoRepeatsMeansDistinct<T>(keys: seq<T>)
    ensures Repeats(keys) == [] <==> Distinct(keys)
  {
    if keys != [] {
      NoRepeatsMeansDistinct(keys[..|keys| - 1]);
      DistinctSplits(keys);
    }
  }

  lemma RepeatedOneMore<T>(keys: seq<T>, last: T, key: T)
    ensures Repeated(keys + [last], key) <==> Repeated(keys, key) || (key == last && last in keys)
  {
    var longer := keys + [last];
    if key == last && last in keys {
      var i :| 0 <= i < |keys| && keys[i] == last;
      assert longer[i] == key && longer[|keys|] == key;
    }
    if Repeated(keys, key) {
      var i, j :| 0 <= i < j < |keys| && keys[i] == key && keys[j] == key;
      assert longer[i] == key && longer[j] == key;
    }
  }

  lemma {:induction false} RepeatsAreRepeated<T>(keys: seq<T>, key: T)
    ensures key in Repeats(keys) <==> Repeated(keys, key)
  {
    if keys != [] {
      var init, last := keys[..|keys| - 1], keys[|keys| - 1];
      RepeatsAreRepeated(init, key);
      RepeatedOneMore(init, last, key);
      assert keys == init + [last];
    }
  }

  /** duplicateKeys: one problem for each repeated occurrence; none exactly when the keys are distinct. */
  method DuplicateKeys<T(==)>(keys: seq<T>) returns (problems: seq<T>)
    ensures problems == Repeats(keys)
    ensures problems == [] <==> Distinct(keys)
  {
    var seen: map<T, bool> := map[];
    problems := [];
    for i := 0 to |keys|
      invariant forall k :: k in seen <==> k in keys[..i]
      invariant problems == Repeats(keys[..i])
    {
      assert keys[..i + 1][..i] == keys[..i];
      if keys[i] in seen {
        problems := problems + [keys[i]];
      }
      seen := seen[keys[i] := true];
    }
    assert keys[..|keys|] == keys;
    NoRepeatsMeansDistinct(keys);
  }
}
