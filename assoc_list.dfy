/** Ordered string-keyed dictionaries with the semantics of a JavaScript plain
    object: keys are distinct, enumeration follows insertion order, assigning to
    an existing key replaces its value where it stands, and assigning to a new
    key appends it.  `Extend` is `angular.extend(target, source)`: the entries
    of `source` are assigned into `target` one by one, in `source` order. */
module AssocList {

  import opened Options

  /** The keys of `l`, in enumeration order. */
  function Keys<V>(l: seq<(string, V)>): (ks: seq<string>)
    ensures |ks| == |l|
    ensures forall i :: 0 <= i < |l| ==> ks[i] == l[i].0
  {
    seq(|l|, i requires 0 <= i < |l| => l[i].0)
  }

  /** Every key occurs once: what every JavaScript object satisfies. */
  ghost predicate DistinctKeys<V>(l: seq<(string, V)>)
  {
    forall i, j :: 0 <= i < j < |l| ==> l[i].0 != l[j].0
  }

  /** `obj[k]`: the value bound to `k`, or None when `k` is not a key. */
  function Lookup<V>(l: seq<(string, V)>, k: string): (r: Option<V>)
    ensures r.None? <==> k !in Keys(l)
    ensures r.Some? ==> (k, r.value) in l
  {
    if l == [] then None
    else if l[0].0 == k then Some(l[0].1)
    else Lookup(l[1..], k)
  }

  /** `obj[k] = v`. */
  function Set<V>(l: seq<(string, V)>, k: string, v: V): (r: seq<(string, V)>)
  {
    if l == [] then [(k, v)]
    else if l[0].0 == k then [(k, v)] + l[1..]
    else [l[0]] + Set(l[1..], k, v)
  }

  /** `angular.extend(target, source)`. */
  function Extend<V>(target: seq<(string, V)>, source: seq<(string, V)>): (r: seq<(string, V)>)
    decreases |source|
  {
    if source == [] then target
    else Extend(Set(target, source[0].0, source[0].1), source[1..])
  }

  /** The keys of `ks` followed by those of `more` not seen before, in order:
      the key order an object ends with after assigning the keys of `more`. */
  function AppendNew(ks: seq<string>, more: seq<string>): seq<string>
    decreases |more|
  {
    if more == [] then ks
    else AppendNew(if more[0] in ks then ks else ks + [more[0]], more[1..])
  }

  /** Assignment binds `k` to `v` and leaves every other key alone. */
  lemma {:induction false} SetLookup<V>(l: seq<(string, V)>, k: string, v: V, k': string)
    ensures Lookup(Set(l, k, v), k') == if k' == k then Some(v) else Lookup(l, k')
  {
    if l != [] && l[0].0 != k {
      SetLookup(l[1..], k, v, k');
    }
  }

  /** Assignment keeps the position of an existing key and appends a new one. */
  lemma {:induction false} SetKeys<V>(l: seq<(string, V)>, k: string, v: V)
    ensures Keys(Set(l, k, v)) == if k in Keys(l) then Keys(l) else Keys(l) + [k]
  {
    if l == [] {
    } else if l[0].0 == k {
      assert Keys(Set(l, k, v)) == Keys(l);
    } else {
      SetKeys(l[1..], k, v);
      assert Keys(l) == [l[0].0] + Keys(l[1..]);
      assert Keys(Set(l, k, v)) == [l[0].0] + Keys(Set(l[1..], k, v));
    }
  }

  /** Distinct keys depend on the key sequence alone. */
  lemma DistinctByKeys<V>(l: seq<(string, V)>, l': seq<(string, V)>)
    requires Keys(l) == Keys(l') && DistinctKeys(l)
    ensures DistinctKeys(l')
  {
    forall i, j | 0 <= i < j < |l'| ensures l'[i].0 != l'[j].0 {
      assert Keys(l)[i] == l'[i].0 && Keys(l)[j] == l'[j].0;
    }
  }

  /** Assignment never creates a second binding for a key. */
  lemma SetDistinct<V>(l: seq<(string, V)>, k: string, v: V)
    requires DistinctKeys(l)
    ensures DistinctKeys(Set(l, k, v))
  {
    SetKeys(l, k, v);
    var r := Set(l, k, v);
    if k !in Keys(l) {
      forall i, j | 0 <= i < j < |r| ensures r[i].0 != r[j].0 {
        assert Keys(r)[i] == r[i].0 && Keys(r)[j] == r[j].0;
        if j < |l| {
          assert Keys(l)[i] == l[i].0 && Keys(l)[j] == l[j].0;
        }
      }
    } else {
      DistinctByKeys(l, r);
    }
  }

  /** After `angular.extend(target, source)` a key of `source` holds its value
      from `source` (the source wins every clash); any other key keeps its value
      from `target`. */
  lemma {:induction false} ExtendLookup<V>(target: seq<(string, V)>, source: seq<(string, V)>, k: string)
    requires DistinctKeys(source)
    ensures Lookup(Extend(target, source), k) ==
              if k in Keys(source) then Lookup(source, k) else Lookup(target, k)
    decreases |source|
  {
    if source != [] {
      var (k0, v0) := source[0];
      SetLookup(target, k0, v0, k);
      assert DistinctKeys(source[1..]) by {
        forall i, j | 0 <= i < j < |source| - 1 ensures source[1..][i].0 != source[1..][j].0 {
          assert source[i + 1].0 != source[j + 1].0;
        }
      }
      ExtendLookup(Set(target, k0, v0), source[1..], k);
      assert Keys(source) == [k0] + Keys(source[1..]);
      if k == k0 {
        assert k0 !in Keys(source[1..]) by {
          forall j | 0 <= j < |source| - 1 ensures Keys(source[1..])[j] != k0 {
            assert source[0].0 != source[j + 1].0;
          }
        }
      }
    }
  }

  /** The key order after `angular.extend`: the target's keys where they were,
      then the source's new keys in source order; distinct keys stay distinct. */
  lemma {:induction false} ExtendKeys<V>(target: seq<(string, V)>, source: seq<(string, V)>)
    ensures Keys(Extend(target, source)) == AppendNew(Keys(target), Keys(source))
    ensures DistinctKeys(target) ==> DistinctKeys(Extend(target, source))
    decreases |source|
  {
    if source != [] {
      SetKeys(target, source[0].0, source[0].1);
      if DistinctKeys(target) { SetDistinct(target, source[0].0, source[0].1); }
      ExtendKeys(Set(target, source[0].0, source[0].1), source[1..]);
      assert Keys(source)[1..] == Keys(source[1..]);
    }
  }

  /** The keys present after `angular.extend` are those of target and source. */
  lemma {:induction false} ExtendKeySet<V>(target: seq<(string, V)>, source: seq<(string, V)>, k: string)
    ensures k in Keys(Extend(target, source)) <==> k in Keys(target) || k in Keys(source)
    decreases |source|
  {
    if source != [] {
      SetKeys(target, source[0].0, source[0].1);
      ExtendKeySet(Set(target, source[0].0, source[0].1), source[1..], k);
      assert Keys(source) == [source[0].0] + Keys(source[1..]);
    }
  }
}
