/** Values and collection helpers shared by the data model and both engines:
    an optional value, reals extended with +infinity, and the list/dict shapes
    the index builds (dict-of-lists by appending, dict by last write, concatenation,
    de-duplication). */
module Common {

  datatype Option<+T> = None | Some(value: T)

  /** A float that is either finite or +infinity (the only non-finite value the core produces). */
  datatype ExtReal = Fin(v: real) | PosInf {

    /** Python's `<=` on two such floats. */
    predicate Le(other: ExtReal) {
      match (this, other)
      case (_, PosInf) => true
      case (PosInf, Fin(_)) => false
      case (Fin(a), Fin(b)) => a <= b
    }
  }

  lemma LeIsTotalPreorder(a: ExtReal, b: ExtReal, c: ExtReal)
    ensures a.Le(a)
    ensures a.Le(b) || b.Le(a)
    ensures a.Le(b) && b.Le(c) ==> a.Le(c)
  {
  }

  ghost predicate Distinct<T>(s: seq<T>) {
    forall i, j :: 0 <= i < j < |s| ==> s[i] != s[j]
  }

  /** The values stored under key `k`, in entry order. */
  function ValuesAt<K(==), V>(entries: seq<(K, V)>, k: K): seq<V>
  {
    if entries == [] then []
    else
      var last := entries[|entries| - 1];
      ValuesAt(entries[..|entries| - 1], k) + (if last.0 == k then [last.1] else [])
  }

  /** A dict of lists filled by `if k not in d: d[k] = []` followed by `d[k].append(v)`,
      one entry at a time. */
  function Group<K(==), V>(entries: seq<(K, V)>): map<K, seq<V>>
  {
    if entries == [] then map[]
    else
      var g := Group(entries[..|entries| - 1]);
      var k := entries[|entries| - 1].0;
      g[k := (if k in g then g[k] else []) + [entries[|entries| - 1].1]]
  }

  /** A key is present exactly when some entry has it, and its list is the entry values
      for that key in order. */
  lemma {:induction false} GroupIsValuesAt<K, V>(entries: seq<(K, V)>, k: K)
    ensures k in Group(entries) <==> ValuesAt(entries, k) != []
    ensures k in Group(entries) ==> Group(entries)[k] == ValuesAt(entries, k)
  {
    if entries != [] {
      GroupIsValuesAt(entries[..|entries| - 1], k);
    }
  }

  lemma {:induction false} InValuesAt<K, V>(entries: seq<(K, V)>, k: K, v: V)
    ensures v in ValuesAt(entries, k) <==> (k, v) in entries
  {
    if entries != [] {
      var init := entries[..|entries| - 1];
      InValuesAt(init, k, v);
      assert entries == init + [entries[|entries| - 1]];
    }
  }

  /** Appending one entry extends the dict of lists by one value. */
  lemma GroupSnoc<K, V>(entries: seq<(K, V)>, k: K, v: V)
    ensures Group(entries + [(k, v)]) ==
      Group(entries)[k := (if k in Group(entries) then Group(entries)[k] else []) + [v]]
  {
    assert (entries + [(k, v)])[..|entries|] == entries;
  }

  /** A dict filled by `d[k] = v`, one entry at a time: later entries overwrite earlier ones. */
  function LastWrite<K(==), V>(entries: seq<(K, V)>): map<K, V>
  {
    if entries == [] then map[]
    else LastWrite(entries[..|entries| - 1])[entries[|entries| - 1].0 := entries[|entries| - 1].1]
  }

  lemma LastWriteSnoc<K, V>(entries: seq<(K, V)>, k: K, v: V)
    ensures LastWrite(entries + [(k, v)]) == LastWrite(entries)[k := v]
  {
    assert (entries + [(k, v)])[..|entries|] == entries;
  }

  /** The key set is the set of entry keys, and the value kept is that of the LAST entry with the key. */
  lemma {:induction false} LastWriteWins<K, V>(entries: seq<(K, V)>, k: K)
    ensures k in LastWrite(entries) <==> exists i :: 0 <= i < |entries| && entries[i].0 == k
    ensures k in LastWrite(entries) ==>
      exists i :: 0 <= i < |entries| && entries[i] == (k, LastWrite(entries)[k]) &&
        forall j :: i < j < |entries| ==> entries[j].0 != k
  {
    if entries != [] {
      var n := |entries| - 1;
      var init := entries[..n];
      LastWriteWins(init, k);
      assert LastWrite(entries) == LastWrite(init)[entries[n].0 := entries[n].1];
      if entries[n].0 == k {
        assert entries[n] == (k, LastWrite(entries)[k]);
      } else {
        assert k in LastWrite(entries) <==> k in LastWrite(init);
        if k in LastWrite(init) {
          var i :| 0 <= i < |init| && init[i] == (k, LastWrite(init)[k]) &&
            forall j :: i < j < |init| ==> init[j].0 != k;
          assert entries[i] == init[i];
          forall j | i < j < |entries| ensures entries[j].0 != k {
            if j < n {
              assert entries[j] == init[j];
            }
          }
        }
        if exists i :: 0 <= i < |entries| && entries[i].0 == k {
          var i :| 0 <= i < |entries| && entries[i].0 == k;
          assert init[i].0 == k;
        }
      }
    }
  }

  /** Concatenation of a list of lists, as `for l in ls: out.extend(l)`. */
  function Flatten<T>(ss: seq<seq<T>>): seq<T>
  {
    if ss == [] then [] else Flatten(ss[..|ss| - 1]) + ss[|ss| - 1]
  }

  lemma FlattenSnoc<T>(ss: seq<seq<T>>, i: nat)
    requires i < |ss|
    ensures Flatten(ss[..i + 1]) == Flatten(ss[..i]) + ss[i]
  {
    assert ss[..i + 1][..i] == ss[..i];
  }

  lemma {:induction false} InFlatten<T>(ss: seq<seq<T>>, x: T)
    ensures x in Flatten(ss) <==> exists i :: 0 <= i < |ss| && x in ss[i]
  {
    if ss != [] {
      var n := |ss| - 1;
      InFlatten(ss[..n], x);
      if exists i :: 0 <= i < |ss| && x in ss[i] {
        var i :| 0 <= i < |ss| && x in ss[i];
        if i < n { assert ss[..n][i] == ss[i]; }
      }
    }
  }

  /** `list(set(s))`: every element once. Python leaves the order of the result unspecified;
      this keeps first occurrences. */
  function Dedup<T(==,!new)>(s: seq<T>): (r: seq<T>)
    ensures Distinct(r)
    ensures forall x :: x in r <==> x in s
    ensures |r| <= |s|
  {
    if s == [] then []
    else
      var r := Dedup(s[..|s| - 1]);
      assert forall x :: x in s <==> x in s[..|s| - 1] || x == s[|s| - 1] by {
        assert s == s[..|s| - 1] + [s[|s| - 1]];
      }
      if s[|s| - 1] in r then r else r + [s[|s| - 1]]
  }

  /** De-duplicating a list that has no repeats leaves it unchanged. */
  lemma {:induction false} DedupOfDistinct<T(!new)>(s: seq<T>)
    requires Distinct(s)
    ensures Dedup(s) == s
  {
    if s != [] {
      var n := |s| - 1;
      DedupOfDistinct(s[..n]);
      assert s[n] !in s[..n];
      assert s == s[..n] + [s[n]];
    }
  }

  /** `list.reverse()`. */
  function Reverse<T>(s: seq<T>): (r: seq<T>)
    ensures |r| == |s|
    ensures forall i :: 0 <= i < |s| ==> r[i] == s[|s| - 1 - i]
  {
    if s == [] then [] else [s[|s| - 1]] + Reverse(s[..|s| - 1])
  }

  /** Reversing keeps every element, as often as it occurs. */
  lemma {:induction false} ReversePermutes<T>(s: seq<T>)
    ensures multiset(Reverse(s)) == multiset(s)
  {
    if s != [] {
      var n := |s| - 1;
      ReversePermutes(s[..n]);
      assert s == s[..n] + [s[n]];
    }
  }

  /** Applies `f` to each element in order: the results when every application succeeds, `None`
      as soon as one fails. */
  function CollectAll<A, B>(xs: seq<A>, f: A -> Option<B>): Option<seq<B>> {
    if xs == [] then Some([])
    else match (CollectAll(xs[..|xs| - 1], f), f(xs[|xs| - 1]))
      case (Some(ys), Some(y)) => Some(ys + [y])
      case _ => None
  }

  /** Collecting succeeds exactly when every application does, and then the i-th result is that
      of the i-th element. */
  lemma {:induction false} CollectAllSpec<A, B>(xs: seq<A>, f: A -> Option<B>)
    ensures CollectAll(xs, f).Some? <==> forall i :: 0 <= i < |xs| ==> f(xs[i]).Some?
    ensures CollectAll(xs, f).Some? ==>
      var ys := CollectAll(xs, f).value;
      |ys| == |xs| && forall i :: 0 <= i < |xs| ==> f(xs[i]) == Some(ys[i])
  {
    if xs != [] {
      var n := |xs| - 1;
      CollectAllSpec(xs[..n], f);
      assert forall i :: 0 <= i < n ==> xs[..n][i] == xs[i];
    }
  }

  lemma CollectAllSnoc<A, B>(xs: seq<A>, x: A, f: A -> Option<B>)
    ensures CollectAll(xs + [x], f) ==
      match (CollectAll(xs, f), f(x)) case (Some(ys), Some(y)) => Some(ys + [y]) case _ => None
  {
    assert (xs + [x])[..|xs|] == xs;
  }
}
