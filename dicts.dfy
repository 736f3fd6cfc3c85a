/**
 * Python's insertion-ordered dict with string keys, as an association list,
 * and the ordered key union that both dict.update and the column set of a
 * DataFrame built from a list of dicts follow.
 */
module Dicts {
  import opened Basics

  type Dict<V> = seq<(string, V)>

  function Keys<V>(d: Dict<V>): seq<string>
  {
    seq(|d|, i requires 0 <= i < |d| => d[i].0)
  }

  predicate Distinct(ks: seq<string>)
  {
    forall i, j :: 0 <= i < j < |ks| ==> ks[i] != ks[j]
  }

  /** d.get(k) */
  function Get<V>(d: Dict<V>, k: string): Option<V>
  {
    if d == [] then None
    else if d[0].0 == k then Some(d[0].1)
    else Get(d[1..], k)
  }

  /** d[k] = v: a key already there keeps its place, a new key goes last. */
  function Put<V>(d: Dict<V>, k: string, v: V): Dict<V>
  {
    if d == [] then [(k, v)]
    else if d[0].0 == k then [(k, v)] + d[1..]
    else [d[0]] + Put(d[1..], k, v)
  }

  /** d.update(e): the entries of e are put into d one by one, in e's order. */
  function Update<V>(d: Dict<V>, e: Dict<V>): Dict<V>
    decreases |e|
  {
    if e == [] then d else Update(Put(d, e[0].0, e[0].1), e[1..])
  }

  /** The key order after setting key k: appended when new, unchanged otherwise. */
  function AddKey(ks: seq<string>, k: string): (r: seq<string>)
    ensures forall x :: x in r <==> x in ks || x == k
  {
    if k in ks then ks else ks + [k]
  }

  /** The key order after setting every key of more, in order. */
  function AddKeys(ks: seq<string>, more: seq<string>): seq<string>
    decreases |more|
  {
    if more == [] then ks else AddKeys(AddKey(ks, more[0]), more[1..])
  }

  lemma {:induction false} GetFindsKeys<V>(d: Dict<V>, k: string)
    ensures Get(d, k).Some? <==> k in Keys(d)
    ensures Get(d, k).Some? ==> (k, Get(d, k).value) in d
  {
    if d != [] {
      assert Keys(d) == [d[0].0] + Keys(d[1..]);
      GetFindsKeys(d[1..], k);
    }
  }

  /** Setting a key changes what that key reads and nothing else. */
  lemma {:induction false} PutLaws<V>(d: Dict<V>, k: string, v: V)
    ensures Keys(Put(d, k, v)) == AddKey(Keys(d), k)
    ensures forall k' :: Get(Put(d, k, v), k') == if k' == k then Some(v) else Get(d, k')
  {
    if d == [] {
      assert Keys(Put(d, k, v)) == [k];
    } else if d[0].0 == k {
      assert Keys(d) == [k] + Keys(d[1..]);
      assert Keys(Put(d, k, v)) == [k] + Keys(d[1..]);
    } else {
      PutLaws(d[1..], k, v);
      assert Keys(d) == [d[0].0] + Keys(d[1..]);
      assert Keys(Put(d, k, v)) == [d[0].0] + Keys(Put(d[1..], k, v));
      assert k in Keys(d) <==> k in Keys(d[1..]);
    }
  }

  /**
   * After d.update(e) a key of e reads e's value and any other key reads d's;
   * the keys are d's followed by e's new ones in e's order.
   */
  lemma {:induction false} UpdateLaws<V>(d: Dict<V>, e: Dict<V>)
    requires Distinct(Keys(e))
    ensures Keys(Update(d, e)) == AddKeys(Keys(d), Keys(e))
    ensures forall k :: Get(Update(d, e), k) == if k in Keys(e) then Get(e, k) else Get(d, k)
    decreases |e|
  {
    if e != [] {
      var d' := Put(d, e[0].0, e[0].1);
      PutLaws(d, e[0].0, e[0].1);
      assert Keys(e[1..]) == Keys(e)[1..];
      assert Keys(e) == [e[0].0] + Keys(e[1..]);
      UpdateLaws(d', e[1..]);
    }
  }

  /**
   * The ordered union keeps ks as its prefix, holds exactly the names of ks
   * and more, and repeats none of them when ks repeats none.
   */
  lemma {:induction false} AddKeysShape(ks: seq<string>, more: seq<string>)
    ensures |AddKeys(ks, more)| >= |ks| && AddKeys(ks, more)[..|ks|] == ks
    ensures forall x :: x in AddKeys(ks, more) <==> x in ks || x in more
    ensures Distinct(ks) ==> Distinct(AddKeys(ks, more))
    decreases |more|
  {
    if more != [] {
      var ks' := AddKey(ks, more[0]);
      AddKeysShape(ks', more[1..]);
      assert ks'[..|ks|] == ks;
      assert forall x :: x in more <==> x == more[0] || x in more[1..];
    }
  }

  /** Names that are all new, and distinct, are appended in their order. */
  lemma {:induction false} AddKeysFresh(ks: seq<string>, more: seq<string>)
    requires Distinct(more) && forall x :: x in more ==> x !in ks
    ensures AddKeys(ks, more) == ks + more
    decreases |more|
  {
    if more != [] {
      assert more[0] !in ks;
      forall x | x in more[1..]
        ensures x !in ks + [more[0]]
      {
        var i :| 0 <= i < |more[1..]| && more[1..][i] == x;
        assert more[i + 1] != more[0];
      }
      AddKeysFresh(ks + [more[0]], more[1..]);
      assert (ks + [more[0]]) + more[1..] == ks + more;
    }
  }

  /** Names that are all present already change nothing. */
  lemma {:induction false} AddKeysKnown(ks: seq<string>, more: seq<string>)
    requires forall x :: x in more ==> x in ks
    ensures AddKeys(ks, more) == ks
    decreases |more|
  {
    if more != [] {
      assert more[0] in ks;
      AddKeysKnown(ks, more[1..]);
    }
  }

  /**
   * The names of cols that are not among names, in order: the keys that
   * d.update(e) adds, and `df.drop(columns=names)` once every name is
   * present, where all copies of those labels go.
   */
  function Without(cols: seq<string>, names: seq<string>): (r: seq<string>)
    ensures forall x :: x in r <==> x in cols && x !in names
  {
    if cols == [] then []
    else (if cols[0] in names then [] else [cols[0]]) + Without(cols[1..], names)
  }

  /** Removing names none of which occurs changes nothing. */
  lemma {:induction false} WithoutNoop(cols: seq<string>, names: seq<string>)
    requires forall x :: x in cols ==> x !in names
    ensures Without(cols, names) == cols
  {
    if cols != [] {
      WithoutNoop(cols[1..], names);
      assert [cols[0]] + cols[1..] == cols;
    }
  }

  /** Two lists of names that agree on cols remove the same names. */
  lemma {:induction false} WithoutSame(cols: seq<string>, a: seq<string>, b: seq<string>)
    requires forall x :: x in cols ==> (x in a <==> x in b)
    ensures Without(cols, a) == Without(cols, b)
  {
    if cols != [] {
      WithoutSame(cols[1..], a, b);
    }
  }

  lemma DistinctTail(more: seq<string>)
    requires Distinct(more) && more != []
    ensures Distinct(more[1..]) && more[0] !in more[1..]
  {
    forall i | 0 <= i < |more[1..]|
      ensures more[1..][i] != more[0]
    {
      assert more[1..][i] == more[i + 1];
    }
  }

  /**
   * Adding distinct names keeps ks and appends the new ones in their
   * order: the key order of d.update(e) and of a DataFrame's columns.
   */
  lemma {:induction false} AddKeysOrder(ks: seq<string>, more: seq<string>)
    requires Distinct(more)
    ensures AddKeys(ks, more) == ks + Without(more, ks)
    decreases |more|
  {
    if more == [] {
      assert ks + [] == ks;
    } else {
      var k := more[0];
      var rest := more[1..];
      var ks' := AddKey(ks, k);
      var added := Without(rest, ks);
      DistinctTail(more);
      AddKeysOrder(ks', rest);
      WithoutSame(rest, ks', ks);
      assert AddKeys(ks', rest) == ks' + added;
      if k in ks {
        assert Without(more, ks) == added;
      } else {
        assert Without(more, ks) == [k] + added;
        assert ks' + added == ks + ([k] + added);
      }
    }
  }
}
