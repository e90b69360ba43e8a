/** Attribute maps (Java's Map<String, String> of a text chunk) as association lists
    with unique keys. The list order is the order in which keys were first inserted;
    it stands for the map's iteration order. */
module AttrMaps {

  type AttrList = seq<(string, string)>

  predicate UniqueKeys(l: AttrList)
  {
    forall i, j :: 0 <= i < j < |l| ==> l[i].0 != l[j].0
  }

  /** The keys of `l`, in order. */
  function KeySeq(l: AttrList): (ks: seq<string>)
    ensures |ks| == |l| && forall i :: 0 <= i < |l| ==> ks[i] == l[i].0
    decreases |l|
  {
    if l == [] then [] else [l[0].0] + KeySeq(l[1..])
  }

  /** The map an association list denotes (the first entry for a key wins). */
  function ToMap(l: AttrList): map<string, string>
    decreases |l|
  {
    if l == [] then map[] else ToMap(l[1..])[l[0].0 := l[0].1]
  }

  /** The map's keys are exactly the list's keys. */
  lemma {:induction false} ToMapKeys(l: AttrList)
    ensures forall k :: k in ToMap(l) <==> k in KeySeq(l)
    decreases |l|
  {
    if l != [] {
      ToMapKeys(l[1..]);
      assert KeySeq(l) == [l[0].0] + KeySeq(l[1..]);
    }
  }

  /** The first entry for a key gives its value; with unique keys, every entry does. */
  lemma {:induction false} ToMapAt(l: AttrList, i: nat)
    requires i < |l| && forall j :: 0 <= j < i ==> l[j].0 != l[i].0
    ensures l[i].0 in ToMap(l) && ToMap(l)[l[i].0] == l[i].1
    decreases i
  {
    if i > 0 {
      ToMapAt(l[1..], i - 1);
    }
  }

  /** Map.put: the value of an existing key is replaced where it stands; a new key is
      appended at the end of the iteration order. */
  function Put(l: AttrList, k: string, v: string): (r: AttrList)
    ensures ToMap(r) == ToMap(l)[k := v]
    ensures k in KeySeq(l) ==> KeySeq(r) == KeySeq(l)
    ensures k !in KeySeq(l) ==> r == l + [(k, v)]
    decreases |l|
  {
    if l == [] then [(k, v)]
    else if l[0].0 == k then
      var r := [(k, v)] + l[1..];
      assert r[1..] == l[1..];
      assert KeySeq(r) == [k] + KeySeq(l[1..]) == KeySeq(l);
      assert ToMap(r) == ToMap(l[1..])[k := v];
      UpdateTwice(ToMap(l[1..]), k, l[0].1, v);
      r
    else
      var rest := Put(l[1..], k, v);
      var r := [l[0]] + rest;
      assert r[1..] == rest;
      assert KeySeq(l) == [l[0].0] + KeySeq(l[1..]);
      assert KeySeq(r) == [l[0].0] + KeySeq(rest);
      assert ToMap(r) == ToMap(rest)[l[0].0 := l[0].1];
      UpdatesCommute(ToMap(l[1..]), k, v, l[0].0, l[0].1);
      assert k !in KeySeq(l) ==> r == l + [(k, v)] by {
        if k !in KeySeq(l) {
          assert k !in KeySeq(l[1..]);
          assert [l[0]] + (l[1..] + [(k, v)]) == l + [(k, v)];
        }
      }
      r
  }

  lemma UpdateTwice(m: map<string, string>, k: string, v0: string, v: string)
    ensures m[k := v0][k := v] == m[k := v]
  {
  }

  lemma UpdatesCommute(m: map<string, string>, k: string, v: string, a: string, b: string)
    requires k != a
    ensures m[k := v][a := b] == m[a := b][k := v]
  {
  }

  /** Putting keeps the keys unique. */
  lemma PutKeepsUnique(l: AttrList, k: string, v: string)
    requires UniqueKeys(l)
    ensures UniqueKeys(Put(l, k, v))
  {
    var r := Put(l, k, v);
    if k in KeySeq(l) {
      forall i, j | 0 <= i < j < |r| ensures r[i].0 != r[j].0 {
        assert r[i].0 == KeySeq(r)[i] == KeySeq(l)[i];
        assert r[j].0 == KeySeq(r)[j] == KeySeq(l)[j];
      }
    }
  }

  /** The map after putting each pair of `pairs` into `m`, in order. */
  function PutAll(m: map<string, string>, pairs: seq<(string, string)>): map<string, string>
    decreases |pairs|
  {
    if pairs == [] then m
    else PutAll(m, pairs[..|pairs| - 1])[pairs[|pairs| - 1].0 := pairs[|pairs| - 1].1]
  }

  /** After putting a sequence of pairs, a key maps to the value of its LAST pair; a key
      with no pair keeps its old value (or stays absent). */
  lemma {:induction false} PutAllLastWins(m: map<string, string>, pairs: seq<(string, string)>, k: string)
    ensures (exists j :: 0 <= j < |pairs| && pairs[j].0 == k) ==>
              var j := LastIndexOf(pairs, k);
              k in PutAll(m, pairs) && PutAll(m, pairs)[k] == pairs[j].1
    ensures (forall j :: 0 <= j < |pairs| ==> pairs[j].0 != k) ==>
              (k in PutAll(m, pairs) <==> k in m) && (k in m ==> PutAll(m, pairs)[k] == m[k])
    decreases |pairs|
  {
    if pairs != [] {
      var init := pairs[..|pairs| - 1];
      PutAllLastWins(m, init, k);
      if pairs[|pairs| - 1].0 != k {
        if exists j :: 0 <= j < |pairs| && pairs[j].0 == k {
          var j :| 0 <= j < |pairs| && pairs[j].0 == k;
          assert init[j].0 == k;
        }
        forall j | 0 <= j < |init| && init[j].0 == k
          ensures pairs[j].0 == k
        {
        }
      }
    }
  }

  /** The index of the last pair whose key is `k`. */
  function LastIndexOf(pairs: seq<(string, string)>, k: string): (j: nat)
    requires exists j :: 0 <= j < |pairs| && pairs[j].0 == k
    ensures j < |pairs| && pairs[j].0 == k
    ensures forall i :: j < i < |pairs| ==> pairs[i].0 != k
    decreases |pairs|
  {
    if pairs[|pairs| - 1].0 == k then |pairs| - 1
    else
      var j :| 0 <= j < |pairs| && pairs[j].0 == k;
      assert pairs[..|pairs| - 1][j].0 == k;
      LastIndexOf(pairs[..|pairs| - 1], k)
  }
}
