/** Python's insertion-ordered dictionary, as the caches and registries of the
    API use it: keys in order, plus the mapping itself. */
module OrderedDicts {

  datatype Option<+T> = None | Some(value: T)

  /** The sequence s with every occurrence of k taken out. */
  function Without<K(==)>(s: seq<K>, k: K): (r: seq<K>)
    ensures forall x | x in r :: x in s && x != k
    ensures forall x | x in s && x != k :: x in r
    ensures |r| <= |s|
  {
    if s == [] then [] else
      (if s[0] == k then [] else [s[0]]) + Without(s[1..], k)
  }

  ghost predicate Distinct<K>(s: seq<K>) {
    forall i, j | 0 <= i < j < |s| :: s[i] != s[j]
  }

  datatype OrderedDict<K(==), V> = OrderedDict(keys: seq<K>, vals: map<K, V>) {

    ghost predicate Valid() {
      && Distinct(keys)
      && (forall k | k in keys :: k in vals)
      && (forall k | k in vals :: k in keys)
    }

    /** d[k] = v: a key already present keeps its place. */
    function Put(k: K, v: V): OrderedDict<K, V> {
      OrderedDict(if k in vals then keys else keys + [k], vals[k := v])
    }

    /** d.move_to_end(k), for a key that is present. */
    function MoveToEnd(k: K): OrderedDict<K, V> {
      OrderedDict(Without(keys, k) + [k], vals)
    }

    /** d.pop(k, None). */
    function Remove(k: K): OrderedDict<K, V> {
      OrderedDict(Without(keys, k), vals - {k})
    }
  }

  function Empty<K(==), V>(): OrderedDict<K, V> { OrderedDict([], map[]) }

  lemma {:induction false} WithoutDistinct<K>(s: seq<K>, k: K)
    requires Distinct(s)
    ensures Distinct(Without(s, k))
    ensures |Without(s, k)| == if k in s then |s| - 1 else |s|
    ensures k !in s ==> Without(s, k) == s
  {
    if s != [] {
      var rest := s[1..];
      DistinctTail(s);
      WithoutDistinct(rest, k);
      assert s == [s[0]] + rest;
      if s[0] == k {
        assert Without(s, k) == [] + Without(rest, k) == rest;
      } else {
        assert Without(s, k) == [s[0]] + Without(rest, k);
        DistinctCons(s[0], Without(rest, k));
      }
    }
  }

  lemma DistinctTail<K>(s: seq<K>)
    requires Distinct(s) && s != []
    ensures Distinct(s[1..]) && s[0] !in s[1..]
  {
    assert forall i | 0 <= i < |s| - 1 :: s[1..][i] == s[i + 1];
  }

  lemma DistinctCons<K>(x: K, s: seq<K>)
    requires Distinct(s) && x !in s
    ensures Distinct([x] + s)
  {
  }

  lemma PutValid<K, V>(d: OrderedDict<K, V>, k: K, v: V)
    requires d.Valid()
    ensures d.Put(k, v).Valid()
  {
  }

  lemma MoveToEndValid<K, V>(d: OrderedDict<K, V>, k: K)
    requires d.Valid() && k in d.vals
    ensures d.MoveToEnd(k).Valid() && |d.MoveToEnd(k).keys| == |d.keys|
  {
    WithoutDistinct(d.keys, k);
    assert k !in Without(d.keys, k);
  }

  lemma RemoveValid<K, V>(d: OrderedDict<K, V>, k: K)
    requires d.Valid()
    ensures d.Remove(k).Valid()
    ensures |d.Remove(k).keys| == if k in d.vals then |d.keys| - 1 else |d.keys|
  {
    WithoutDistinct(d.keys, k);
  }

  // ---- dropping entries -----------------------------------------------------------------

  /** e holds some of d's entries, unchanged. */
  ghost predicate Part<K, V>(e: OrderedDict<K, V>, d: OrderedDict<K, V>) {
    e.Valid() && forall k | k in e.vals :: k in d.vals && e.vals[k] == d.vals[k]
  }

  /** Those of the keys whose values satisfy p, in order. */
  function KeysWhere<K, V>(d: OrderedDict<K, V>, keys: seq<K>, p: V -> bool): seq<K> {
    if keys == [] then []
    else (if keys[0] in d.vals && p(d.vals[keys[0]]) then [keys[0]] else []) + KeysWhere(d, keys[1..], p)
  }

  function RemoveAll<K, V>(d: OrderedDict<K, V>, keys: seq<K>): OrderedDict<K, V>
    decreases |keys|
  {
    if keys == [] then d else RemoveAll(d.Remove(keys[0]), keys[1..])
  }

  /** The entries whose values satisfy p are popped. */
  function PrunedOf<K, V>(d: OrderedDict<K, V>, p: V -> bool): OrderedDict<K, V> {
    RemoveAll(d, KeysWhere(d, d.keys, p))
  }

  /** popitem(last=False) until at most `maximum` entries are left. */
  function Shortened<K, V>(d: OrderedDict<K, V>, maximum: nat): OrderedDict<K, V>
    decreases |d.keys|
  {
    if |d.keys| <= maximum then d
    else
      HeadShrinks(d.keys);
      Shortened(d.Remove(d.keys[0]), maximum)
  }

  lemma {:induction false} HeadShrinks<K>(keys: seq<K>)
    requires keys != []
    ensures |Without(keys, keys[0])| < |keys|
  {
    assert Without(keys, keys[0]) == Without(keys[1..], keys[0]);
  }

  lemma {:induction false} RemoveAllKeepsRest<K, V>(d: OrderedDict<K, V>, keys: seq<K>)
    requires d.Valid()
    ensures var e := RemoveAll(d, keys);
      Part(e, d) && (forall k | k in d.vals && k !in keys :: k in e.vals) && (forall k | k in keys :: k !in e.vals)
      && |e.keys| <= |d.keys|
    decreases |keys|
  {
    if keys != [] {
      RemoveValid(d, keys[0]);
      RemoveAllKeepsRest(d.Remove(keys[0]), keys[1..]);
      assert forall k | k in keys :: k == keys[0] || k in keys[1..];
    }
  }

  lemma {:induction false} KeysWhereExact<K, V>(d: OrderedDict<K, V>, keys: seq<K>, p: V -> bool)
    ensures forall k :: k in KeysWhere(d, keys, p) <==> k in keys && k in d.vals && p(d.vals[k])
  {
    if keys != [] {
      KeysWhereExact(d, keys[1..], p);
      assert forall k :: k in keys <==> k == keys[0] || k in keys[1..];
    }
  }

  /** Pruning drops the entries that satisfy p and no others. */
  lemma PrunedOfExact<K, V>(d: OrderedDict<K, V>, p: V -> bool)
    requires d.Valid()
    ensures var e := PrunedOf(d, p);
      && Part(e, d) && |e.keys| <= |d.keys|
      && forall k | k in d.vals :: k in e.vals <==> !p(d.vals[k])
  {
    KeysWhereExact(d, d.keys, p);
    RemoveAllKeepsRest(d, KeysWhere(d, d.keys, p));
  }

  /** Shortening keeps the newest `maximum` entries, in their order. */
  lemma {:induction false} ShortenedKeepsNewest<K, V>(d: OrderedDict<K, V>, maximum: nat)
    requires d.Valid()
    ensures var e := Shortened(d, maximum);
      Part(e, d) && e.keys == if |d.keys| <= maximum then d.keys else d.keys[|d.keys| - maximum..]
    decreases |d.keys|
  {
    hide Without, Distinct, Part;
    if |d.keys| > maximum {
      var rest := d.Remove(d.keys[0]);
      RemoveIsPart(d, d.keys[0]);
      WithoutHead(d.keys);
      assert rest.keys == d.keys[1..];
      hide Shortened;
      ShortenedStep(d, maximum);
      ShortenedKeepsNewest(rest, maximum);
      PartOfPart(Shortened(d, maximum), rest, d);
      assert |rest.keys| > maximum ==> d.keys[1..][|rest.keys| - maximum..] == d.keys[|d.keys| - maximum..];
    } else {
      SelfIsPart(d);
    }
  }

  lemma ShortenedStep<K, V>(d: OrderedDict<K, V>, maximum: nat)
    requires |d.keys| > maximum
    ensures Shortened(d, maximum) == Shortened(d.Remove(d.keys[0]), maximum)
  {
  }

  lemma SelfIsPart<K, V>(d: OrderedDict<K, V>)
    requires d.Valid()
    ensures Part(d, d)
  {
  }

  lemma RemoveIsPart<K, V>(d: OrderedDict<K, V>, k: K)
    requires d.Valid()
    ensures Part(d.Remove(k), d) && d.Remove(k).Valid()
  {
    RemoveValid(d, k);
  }

  lemma PartOfPart<K, V>(c: OrderedDict<K, V>, d: OrderedDict<K, V>, e: OrderedDict<K, V>)
    requires Part(c, d) && Part(d, e)
    ensures Part(c, e)
  {
  }

  lemma WithoutHead<K>(keys: seq<K>)
    requires Distinct(keys) && keys != []
    ensures Without(keys, keys[0]) == keys[1..]
  {
    assert forall i | 0 <= i < |keys| - 1 :: keys[1..][i] == keys[i + 1];
    assert keys[0] !in keys[1..];
    WithoutDistinct(keys[1..], keys[0]);
  }

  /** A new entry survives the shortening it causes. */
  lemma NewestSurvivesShortening<K, V>(d: OrderedDict<K, V>, k: K, v: V, maximum: nat)
    requires d.Valid() && k !in d.vals && 1 <= maximum
    ensures var e := Shortened(d.Put(k, v), maximum);
      Part(e, d.Put(k, v)) && |e.keys| <= maximum && k in e.vals && e.vals[k] == v
  {
    PutValid(d, k, v);
    ShortenedKeepsNewest(d.Put(k, v), maximum);
    assert d.Put(k, v).keys[|d.keys|] == k;
    var e := Shortened(d.Put(k, v), maximum);
    assert e.keys[|e.keys| - 1] == k;
  }

  // ---- what was used last stays longest --------------------------------------------------

  ghost predicate IsLast<K>(keys: seq<K>, k: K) { keys != [] && keys[|keys| - 1] == k }

  lemma {:induction false} WithoutKeepsLast<K>(s: seq<K>, k: K, j: K)
    requires IsLast(s, k) && j != k
    ensures IsLast(Without(s, j), k)
  {
    if |s| > 1 {
      WithoutKeepsLast(s[1..], k, j);
    } else {
      assert Without(s[1..], j) == [];
    }
  }

  lemma {:induction false} WithoutAppended<K>(s: seq<K>, k: K)
    requires k !in s
    ensures Without(s + [k], k) == s
  {
    if s == [] {
      assert [k][1..] == [];
    } else {
      assert (s + [k])[1..] == s[1..] + [k];
      WithoutAppended(s[1..], k);
      assert s == [s[0]] + s[1..];
    }
  }

  lemma {:induction false} RemoveAllKeepsLast<K, V>(d: OrderedDict<K, V>, keys: seq<K>, k: K)
    requires IsLast(d.keys, k) && k !in keys
    ensures IsLast(RemoveAll(d, keys).keys, k)
    decreases |keys|
  {
    hide Without, IsLast;
    if keys != [] {
      WithoutKeepsLast(d.keys, k, keys[0]);
      RemoveAllKeepsLast(d.Remove(keys[0]), keys[1..], k);
    }
  }

  lemma UsedIsLast<K, V>(d: OrderedDict<K, V>, k: K, p: V -> bool)
    requires d.Valid() && k in d.vals && !p(d.vals[k])
    ensures var e := PrunedOf(d.MoveToEnd(k), p); e.Valid() && IsLast(e.keys, k) && k in e.vals && e.vals[k] == d.vals[k]
  {
    hide Without, RemoveAll, Distinct, Part;
    var m := d.MoveToEnd(k);
    MoveToEndValid(d, k);
    PrunedOfExact(m, p);
    KeysWhereExact(m, m.keys, p);
    RemoveAllKeepsLast(m, KeysWhere(m, m.keys, p), k);
    PartIsSame(PrunedOf(m, p), m);
  }

  /** An entry moved to the end survives what the next one stored pushes out. */
  lemma UsedSurvives<K, V>(d: OrderedDict<K, V>, k: K, p: V -> bool, j: K, v: V, maximum: nat)
    requires d.Valid() && k in d.vals && !p(d.vals[k]) && 2 <= maximum && j != k
    ensures var e := Shortened(PrunedOf(d.MoveToEnd(k), p).Put(j, v), maximum); k in e.vals && e.vals[k] == d.vals[k]
  {
    hide PrunedOf, Distinct, Part, Shortened, Without;
    UsedIsLast(d, k, p);
    var e := PrunedOf(d.MoveToEnd(k), p);
    PutValid(e, j, v);
    ShortenedKeepsNewest(e.Put(j, v), maximum);
    NewestTwo(e.Put(j, v), Shortened(e.Put(j, v), maximum), k, maximum);
  }

  lemma PartIsSame<K, V>(e: OrderedDict<K, V>, d: OrderedDict<K, V>)
    requires Part(e, d)
    ensures e.Valid() && forall k | k in e.vals :: k in d.vals && e.vals[k] == d.vals[k]
  {
  }

  lemma NewestTwo<K, V>(d: OrderedDict<K, V>, e: OrderedDict<K, V>, k: K, maximum: nat)
    requires d.Valid() && k in d.vals && 2 <= maximum && Part(e, d)
    requires IsLast(d.keys, k) || (|d.keys| >= 2 && d.keys[|d.keys| - 2] == k)
    requires e.keys == if |d.keys| <= maximum then d.keys else d.keys[|d.keys| - maximum..]
    ensures k in e.vals && e.vals[k] == d.vals[k]
  {
    assert e.keys[|e.keys| - 1] == d.keys[|d.keys| - 1];
    if |d.keys| >= 2 { assert e.keys[|e.keys| - 2] == d.keys[|d.keys| - 2]; }
    assert k in e.keys;
  }
}
