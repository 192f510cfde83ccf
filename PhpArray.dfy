/**
 * A PHP array with string keys: an ordered dictionary. Insertion order is
 * observable (a `foreach` visits entries in that order, `json_encode` writes
 * them in that order), so the dictionary is a sequence of key/value pairs.
 *
 * - assigning `$a[k] = v` overwrites the value of an existing key in place
 *   and appends a new key at the end (`Set`);
 * - `unset($a[k])` drops the key and keeps the order of the others (`Unset`);
 * - `array_merge($a, $b)` with string keys assigns every entry of `$b`, in
 *   order, into a copy of `$a` (`Merge`).
 */
module PhpArray {
  import opened Wrappers

  /**
   * The values an alert option can take. The notifier never looks inside an
   * option's value, it only stores and forwards it, so every other PHP value
   * (a float, an object, a closure) is `VOpaque`, told apart by an identity.
   */
  datatype Value =
    | VNull
    | VBool(b: bool)
    | VInt(i: int)
    | VStr(s: string)
    | VArray(entries: seq<(string, Value)>)
    | VOpaque(id: nat)

  type Dict = seq<(string, Value)>

  /** The keys of `d`, in order. */
  function Keys(d: Dict): (ks: seq<string>)
    ensures |ks| == |d|
  {
    if d == [] then [] else [d[0].0] + Keys(d[1..])
  }

  predicate HasKey(d: Dict, k: string) {
    k in Keys(d)
  }

  /** `ks` without the elements of `drop`, the others in their order. */
  function Without(ks: seq<string>, drop: seq<string>): seq<string> {
    if ks == [] then []
    else (if ks[0] in drop then [] else [ks[0]]) + Without(ks[1..], drop)
  }

  /** No key occurs twice: the shape of every real PHP array. */
  predicate Distinct(ks: seq<string>) {
    ks == [] || (ks[0] !in ks[1..] && Distinct(ks[1..]))
  }

  predicate DistinctKeys(d: Dict) {
    Distinct(Keys(d))
  }

  /** `$d[k]` when `array_key_exists(k, $d)`, `None` otherwise. */
  function Get(d: Dict, k: string): (r: Option<Value>)
    ensures r.Some? <==> HasKey(d, k)
  {
    if d == [] then None
    else if d[0].0 == k then Some(d[0].1)
    else Get(d[1..], k)
  }

  /** `$d[k] = v`: an existing key keeps its position, a new key goes last. */
  function Set(d: Dict, k: string, v: Value): Dict {
    if d == [] then [(k, v)]
    else if d[0].0 == k then [(k, v)] + d[1..]
    else [d[0]] + Set(d[1..], k, v)
  }

  /** An assignment changes no key's position: the key list grows only by a new key, at the end. */
  lemma {:induction false} SetKeys(d: Dict, k: string, v: Value)
    ensures Keys(Set(d, k, v)) == if HasKey(d, k) then Keys(d) else Keys(d) + [k]
  {
    if d != [] {
      assert Keys(d) == [d[0].0] + Keys(d[1..]);
      if d[0].0 != k {
        SetKeys(d[1..], k, v);
        var rest := Set(d[1..], k, v);
        assert Keys([d[0]] + rest) == [d[0].0] + Keys(rest);
      } else {
        assert Keys([(k, v)] + d[1..]) == [k] + Keys(d[1..]);
      }
    }
  }

  /** An assignment keeps the keys distinct. */
  lemma {:induction false} SetDistinct(d: Dict, k: string, v: Value)
    ensures DistinctKeys(d) ==> DistinctKeys(Set(d, k, v))
  {
    if d != [] && DistinctKeys(d) {
      assert Keys(d) == [d[0].0] + Keys(d[1..]);
      if d[0].0 != k {
        SetDistinct(d[1..], k, v);
        SetKeys(d[1..], k, v);
        var rest := Set(d[1..], k, v);
        assert Keys([d[0]] + rest) == [d[0].0] + Keys(rest);
      } else {
        assert Keys([(k, v)] + d[1..]) == [k] + Keys(d[1..]);
      }
    }
  }

  /** `unset($d[k])`: the key is gone, the others keep their relative order. */
  function Unset(d: Dict, k: string): (r: Dict)
    ensures !HasKey(d, k) ==> r == d
    ensures |r| <= |d|
  {
    if d == [] then []
    else if d[0].0 == k then Unset(d[1..], k)
    else [d[0]] + Unset(d[1..], k)
  }

  /** `unset` removes exactly the one key. */
  lemma {:induction false} UnsetHasKey(d: Dict, k: string, k': string)
    ensures HasKey(Unset(d, k), k') <==> HasKey(d, k') && k' != k
  {
    if d != [] {
      UnsetHasKey(d[1..], k, k');
      assert Keys(d) == [d[0].0] + Keys(d[1..]);
      if d[0].0 != k {
        var rest := Unset(d[1..], k);
        assert Keys([d[0]] + rest) == [d[0].0] + Keys(rest);
      }
    }
  }

  /** `unset` keeps the keys distinct. */
  lemma {:induction false} UnsetDistinct(d: Dict, k: string)
    requires DistinctKeys(d)
    ensures DistinctKeys(Unset(d, k))
  {
    if d != [] {
      UnsetDistinct(d[1..], k);
      assert Keys(d) == [d[0].0] + Keys(d[1..]);
      if d[0].0 != k {
        var rest := Unset(d[1..], k);
        UnsetHasKey(d[1..], k, d[0].0);
        assert Keys([d[0]] + rest) == [d[0].0] + Keys(rest);
      }
    }
  }

  /** `unset` keeps the other keys in their relative order. */
  lemma {:induction false} UnsetKeys(d: Dict, k: string)
    ensures Keys(Unset(d, k)) == Without(Keys(d), [k])
  {
    if d != [] {
      UnsetKeys(d[1..], k);
      assert Keys(d) == [d[0].0] + Keys(d[1..]);
      if d[0].0 != k {
        var rest := Unset(d[1..], k);
        assert Keys([d[0]] + rest) == [d[0].0] + Keys(rest);
      }
    }
  }

  /** `array_merge($d, $p)` for string keys: every entry of `$p`, in order, is written into `$d`. */
  function Merge(d: Dict, p: Dict): (r: Dict)
    ensures DistinctKeys(d) ==> DistinctKeys(r)
    ensures Keys(d) <= Keys(r)
    decreases p
  {
    if p == [] then d
    else
      var written := Set(d, p[0].0, p[0].1);
      SetKeys(d, p[0].0, p[0].1);
      SetDistinct(d, p[0].0, p[0].1);
      SetKeysPrefix(d, p[0].0, p[0].1);
      var r := Merge(written, p[1..]);
      PrefixTransitive(Keys(d), Keys(written), Keys(r));
      r
  }

  /** Reading after an assignment: the written key has the new value, every other key is untouched. */
  lemma {:induction false} SetGet(d: Dict, k: string, v: Value, k': string)
    ensures Get(Set(d, k, v), k') == if k' == k then Some(v) else Get(d, k')
  {
    if d != [] && d[0].0 != k {
      SetGet(d[1..], k, v, k');
      assert ([d[0]] + Set(d[1..], k, v))[1..] == Set(d[1..], k, v);
    }
  }

  /** Assigning a key that is not there appends it. */
  lemma {:induction false} SetNew(d: Dict, k: string, v: Value)
    requires !HasKey(d, k)
    ensures Set(d, k, v) == d + [(k, v)]
  {
    if d != [] {
      assert Keys(d) == [d[0].0] + Keys(d[1..]);
      SetNew(d[1..], k, v);
      assert d + [(k, v)] == [d[0]] + (d[1..] + [(k, v)]);
    }
  }

  /** An assignment keeps every existing key where it was. */
  lemma SetKeysPrefix(d: Dict, k: string, v: Value)
    ensures Keys(d) <= Keys(Set(d, k, v))
  {
    SetKeys(d, k, v);
    if !HasKey(d, k) {
      assert Keys(d) == (Keys(d) + [k])[..|Keys(d)|];
    }
  }

  lemma PrefixTransitive(a: seq<string>, b: seq<string>, c: seq<string>)
    requires a <= b && b <= c
    ensures a <= c
  {
    assert a == b[..|a|] && b == c[..|b|];
    assert c[..|b|][..|a|] == c[..|a|];
  }

  /** Assigning the value a key already holds changes nothing, order included. */
  lemma {:induction false} SetExisting(d: Dict, k: string, v: Value)
    requires Get(d, k) == Some(v)
    ensures Set(d, k, v) == d
  {
    if d[0].0 != k {
      SetExisting(d[1..], k, v);
    }
  }

  /** Reading after `unset`: the key is absent, every other key is untouched. */
  lemma {:induction false} UnsetGet(d: Dict, k: string, k': string)
    ensures Get(Unset(d, k), k') == if k' == k then None else Get(d, k')
  {
    if d != [] {
      UnsetGet(d[1..], k, k');
      if d[0].0 != k {
        assert ([d[0]] + Unset(d[1..], k))[1..] == Unset(d[1..], k);
      }
    }
  }

  /** `array_merge` is "last write wins": keys of `p` take `p`'s value, all other keys keep theirs. */
  lemma {:induction false} MergeGet(d: Dict, p: Dict, k: string)
    requires DistinctKeys(p)
    ensures Get(Merge(d, p), k) == if HasKey(p, k) then Get(p, k) else Get(d, k)
    decreases p
  {
    if p != [] {
      var d' := Set(d, p[0].0, p[0].1);
      assert Keys(p) == [p[0].0] + Keys(p[1..]);
      MergeGet(d', p[1..], k);
      SetGet(d, p[0].0, p[0].1, k);
    }
  }

  /** Dropping one more element that does not occur changes nothing. */
  lemma {:induction false} WithoutAbsent(ks: seq<string>, drop: seq<string>, x: string)
    requires x !in ks
    ensures Without(ks, drop + [x]) == Without(ks, drop)
  {
    if ks != [] {
      WithoutAbsent(ks[1..], drop, x);
    }
  }

  /**
   * `array_merge` keeps the keys of `d` where they were and appends the keys
   * of `p` that `d` lacks, in `p`'s order.
   */
  lemma {:induction false} MergeKeys(d: Dict, p: Dict)
    requires DistinctKeys(p)
    ensures Keys(Merge(d, p)) == Keys(d) + Without(Keys(p), Keys(d))
    decreases p
  {
    if p != [] {
      var k := p[0].0;
      var d' := Set(d, k, p[0].1);
      var ks := Keys(p[1..]);
      assert Keys(p) == [k] + ks;
      assert Keys(p)[1..] == ks;
      assert DistinctKeys(p[1..]);
      assert Merge(d, p) == Merge(d', p[1..]);
      MergeKeys(d', p[1..]);
      SetKeys(d, k, p[0].1);
      assert ([k] + ks)[1..] == ks;
      var rest := Without(ks, Keys(d));
      var merged := Keys(Merge(d', p[1..]));
      assert merged == Keys(d') + Without(ks, Keys(d'));
      if HasKey(d, k) {
        assert Keys(d') == Keys(d);
        assert Without(Keys(p), Keys(d)) == rest;
        assert merged == Keys(d) + rest;
      } else {
        assert Keys(d') == Keys(d) + [k];
        assert Without(Keys(p), Keys(d)) == [k] + rest;
        assert k !in ks;
        WithoutAbsent(ks, Keys(d), k);
        assert merged == Keys(d) + [k] + rest == Keys(d) + ([k] + rest);
      }
    }
  }

  /** Appending an entry appends its key. */
  lemma {:induction false} KeysAppend(d: Dict, e: (string, Value))
    ensures Keys(d + [e]) == Keys(d) + [e.0]
  {
    if d != [] {
      assert (d + [e])[1..] == d[1..] + [e];
      KeysAppend(d[1..], e);
    }
  }

  /** After moving the first entry of `p` onto `d`, the rest of `p` is still all new. */
  lemma FreshAfterMove(d: Dict, p: Dict)
    requires p != [] && DistinctKeys(p)
    requires forall k :: HasKey(p, k) ==> !HasKey(d, k)
    ensures forall k :: HasKey(p[1..], k) ==> !HasKey(d + [p[0]], k)
  {
    assert Keys(p) == [p[0].0] + Keys(p[1..]);
    KeysAppend(d, p[0]);
    forall k | HasKey(p[1..], k) ensures !HasKey(d + [p[0]], k) {
      assert HasKey(p, k);
    }
  }

  /** Merging an array whose keys are all new appends it unchanged. */
  lemma {:induction false} MergeDisjoint(d: Dict, p: Dict)
    requires DistinctKeys(p)
    requires forall k :: HasKey(p, k) ==> !HasKey(d, k)
    ensures Merge(d, p) == d + p
    decreases p
  {
    if p != [] {
      assert Keys(p) == [p[0].0] + Keys(p[1..]);
      assert Keys(p)[1..] == Keys(p[1..]);
      assert HasKey(p, p[0].0);
      SetNew(d, p[0].0, p[0].1);
      FreshAfterMove(d, p);
      MergeDisjoint(d + [p[0]], p[1..]);
      assert d + [p[0]] + p[1..] == d + p;
    }
  }
}
