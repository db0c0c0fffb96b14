/** Option and Result, used for the absent key and for the configuration error. */
module Results {
  datatype Option<+T> = None | Some(value: T)

  datatype Result<+T, +E> = Ok(value: T) | Err(error: E)
}

/**
 * The slice of PHP's ordered array that filter conditions and attribute-value
 * configurations are made of: an insertion-ordered dictionary whose keys are
 * integers or strings and are unique.
 */
module PhpArray {
  import opened Results

  datatype Key = IntKey(i: int) | StrKey(s: string)

  /**
   * An attribute value as the soft-delete configuration may hold it. Callable
   * stands for a non-scalar callable (a closure or an array callable); `id`
   * names it, and what it returns is decided by the model instance.
   */
  datatype Value = Bool(b: bool) | Int(i: int) | Str(s: string) | Null | Callable(id: nat)

  function Keys(a: seq<(Key, Value)>): seq<Key> {
    seq(|a|, i requires 0 <= i < |a| => a[i].0)
  }

  predicate UniqueKeys(a: seq<(Key, Value)>) {
    forall i, j :: 0 <= i < j < |a| ==> a[i].0 != a[j].0
  }

  /** A PHP array: entries in insertion order, no key twice. */
  type Array = a: seq<(Key, Value)> | UniqueKeys(a) witness []

  /**
   * `$a[$k] = $v`: an existing key keeps its position and takes the new
   * value; a new key is appended at the end.
   */
  function Put(a: Array, k: Key, v: Value): (r: Array)
    ensures k !in Keys(a) ==> r == a + [(k, v)]
    ensures k in Keys(a) ==> |r| == |a| && Keys(r) == Keys(a)
    ensures k in Keys(a) ==> forall i :: 0 <= i < |a| ==> r[i] == if a[i].0 == k then (k, v) else a[i]
  {
    if a == [] then [(k, v)]
    else if a[0].0 == k then
      assert Keys(a)[0] == k;
      assert Keys([(k, v)] + a[1..]) == Keys(a);
      ConsUnique((k, v), a[1..]);
      [(k, v)] + a[1..]
    else
      var rest := Put(a[1..], k, v);
      assert Keys(a) == [a[0].0] + Keys(a[1..]);
      assert Keys([a[0]] + rest) == [a[0].0] + Keys(rest);
      assert a[0].0 !in Keys(rest) by {
        if k in Keys(a[1..]) {
        } else {
          assert Keys(rest) == Keys(a[1..]) + [k];
        }
      }
      ConsUnique(a[0], rest);
      [a[0]] + rest
  }

  /** `unset($a[$k])`: drops the entry with key `k`, if any; the rest keep their order. */
  function Unset(a: Array, k: Key): (r: Array)
    ensures k !in Keys(r)
    ensures k !in Keys(a) ==> r == a
    ensures forall k' :: k' in Keys(r) ==> k' in Keys(a)
  {
    if a == [] then []
    else if a[0].0 == k then
      assert a == [a[0]] + a[1..];
      assert Keys(a) == [a[0].0] + Keys(a[1..]);
      a[1..]
    else
      var rest := Unset(a[1..], k);
      assert Keys(a) == [a[0].0] + Keys(a[1..]);
      assert Keys([a[0]] + rest) == [a[0].0] + Keys(rest);
      ConsUnique(a[0], rest);
      [a[0]] + rest
  }

  /** An entry whose key is new can go in front of a PHP array. */
  lemma ConsUnique(e: (Key, Value), r: seq<(Key, Value)>)
    requires UniqueKeys(r) && e.0 !in Keys(r)
    ensures UniqueKeys([e] + r)
  {
    forall j | 0 <= j < |r| ensures r[j].0 != e.0 {
      assert Keys(r)[j] == r[j].0;
    }
  }

  /** Unsetting the key of one entry of a PHP array removes exactly that entry. */
  lemma {:induction false} UnsetEntry(p: seq<(Key, Value)>, e: (Key, Value), s: seq<(Key, Value)>)
    requires UniqueKeys(p + [e] + s)
    ensures UniqueKeys(p + s)
    ensures Unset(p + [e] + s, e.0) == p + s
  {
    var a: Array := p + [e] + s;
    forall i, j | 0 <= i < j < |p + s| ensures (p + s)[i].0 != (p + s)[j].0 {
      var i', j' := if i < |p| then i else i + 1, if j < |p| then j else j + 1;
      assert (p + s)[i] == a[i'] && (p + s)[j] == a[j'];
    }
    if p == [] {
      assert a[0] == e && a[1..] == s;
    } else {
      assert a[0] == p[0] && a[1..] == p[1..] + [e] + s;
      assert Keys(a)[|p|] == e.0 && e.0 != p[0].0;
      UnsetEntry(p[1..], e, s);
      assert p + s == [p[0]] + (p[1..] + s);
    }
  }
}
