/**
 * `normalizeFilterCondition`: qualifies the attribute names of a filter
 * condition with the alias of the first table in the owner query's FROM part,
 * so that the condition stays unambiguous once other tables are joined.
 */
module Normalization {
  import opened Results
  import opened PhpArray
  import opened PhpString

  /** `strpos($s, '[[') !== false` */
  predicate HasDoubleBracket(s: string) {
    |s| >= 2 && ((s[0] == '[' && s[1] == '[') || HasDoubleBracket(s[1..]))
  }

  /** Keys the loop skips: integer keys, numeric strings and names already containing '.'. */
  predicate PassesThrough(k: Key) {
    match k
    case IntKey(_) => true
    case StrKey(s) => IsNumeric(s) || '.' in s
  }

  /** `$alias . '.' . '[[' . $name . ']]'`, without the brackets when the name already has `[[`. */
  function Qualify(alias: string, name: string): (r: Key)
    ensures r.StrKey? && PassesThrough(r)
    ensures HasDoubleBracket(name) ==> r == StrKey(alias + "." + name)
    ensures !HasDoubleBracket(name) ==> r == StrKey(alias + ".[[" + name + "]]")
  {
    var q := alias + "." + (if HasDoubleBracket(name) then name else "[[" + name + "]]");
    assert q[|alias|] == '.';
    StrKey(q)
  }

  /** The key an entry ends up under. */
  function Rewritten(alias: string, k: Key): Key {
    if PassesThrough(k) then k else Qualify(alias, k.s)
  }

  /** One iteration of the loop: unset the entry's key and re-append its value under the qualified key. */
  function Step(c: Array, e: (Key, Value), alias: string): Array {
    if PassesThrough(e.0) then c
    else Put(Unset(c, e.0), Qualify(alias, e.0.s), e.1)
  }

  /** The condition after the loop has visited the first `i` entries of the snapshot `s`. */
  function NormalizedPrefix(s: Array, i: nat, alias: string): Array
    requires i <= |s|
  {
    if i == 0 then s else Step(NormalizedPrefix(s, i - 1, alias), s[i - 1], alias)
  }

  /** `array_keys($fromTables)[0]`; null, which concatenates as "", when there is no table. */
  function AliasOf(tables: seq<string>): string {
    if |tables| > 0 then tables[0] else ""
  }

  /**
   * `normalizeFilterCondition($condition)`; `tables` is None when the owner has
   * no `getTablesUsedInFrom`, and otherwise lists the FROM aliases in order.
   */
  function Normalized(c: Array, tables: Option<seq<string>>): Array {
    match tables
    case None => c
    case Some(t) => NormalizedPrefix(c, |c|, AliasOf(t))
  }

  /** Every entry of `s` under its rewritten key. */
  function Renamed(s: seq<(Key, Value)>, alias: string): seq<(Key, Value)> {
    seq(|s|, i requires 0 <= i < |s| => (Rewritten(alias, s[i].0), s[i].1))
  }

  /** The entries the loop leaves in place, in their order. */
  function Kept(s: seq<(Key, Value)>): seq<(Key, Value)> {
    if s == [] then []
    else
      var n := |s| - 1;
      Kept(s[..n]) + (if PassesThrough(s[n].0) then [s[n]] else [])
  }

  /** The entries the loop rewrites, under their qualified keys, in their order. */
  function Moved(s: seq<(Key, Value)>, alias: string): seq<(Key, Value)> {
    if s == [] then []
    else
      var n := |s| - 1;
      Moved(s[..n], alias) + (if PassesThrough(s[n].0) then [] else [(Qualify(alias, s[n].0.s), s[n].1)])
  }

  lemma KeysConcat(a: seq<(Key, Value)>, b: seq<(Key, Value)>)
    ensures Keys(a + b) == Keys(a) + Keys(b)
  {
  }

  /** Kept and moved entries only carry keys that the renamed snapshot has. */
  lemma {:induction false} KeptMovedKeys(s: seq<(Key, Value)>, alias: string)
    ensures forall k :: k in Keys(Kept(s)) ==> k in Keys(Renamed(s, alias))
    ensures forall k :: k in Keys(Moved(s, alias)) ==> k in Keys(Renamed(s, alias))
  {
    if s != [] {
      var n := |s| - 1;
      KeptMovedKeys(s[..n], alias);
      assert Renamed(s, alias) == Renamed(s[..n], alias) + [Renamed(s, alias)[n]];
      KeysConcat(Renamed(s[..n], alias), [Renamed(s, alias)[n]]);
      KeysConcat(Kept(s[..n]), if PassesThrough(s[n].0) then [s[n]] else []);
      KeysConcat(Moved(s[..n], alias), if PassesThrough(s[n].0) then [] else [(Qualify(alias, s[n].0.s), s[n].1)]);
    }
  }

  /**
   * With no collisions, the qualified key of the entry visited in iteration
   * `j` is not yet in use when the loop appends it.
   */
  lemma QualifiedKeyFresh(s: Array, j: nat, alias: string)
    requires j < |s| && !PassesThrough(s[j].0)
    requires UniqueKeys(Renamed(s, alias))
    ensures Qualify(alias, s[j].0.s) !in Keys(Kept(s[..j]) + s[j + 1..] + Moved(s[..j], alias))
  {
    var qk := Qualify(alias, s[j].0.s);
    var p, q := Kept(s[..j]), Moved(s[..j], alias);
    var rn := Renamed(s, alias);
    assert rn[j].0 == qk;
    KeptMovedKeys(s[..j], alias);
    assert Renamed(s[..j], alias) == rn[..j];
    KeysConcat(p, s[j + 1..]);
    KeysConcat(p + s[j + 1..], q);
    assert qk !in Keys(rn[..j]) by {
      forall t | 0 <= t < j ensures Keys(rn[..j])[t] != qk {
        assert rn[t].0 != rn[j].0;
      }
    }
    assert qk !in Keys(s[j + 1..]) by {
      var rest := s[j + 1..];
      forall t | 0 <= t < |rest| ensures Keys(rest)[t] != qk {
        assert rest[t] == s[j + 1 + t];
        if PassesThrough(rest[t].0) {
          assert rn[j + 1 + t].0 == rest[t].0;
        }
      }
    }
  }

  lemma KeptMovedExtend(s: seq<(Key, Value)>, i: nat, alias: string)
    requires i < |s|
    ensures Kept(s[..i + 1]) == Kept(s[..i]) + (if PassesThrough(s[i].0) then [s[i]] else [])
    ensures Moved(s[..i + 1], alias) ==
      Moved(s[..i], alias) + (if PassesThrough(s[i].0) then [] else [(Qualify(alias, s[i].0.s), s[i].1)])
  {
    assert s[..i + 1][..i] == s[..i];
  }

  /** Concatenation of sequences is associative. */
  lemma Assoc<T>(a: seq<T>, b: seq<T>, c: seq<T>)
    ensures a + b + c == a + (b + c)
  {
  }

  /** An iteration that rewrites a key to a fresh qualified key appends the entry. */
  lemma StepAppends(c: Array, e: (Key, Value), alias: string)
    requires !PassesThrough(e.0)
    requires Qualify(alias, e.0.s) !in Keys(Unset(c, e.0))
    ensures Step(c, e, alias) == Unset(c, e.0) + [(Qualify(alias, e.0.s), e.1)]
  {
  }

  /**
   * The loop invariant of the layout: after `i` iterations the untouched
   * entries come first, then the entries not yet visited, then the rewritten ones.
   */
  lemma {:induction false} PrefixLayout(s: Array, i: nat, alias: string)
    requires i <= |s|
    requires UniqueKeys(Renamed(s, alias))
    ensures NormalizedPrefix(s, i, alias) == Kept(s[..i]) + s[i..] + Moved(s[..i], alias)
  {
    if i == 0 {
      assert s[..0] == [] && s[0..] == s;
    } else {
      var j := i - 1;
      var e := s[j];
      PrefixLayout(s, j, alias);
      KeptMovedExtend(s, j, alias);
      var p, q := Kept(s[..j]), Moved(s[..j], alias);
      var c := NormalizedPrefix(s, j, alias);
      assert s[j..] == [e] + s[i..];
      Assoc(p, [e] + s[i..], q);
      Assoc(p, [e], s[i..] + q);
      Assoc([e], s[i..], q);
      assert c == p + [e] + (s[i..] + q);
      if PassesThrough(e.0) {
        Assoc(p + [e], s[i..], q);
      } else {
        UnsetEntry(p, e, s[i..] + q);
        Assoc(p, s[i..], q);
        QualifiedKeyFresh(s, j, alias);
        StepAppends(c, e, alias);
        var x := (Qualify(alias, e.0.s), e.1);
        assert Unset(c, e.0) == p + s[i..] + q;
        assert NormalizedPrefix(s, i, alias) == p + s[i..] + q + [x];
        assert Kept(s[..i]) == p;
        assert Moved(s[..i], alias) == q + [x];
        Assoc(p + s[i..], q, [x]);
      }
    }
  }

  /**
   * When no two entries end up under the same key, normalisation keeps the
   * entries it does not rewrite in place and moves every rewritten entry, with
   * its value, to the end in its original order; so nothing is lost.
   */
  lemma NormalizedLayout(c: Array, tables: seq<string>)
    requires UniqueKeys(Renamed(c, AliasOf(tables)))
    ensures Normalized(c, Some(tables)) == Kept(c) + Moved(c, AliasOf(tables))
    ensures |Normalized(c, Some(tables))| == |c|
  {
    var alias := AliasOf(tables);
    PrefixLayout(c, |c|, alias);
    assert c[..|c|] == c && c[|c|..] == [];
    assert Kept(c) + [] == Kept(c);
    KeptMovedSize(c, alias);
  }

  lemma {:induction false} KeptMovedSize(s: seq<(Key, Value)>, alias: string)
    ensures |Kept(s)| + |Moved(s, alias)| == |s|
  {
    if s != [] {
      KeptMovedSize(s[..|s| - 1], alias);
    }
  }

  /**
   * After any number of iterations, every key that is not of the pass-through
   * kind is one of the keys still waiting to be visited.
   */
  lemma {:induction false} PrefixKeys(s: Array, i: nat, alias: string)
    requires i <= |s|
    ensures forall k :: k in Keys(NormalizedPrefix(s, i, alias)) ==> PassesThrough(k) || k in Keys(s[i..])
  {
    if i == 0 {
      assert s[0..] == s;
    } else {
      PrefixKeys(s, i - 1, alias);
      var e := s[i - 1];
      assert s[i - 1..] == [e] + s[i..];
      KeysConcat([e], s[i..]);
      if !PassesThrough(e.0) {
        var u := Unset(NormalizedPrefix(s, i - 1, alias), e.0);
        var qk := Qualify(alias, e.0.s);
        if qk !in Keys(u) {
          KeysConcat(u, [(qk, e.1)]);
        }
      }
    }
  }

  /**
   * Normalisation with a FROM alias leaves no key unqualified: every key is an
   * integer, numeric or contains '.'.
   */
  lemma NormalizedKeysQualified(c: Array, tables: seq<string>)
    ensures forall k :: k in Keys(Normalized(c, Some(tables))) ==> PassesThrough(k)
  {
    PrefixKeys(c, |c|, AliasOf(tables));
    assert c[|c|..] == [];
  }

  lemma {:induction false} PrefixIdentity(s: Array, i: nat, alias: string)
    requires i <= |s|
    requires forall k :: k in Keys(s) ==> PassesThrough(k)
    ensures NormalizedPrefix(s, i, alias) == s
  {
    if i > 0 {
      PrefixIdentity(s, i - 1, alias);
      assert Keys(s)[i - 1] == s[i - 1].0;
    }
  }

  /** Normalising an already normalised condition changes nothing. */
  lemma NormalizeIdempotent(c: Array, tables: Option<seq<string>>)
    ensures Normalized(Normalized(c, tables), tables) == Normalized(c, tables)
  {
    if tables.Some? {
      var n := Normalized(c, tables);
      NormalizedKeysQualified(c, tables.value);
      PrefixIdentity(n, |n|, AliasOf(tables.value));
    }
  }
}
