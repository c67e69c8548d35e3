/** Key ranges of the unit's store and the difference between a range and a mapping. */
module UnitDelta {
  import opened Wrappers
  import opened UnitData

  // ----- SQL's LIKE -----

  /** ASCII letters compare without case. */
  function Fold(c: char): char
  {
    if 'A' <= c <= 'Z' then (c as int + 32) as char else c
  }

  predicate Like(pattern: string, s: string)
    decreases |pattern| + |s|
  {
    if pattern == "" then s == ""
    else if pattern[0] == '%' then Like(pattern[1..], s) || (s != "" && Like(pattern, s[1..]))
    else s != "" && (pattern[0] == '_' || Fold(pattern[0]) == Fold(s[0])) && Like(pattern[1..], s[1..])
  }

  /** One character written in two ways: the same, or one ASCII letter in both cases. */
  predicate SameLetter(a: char, b: char)
  {
    || a == b
    || ('A' <= a <= 'Z' && b as int == a as int + ('a' as int - 'A' as int))
    || ('A' <= b <= 'Z' && a as int == b as int + ('a' as int - 'A' as int))
  }

  lemma FoldMeaning(a: char, b: char)
    ensures Fold(a) == Fold(b) <==> SameLetter(a, b)
  {
  }

  /**
   * How a pattern is laid over a string: character `i` of the pattern covers the string from `cuts[i]` to
   * `cuts[i + 1]`. A percent sign covers anything, an underscore one character, anything else the same letter.
   */
  ghost predicate Covers(pattern: string, s: string, cuts: seq<nat>)
  {
    && |cuts| == |pattern| + 1 && cuts[0] == 0 && cuts[|pattern|] == |s|
    && forall i :: 0 <= i < |pattern| ==> CoversAt(pattern[i], s, cuts[i], cuts[i + 1])
  }

  predicate CoversAt(c: char, s: string, from: nat, to: nat)
  {
    && from <= to <= |s|
    && (c != '%' ==> to == from + 1 && (c == '_' || SameLetter(c, s[from])))
  }

  /** The recursive matcher finds a layout exactly when there is one. */
  lemma LikeMeaning(pattern: string, s: string)
    ensures Like(pattern, s) <==> exists cuts :: Covers(pattern, s, cuts)
  {
    if Like(pattern, s) {
      var cuts := Layout(pattern, s);
    }
    forall cuts | Covers(pattern, s, cuts)
      ensures Like(pattern, s)
    {
      LayoutIsLike(pattern, s, cuts);
    }
  }

  function Shifted(cuts: seq<nat>, d: nat): (r: seq<nat>)
    ensures |r| == |cuts| && forall i :: 0 <= i < |cuts| ==> r[i] == cuts[i] + d
  {
    seq(|cuts|, i requires 0 <= i < |cuts| => cuts[i] + d)
  }

  lemma {:induction false} Layout(pattern: string, s: string) returns (cuts: seq<nat>)
    requires Like(pattern, s)
    ensures Covers(pattern, s, cuts)
    decreases |pattern| + |s|
  {
    if pattern == "" {
      cuts := [0];
    } else if pattern[0] == '%' && Like(pattern[1..], s) {
      var rest := Layout(pattern[1..], s);
      cuts := [0] + rest;
    } else if pattern[0] == '%' {
      var rest := Layout(pattern, s[1..]);
      cuts := [0] + Shifted(rest, 1)[1..];
    } else {
      FoldMeaning(pattern[0], s[0]);
      var rest := Layout(pattern[1..], s[1..]);
      cuts := [0] + Shifted(rest, 1);
    }
  }

  /** The cuts behind the first, one to the left. */
  function OneLess(cuts: seq<nat>): (r: seq<nat>)
    requires cuts != []
    ensures |r| == |cuts| - 1
  {
    seq(|cuts| - 1, i requires 0 <= i < |cuts| - 1 => if cuts[i + 1] > 0 then cuts[i + 1] - 1 else 0)
  }

  lemma {:induction false} LayoutIsLike(pattern: string, s: string, cuts: seq<nat>)
    requires Covers(pattern, s, cuts)
    ensures Like(pattern, s)
    decreases |pattern| + |s|
  {
    if pattern != "" {
      assert CoversAt(pattern[0], s, cuts[0], cuts[1]);
      var rest := pattern[1..];
      if pattern[0] == '%' && cuts[1] > 0 {
        CutsGrow(pattern, s, cuts, 1);
        LayoutIsLike(pattern, s[1..], [0] + OneLess(cuts));
      } else if pattern[0] == '%' {
        LayoutIsLike(rest, s, cuts[1..]);
      } else {
        FoldMeaning(pattern[0], s[0]);
        CutsGrow(pattern, s, cuts, 1);
        LayoutIsLike(rest, s[1..], OneLess(cuts));
      }
    }
  }

  lemma {:induction false} CutsGrow(pattern: string, s: string, cuts: seq<nat>, k: nat)
    requires Covers(pattern, s, cuts) && k <= |pattern|
    ensures forall i :: k <= i <= |pattern| ==> cuts[k] <= cuts[i]
    decreases |pattern| - k
  {
    if k < |pattern| {
      assert CoversAt(pattern[k], s, cuts[k], cuts[k + 1]);
      CutsGrow(pattern, s, cuts, k + 1);
    }
  }

  predicate Matches(prefix: string, key: string)
  {
    Like(prefix + "%", key)
  }

  /** `k[len(key_prefix):]` */
  function Strip(prefix: string, key: string): string
  {
    if |key| <= |prefix| then "" else key[|prefix|..]
  }

  lemma {:induction false} AnythingMatches(s: string)
    ensures Like("%", s)
  {
    if s != "" {
      AnythingMatches(s[1..]);
    } else {
      assert "%"[1..] == "";
    }
  }

  /** A key that begins with the prefix is always in the range, whatever wildcards the prefix holds. */
  lemma {:induction false} PrefixedMatches(prefix: string, rest: string)
    ensures Matches(prefix, prefix + rest)
  {
    if prefix == "" {
      assert prefix + "%" == "%" && prefix + rest == rest;
      AnythingMatches(rest);
    } else {
      PrefixedMatches(prefix[1..], rest);
      var pattern, s := prefix + "%", prefix + rest;
      assert pattern[1..] == prefix[1..] + "%" && s[1..] == prefix[1..] + rest;
      if pattern[0] == '%' {
        LikeAfterPercent(pattern[1..], s[1..]);
        assert Like(pattern, s[1..]);
      }
    }
  }

  lemma LikeAfterPercent(pattern: string, s: string)
    requires Like(pattern, s)
    ensures Like("%" + pattern, s)
  {
    assert ("%" + pattern)[1..] == pattern;
  }

  predicate BeginsUpToCase(prefix: string, key: string)
  {
    |prefix| <= |key| && forall i :: 0 <= i < |prefix| ==> SameLetter(prefix[i], key[i])
  }

  lemma BeginsStep(prefix: string, key: string)
    requires prefix != "" && key != ""
    ensures BeginsUpToCase(prefix, key) <==> SameLetter(prefix[0], key[0]) && BeginsUpToCase(prefix[1..], key[1..])
  {
    if SameLetter(prefix[0], key[0]) && BeginsUpToCase(prefix[1..], key[1..]) {
      forall i | 0 <= i < |prefix|
        ensures SameLetter(prefix[i], key[i])
      {
        if i > 0 {
          assert prefix[i] == prefix[1..][i - 1] && key[i] == key[1..][i - 1];
        }
      }
    }
  }

  /** Without wildcards a range holds the keys that begin with the prefix up to case. */
  lemma {:induction false} LiteralPrefix(prefix: string, key: string)
    requires '%' !in prefix && '_' !in prefix
    ensures Matches(prefix, key) <==> BeginsUpToCase(prefix, key)
  {
    if prefix == "" {
      assert prefix + "%" == "%";
      AnythingMatches(key);
    } else {
      assert prefix[0] in prefix;
      if key != "" {
        assert forall c :: c in prefix[1..] ==> c in prefix;
        LiteralPrefix(prefix[1..], key[1..]);
        BeginsStep(prefix, key);
        FoldMeaning(prefix[0], key[0]);
        assert (prefix + "%")[1..] == prefix[1..] + "%";
      }
    }
  }

  // ----- getrange -----

  /** `key` is a stored key of the range and becomes `stripped`. */
  predicate Yields(kv: map<string, Json>, prefix: string, key: string, stripped: string)
  {
    key in kv && Matches(prefix, key) && Strip(prefix, key) == stripped
  }

  ghost predicate InRange(kv: map<string, Json>, prefix: string, stripped: string)
  {
    exists key :: Yields(kv, prefix, key, stripped)
  }

  /**
   * What `getrange(prefix, strip=True)` may return: when several keys of the range are stripped to the same
   * name, the one that the database delivers last wins, and that order is not defined.
   */
  ghost predicate IsRange(kv: map<string, Json>, prefix: string, range: map<string, Json>)
  {
    && (forall s :: s in range <==> InRange(kv, prefix, s))
    && (forall s :: s in range ==> exists key :: Yields(kv, prefix, key, s) && range[s] == kv[key])
  }

  method GetRangeStripped(kv: map<string, Json>, prefix: string) returns (range: map<string, Json>)
    ensures IsRange(kv, prefix, range)
  {
    range := map[];
    var todo := kv.Keys;
    while todo != {}
      invariant todo <= kv.Keys
      invariant forall s :: s in range ==>
        exists key :: key !in todo && Yields(kv, prefix, key, s) && range[s] == kv[key]
      invariant forall key, s :: key !in todo && Yields(kv, prefix, key, s) ==> s in range
      decreases |todo|
    {
      var key :| key in todo;
      todo := todo - {key};
      if Matches(prefix, key) {
        ghost var s := Strip(prefix, key);
        assert Yields(kv, prefix, key, s);
        range := range[Strip(prefix, key) := kv[key]];
      }
    }
  }

  // ----- delta -----

  /** Python's None and JSON's null are the same value here, as they are in the code. */
  datatype Delta = Delta(previous: Json, current: Json)

  predicate Differs(previous: map<string, Json>, mapping: map<string, Json>, key: string)
  {
    (key in previous || key in mapping) && !(key in previous && key in mapping && previous[key] == mapping[key])
  }

  function DeltaOf(previous: map<string, Json>, mapping: map<string, Json>): map<string, Delta>
  {
    map key | key in previous.Keys + mapping.Keys && Differs(previous, mapping, key) ::
      Delta(if key in previous then previous[key] else Null, if key in mapping then mapping[key] else Null)
  }

  method AddedKeys(previous: map<string, Json>, mapping: map<string, Json>) returns (delta: map<string, Delta>)
    ensures delta == map k | k in mapping.Keys - previous.Keys :: Delta(Null, mapping[k])
  {
    delta := map[];
    var added := mapping.Keys - previous.Keys;
    while added != {}
      invariant forall k :: k in added ==> k in mapping && k !in previous
      invariant forall k :: k in delta <==> k in mapping && k !in previous && k !in added
      invariant forall k :: k in delta ==> delta[k] == Delta(Null, mapping[k])
      decreases |added|
    {
      var k :| k in added;
      added := added - {k};
      delta := delta[k := Delta(Null, mapping[k])];
    }
  }

  method RemovedKeys(previous: map<string, Json>, mapping: map<string, Json>) returns (delta: map<string, Delta>)
    ensures delta == map k | k in previous.Keys - mapping.Keys :: Delta(previous[k], Null)
  {
    delta := map[];
    var removed := previous.Keys - mapping.Keys;
    while removed != {}
      invariant forall k :: k in removed ==> k in previous && k !in mapping
      invariant forall k :: k in delta <==> k in previous && k !in mapping && k !in removed
      invariant forall k :: k in delta ==> delta[k] == Delta(previous[k], Null)
      decreases |removed|
    {
      var k :| k in removed;
      removed := removed - {k};
      delta := delta[k := Delta(previous[k], Null)];
    }
  }

  method ChangedKeys(previous: map<string, Json>, mapping: map<string, Json>) returns (delta: map<string, Delta>)
    ensures delta == map k | k in previous.Keys * mapping.Keys && mapping[k] != previous[k] ::
      Delta(previous[k], mapping[k])
  {
    delta := map[];
    var common := previous.Keys * mapping.Keys;
    while common != {}
      invariant forall k :: k in common ==> k in previous && k in mapping
      invariant forall k :: k in delta <==> k in previous && k in mapping && k !in common && mapping[k] != previous[k]
      invariant forall k :: k in delta ==> delta[k] == Delta(previous[k], mapping[k])
      decreases |common|
    {
      var k :| k in common;
      common := common - {k};
      if mapping[k] != previous[k] {
        delta := delta[k := Delta(previous[k], mapping[k])];
      }
    }
  }

  /** `delta` collects added, removed and changed keys, one loop each. */
  method ComputeDelta(previous: map<string, Json>, mapping: map<string, Json>) returns (delta: map<string, Delta>)
    ensures delta == DeltaOf(previous, mapping)
  {
    var added := AddedKeys(previous, mapping);
    var removed := RemovedKeys(previous, mapping);
    var changed := ChangedKeys(previous, mapping);
    delta := added + removed + changed;
  }

  /** Reading a delta as instructions: null means that the key is gone. */
  function Apply(previous: map<string, Json>, delta: map<string, Delta>): map<string, Json>
  {
    map key | key in previous.Keys + delta.Keys && (key in delta ==> delta[key].current != Null) ::
      if key in delta then delta[key].current else previous[key]
  }

  /** A key whose new value is null although the range holds no null for it. */
  predicate TurnsNull(previous: map<string, Json>, mapping: map<string, Json>, key: string)
  {
    key in mapping && mapping[key] == Null && !(key in previous && previous[key] == Null)
  }

  /** Applying the delta gives the mapping exactly when no key turns null. */
  lemma DeltaRoundTrip(previous: map<string, Json>, mapping: map<string, Json>)
    ensures Apply(previous, DeltaOf(previous, mapping)) == mapping <==> forall key :: !TurnsNull(previous, mapping, key)
  {
    var result := Apply(previous, DeltaOf(previous, mapping));
    forall key
      ensures (if key in result then Some(result[key]) else None) ==
        if TurnsNull(previous, mapping, key) then None else if key in mapping then Some(mapping[key]) else None
    {
    }
    if key :| TurnsNull(previous, mapping, key) {
      assert key in mapping && key !in result;
    } else {
      assert forall key :: key in result <==> key in mapping;
      assert result == mapping;
    }
  }

  /** A delta tells the old and the new value of every key that differs, absence being null, and no other key. */
  lemma DeltaTellsBoth(previous: map<string, Json>, mapping: map<string, Json>, key: string)
    ensures var delta := DeltaOf(previous, mapping);
      && (key in delta <==> (key in previous.Keys + mapping.Keys &&
            !(key in previous.Keys * mapping.Keys && previous[key] == mapping[key])))
      && (key in delta && key in previous ==> delta[key].previous == previous[key])
      && (key in delta && key !in previous ==> delta[key].previous == Null)
      && (key in delta && key in mapping ==> delta[key].current == mapping[key])
      && (key in delta && key !in mapping ==> delta[key].current == Null)
  {
  }

  /** A delta read backwards. */
  function Reversed(delta: map<string, Delta>): map<string, Delta>
  {
    map key | key in delta :: Delta(delta[key].current, delta[key].previous)
  }

  lemma ReversedIsDelta(previous: map<string, Json>, mapping: map<string, Json>)
    ensures Reversed(DeltaOf(previous, mapping)) == DeltaOf(mapping, previous)
  {
  }

  /** Reading the delta backwards from the mapping gives the range exactly when no key of the range was null alone. */
  lemma DeltaReadBackwards(previous: map<string, Json>, mapping: map<string, Json>)
    ensures Apply(mapping, Reversed(DeltaOf(previous, mapping))) == previous <==>
      forall key :: !TurnsNull(mapping, previous, key)
  {
    ReversedIsDelta(previous, mapping);
    DeltaRoundTrip(mapping, previous);
  }

  lemma DeltaIsEmpty(previous: map<string, Json>, mapping: map<string, Json>)
    ensures DeltaOf(previous, mapping) == map[] <==> previous == mapping
  {
    var delta := DeltaOf(previous, mapping);
    if delta == map[] {
      forall key
        ensures key in previous <==> key in mapping
        ensures key in previous && key in mapping ==> previous[key] == mapping[key]
      {
        assert key !in delta;
      }
      assert previous == mapping;
    }
    if delta != map[] {
      assert exists key :: key in delta;
    }
  }

  // ----- delta after update -----

  function MapOf(items: seq<(string, Json)>): map<string, Json>
  {
    if items == [] then map[] else MapOf(items[..|items| - 1])[items[|items| - 1].0 := items[|items| - 1].1]
  }

  predicate FullKeyOf(mapping: map<string, Json>, prefix: string, key: string)
  {
    |prefix| <= |key| && key == prefix + key[|prefix|..] && key[|prefix|..] in mapping
  }

  /** `update` sets exactly the prefixed keys, whatever the order of the items and the revision. */
  lemma {:induction false} UpdateMeaning(db: Db, revision: Option<nat>, items: seq<(string, Json)>, prefix: string)
    ensures var kv := AfterUpdate(db, revision, items, prefix).kv;
      && (forall key :: key in kv <==> key in db.kv || FullKeyOf(MapOf(items), prefix, key))
      && (forall key :: FullKeyOf(MapOf(items), prefix, key) ==> kv[key] == MapOf(items)[key[|prefix|..]])
      && (forall key :: key in db.kv && !FullKeyOf(MapOf(items), prefix, key) ==> kv[key] == db.kv[key])
  {
    if items != [] {
      var init, last := items[..|items| - 1], items[|items| - 1];
      UpdateMeaning(db, revision, init, prefix);
      assert AfterUpdate(db, revision, items, prefix).kv ==
        AfterUpdate(db, revision, init, prefix).kv[prefix + last.0 := last.1];
      hide AfterUpdate, AfterSet;
      forall key
        ensures FullKeyOf(MapOf(items), prefix, key) <==> key == prefix + last.0 || FullKeyOf(MapOf(init), prefix, key)
      {
        if key == prefix + last.0 {
          assert key[|prefix|..] == last.0;
        }
      }
    }
  }

  /** Only removals: every key of the delta is absent from the mapping. */
  predicate OnlyRemovals(delta: map<string, Delta>, mapping: map<string, Json>)
  {
    forall key :: key in delta ==> key !in mapping && delta[key].current == Null
  }

  /** Another stored key of the range is stripped to the name of an updated one and holds another value. */
  predicate Shadows(kv: map<string, Json>, prefix: string, mapping: map<string, Json>, key: string)
  {
    key in kv && Matches(prefix, key) && Strip(prefix, key) in mapping && kv[key] != mapping[Strip(prefix, key)]
  }

  /**
   * After an update every possible answer of getrange leaves only removals in the delta, if and only if no stored
   * key shadows an updated one.
   */
  lemma DeltaAfterUpdate(db: Db, revision: Option<nat>, items: seq<(string, Json)>, prefix: string)
    ensures var mapping := MapOf(items);
      var kv := AfterUpdate(db, revision, items, prefix).kv;
      (forall range :: IsRange(kv, prefix, range) ==> OnlyRemovals(DeltaOf(range, mapping), mapping)) <==>
      (forall key :: !Shadows(kv, prefix, mapping, key))
  {
    var mapping := MapOf(items);
    var kv := AfterUpdate(db, revision, items, prefix).kv;
    UpdateMeaning(db, revision, items, prefix);
    if key :| Shadows(kv, prefix, mapping, key) {
      var range := RangeWith(kv, prefix, key);
      assert Strip(prefix, key) in DeltaOf(range, mapping);
    } else {
      forall range | IsRange(kv, prefix, range)
        ensures OnlyRemovals(DeltaOf(range, mapping), mapping)
      {
        forall s | s in mapping
          ensures s in range && range[s] == mapping[s]
        {
          UpdatedKeyInRange(kv, prefix, mapping, s);
          var key :| Yields(kv, prefix, key, s) && range[s] == kv[key];
          assert !Shadows(kv, prefix, mapping, key);
        }
      }
    }
  }

  lemma UpdatedKeyInRange(kv: map<string, Json>, prefix: string, mapping: map<string, Json>, s: string)
    requires s in mapping && forall key :: FullKeyOf(mapping, prefix, key) ==> key in kv
    ensures InRange(kv, prefix, s)
  {
    PrefixedMatches(prefix, s);
    assert (prefix + s)[|prefix|..] == s;
    assert FullKeyOf(mapping, prefix, prefix + s);
    assert Yields(kv, prefix, prefix + s, s);
  }

  /** A possible answer of getrange in which the given key wins. */
  lemma RangeWith(kv: map<string, Json>, prefix: string, key: string) returns (range: map<string, Json>)
    requires key in kv && Matches(prefix, key)
    ensures IsRange(kv, prefix, range) && Strip(prefix, key) in range && range[Strip(prefix, key)] == kv[key]
  {
    var rest := AnyRange(kv, prefix, kv.Keys);
    range := rest[Strip(prefix, key) := kv[key]];
    assert Yields(kv, prefix, key, Strip(prefix, key));
  }

  lemma {:induction false} AnyRange(kv: map<string, Json>, prefix: string, todo: set<string>)
      returns (range: map<string, Json>)
    requires todo <= kv.Keys
    ensures forall s :: s in range ==> exists key :: Yields(kv, prefix, key, s) && range[s] == kv[key]
    ensures forall key, s :: key in todo && Yields(kv, prefix, key, s) ==> s in range
    decreases |todo|
  {
    if todo == {} {
      range := map[];
    } else {
      var k :| k in todo;
      range := AnyRange(kv, prefix, todo - {k});
      if Matches(prefix, k) {
        assert Yields(kv, prefix, k, Strip(prefix, k));
        range := range[Strip(prefix, k) := kv[k]];
      }
    }
  }

  predicate SameUpToCase(a: string, b: string)
  {
    |a| == |b| && forall i :: 0 <= i < |a| ==> SameLetter(a[i], b[i])
  }

  /** A prefix without wildcards and keys that differ in more than case rule shadowing out. */
  lemma LiteralPrefixHasNoShadows(db: Db, revision: Option<nat>, items: seq<(string, Json)>, prefix: string,
                                  key: string)
    requires '%' !in prefix && '_' !in prefix
    requires var kv := AfterUpdate(db, revision, items, prefix).kv;
      forall a, b :: a in kv && b in kv && SameUpToCase(a, b) ==> a == b
    ensures !Shadows(AfterUpdate(db, revision, items, prefix).kv, prefix, MapOf(items), key)
  {
    var mapping := MapOf(items);
    var kv := AfterUpdate(db, revision, items, prefix).kv;
    UpdateMeaning(db, revision, items, prefix);
    if key in kv && Matches(prefix, key) && Strip(prefix, key) in mapping {
      LiteralPrefix(prefix, key);
      var full := prefix + Strip(prefix, key);
      assert full[|prefix|..] == Strip(prefix, key);
      assert FullKeyOf(mapping, prefix, full);
      assert |full| == |key|;
      forall i | 0 <= i < |key|
        ensures SameLetter(full[i], key[i])
      {
        if i >= |prefix| {
          assert full[i] == Strip(prefix, key)[i - |prefix|];
        }
      }
      assert SameUpToCase(full, key);
    }
  }
}
