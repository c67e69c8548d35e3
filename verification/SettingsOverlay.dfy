/** Overlaying user overrides on default settings, guided by a schema. */
module SettingsOverlay {
  import opened Wrappers

  /** A value of a YAML file; anything but a dictionary is kept as a tag and its truth value. */
  datatype Value = Plain(tag: string, truthy: bool) | Dict(items: map<string, Value>)

  /** None marks a key that may be overridden; a nested schema goes on; anything else is an error when met. */
  datatype Schema = Leaf | Nested(keys: map<string, Schema>) | Unexpected(tag: string)

  predicate Truthy(v: Value)
  {
    match v
    case Plain(_, truthy) => truthy
    case Dict(items) => items != map[]
  }

  // ----- What the overlay is, key by key -----

  /** The new value under one key; None when it raises. */
  function Entry(settings: map<string, Value>, k: string, override: Value, schema: Schema): Option<Value>
    decreases schema, 3
  {
    match schema
    case Leaf => Some(override)
    case Nested(_) => if k in settings then Apply(settings[k], override, schema) else None
    case Unexpected(_) => None
  }

  /** The keys that are looked at: those of the overrides that the schema knows. */
  function Known(overrides: map<string, Value>, keys: map<string, Schema>): set<string>
  {
    overrides.Keys * keys.Keys
  }

  /** Every key of `ks` can be overlaid. */
  predicate AllEntries(settings: map<string, Value>, overrides: map<string, Value>, schema: Schema, ks: set<string>)
    requires schema.Nested? && ks <= Known(overrides, schema.keys)
    decreases schema, 0
  {
    forall k :: k in ks ==> Entry(settings, k, overrides[k], schema.keys[k]).Some?
  }

  function Merged(settings: map<string, Value>, overrides: map<string, Value>, schema: Schema, ks: set<string>):
      map<string, Value>
    requires schema.Nested? && ks <= Known(overrides, schema.keys) && AllEntries(settings, overrides, schema, ks)
    decreases schema, 1
  {
    map k | k in settings.Keys + ks ::
      if k in ks then Entry(settings, k, overrides[k], schema.keys[k]).value else settings[k]
  }

  /** The whole result; None when it raises. */
  function Apply(settings: Value, overrides: Value, schema: Schema): Option<Value>
    requires schema.Nested?
    decreases schema, 2
  {
    if !Truthy(overrides) then Some(settings)
    else if !overrides.Dict? then None
    else
      var known := Known(overrides.items, schema.keys);
      if known == {} then Some(settings)
      else if settings.Dict? && AllEntries(settings.items, overrides.items, schema, known) then
        Some(Dict(Merged(settings.items, overrides.items, schema, known)))
      else None
  }

  lemma OneMoreKey(settings: map<string, Value>, overrides: map<string, Value>, schema: Schema, ks: set<string>,
                   k: string)
    requires schema.Nested? && ks <= Known(overrides, schema.keys) && AllEntries(settings, overrides, schema, ks)
    requires k in Known(overrides, schema.keys) - ks
    ensures AllEntries(settings, overrides, schema, ks + {k}) <==>
      Entry(settings, k, overrides[k], schema.keys[k]).Some?
    ensures AllEntries(settings, overrides, schema, ks + {k}) ==>
      Merged(settings, overrides, schema, ks + {k}) ==
      Merged(settings, overrides, schema, ks)[k := Entry(settings, k, overrides[k], schema.keys[k]).value]
    ensures k in Merged(settings, overrides, schema, ks) <==> k in settings
    ensures k in settings ==> Merged(settings, overrides, schema, ks)[k] == settings[k]
  {
    assert k in ks + {k};
  }

  lemma OneKeyRaises(settings: map<string, Value>, overrides: map<string, Value>, schema: Schema, k: string)
    requires schema.Nested? && k in Known(overrides, schema.keys) &&
      Entry(settings, k, overrides[k], schema.keys[k]).None?
    ensures MergedOption(settings, overrides, schema) == None
  {
  }

  /** _apply_overrides */
  method ApplyOverrides(settings: Value, overrides: Value, schema: Schema) returns (result: Option<Value>)
    requires schema.Nested?
    ensures result == Apply(settings, overrides, schema)
    decreases schema, 1
  {
    if !Truthy(overrides) {
      return Some(settings);
    }
    if !overrides.Dict? {
      return None;
    }
    if settings.Dict? {
      var merged := OverrideKeys(settings.items, overrides.items, schema);
      if Known(overrides.items, schema.keys) == {} {
        NoKnownKeys(settings.items, overrides.items, schema);
      }
      return if merged.Some? then Some(Dict(merged.value)) else None;
    }
    // Any known key would be assigned to, or looked up, in something that is not a dictionary.
    result := if overrides.items.Keys * schema.keys.Keys == {} then Some(settings) else None;
  }

  lemma NoKnownKeys(settings: map<string, Value>, overrides: map<string, Value>, schema: Schema)
    requires schema.Nested?
    ensures AllEntries(settings, overrides, schema, {}) && Merged(settings, overrides, schema, {}) == settings
  {
  }

  /** Every key has been seen but those that are left. */
  ghost predicate SoFar(settings: map<string, Value>, overrides: map<string, Value>, schema: Schema, left: set<string>,
                        current: map<string, Value>)
    requires schema.Nested?
  {
    AllEntries(settings, overrides, schema, Known(overrides, schema.keys) - left) &&
    current == Merged(settings, overrides, schema, Known(overrides, schema.keys) - left)
  }

  lemma NextKey(settings: map<string, Value>, overrides: map<string, Value>, schema: Schema, left: set<string>,
                current: map<string, Value>, k: string)
    requires schema.Nested? && SoFar(settings, overrides, schema, left, current) && k in left && k in overrides
    ensures k !in schema.keys ==> SoFar(settings, overrides, schema, left - {k}, current)
    ensures k in schema.keys ==>
      (k in current <==> k in settings) && (k in settings ==> current[k] == settings[k]) &&
      var entry := Entry(settings, k, overrides[k], schema.keys[k]);
      entry.Some? ==> SoFar(settings, overrides, schema, left - {k}, current[k := entry.value])
  {
    var known := Known(overrides, schema.keys);
    if k in schema.keys {
      OneMoreKey(settings, overrides, schema, known - left, k);
      assert known - (left - {k}) == known - left + {k};
    } else {
      assert known - (left - {k}) == known - left;
    }
  }

  lemma AllKeysSeen(settings: map<string, Value>, overrides: map<string, Value>, schema: Schema)
    requires schema.Nested?
    ensures SoFar(settings, overrides, schema, overrides.Keys, settings)
    ensures forall current :: SoFar(settings, overrides, schema, {}, current) ==>
      MergedOption(settings, overrides, schema) == Some(current)
  {
    NoKnownKeys(settings, overrides, schema);
    assert Known(overrides, schema.keys) - overrides.Keys == {};
    assert Known(overrides, schema.keys) - {} == Known(overrides, schema.keys);
  }

  function MergedOption(settings: map<string, Value>, overrides: map<string, Value>,
                        schema: Schema): Option<map<string, Value>>
    requires schema.Nested?
  {
    var known := Known(overrides, schema.keys);
    if AllEntries(settings, overrides, schema, known) then Some(Merged(settings, overrides, schema, known)) else None
  }

  /** The loop: the keys are visited one by one, in any order. */
  method OverrideKeys(settings: map<string, Value>, overrides: map<string, Value>, schema: Schema)
    returns (result: Option<map<string, Value>>)
    requires schema.Nested?
    ensures result == MergedOption(settings, overrides, schema)
    decreases schema, 0
  {
    var current := settings;
    var left := overrides.Keys;
    AllKeysSeen(settings, overrides, schema);
    hide SoFar, Entry;
    while left != {}
      invariant left <= overrides.Keys && SoFar(settings, overrides, schema, left, current)
      decreases |left|
    {
      var k :| k in left;
      NextKey(settings, overrides, schema, left, current, k);
      left := left - {k};
      if k in schema.keys {
        var entry := OverrideKey(settings, current, k, overrides[k], schema.keys[k]);
        if entry.None? {
          OneKeyRaises(settings, overrides, schema, k);
          return None;
        }
        current := current[k := entry.value];
      }
    }
    result := Some(current);
  }

  /** The body of the loop for a key that the schema has. */
  method OverrideKey(ghost settings: map<string, Value>, current: map<string, Value>, k: string, override: Value,
                     schema: Schema)
    returns (entry: Option<Value>)
    requires k in current <==> k in settings
    requires k in settings ==> current[k] == settings[k]
    ensures entry == Entry(settings, k, override, schema)
    decreases schema, 2
  {
    match schema
    case Leaf =>
      entry := Some(override);
    case Nested(_) =>
      if k !in current {
        return None;
      }
      entry := ApplyOverrides(current[k], override, schema);
    case Unexpected(_) =>
      entry := None;
  }

  /** An override that is no dictionary raises when it is true, and changes nothing when it is false or empty. */
  lemma PlainOverride(settings: Value, tag: string, truthy: bool, schema: Schema)
    requires schema.Nested?
    ensures Apply(settings, Plain(tag, truthy), schema) == if truthy then None else Some(settings)
    ensures Apply(settings, Dict(map[]), schema) == Some(settings)
  {
  }

  // ----- By path -----

  function GetAt(v: Value, path: seq<string>): Option<Value>
  {
    if path == [] then Some(v)
    else if v.Dict? && path[0] in v.items then GetAt(v.items[path[0]], path[1..])
    else None
  }

  /** The length of the prefix of the path at which the schema has a leaf. */
  function LeafDepth(schema: Schema, path: seq<string>): Option<nat>
  {
    if schema.Leaf? then Some(0)
    else if path == [] || !schema.Nested? || path[0] !in schema.keys then None
    else
      match LeafDepth(schema.keys[path[0]], path[1..])
      case None => None
      case Some(n) => Some(n + 1)
  }

  /** The path leaves the schema at a key that the schema does not have. */
  predicate Outside(schema: Schema, path: seq<string>)
  {
    schema.Nested? && path != [] && (path[0] !in schema.keys || Outside(schema.keys[path[0]], path[1..]))
  }

  lemma {:induction false} LeafDepthIsPrefix(schema: Schema, path: seq<string>)
    ensures LeafDepth(schema, path).Some? ==> LeafDepth(schema, path).value <= |path|
    ensures LeafDepth(schema, path).Some? ==> !Outside(schema, path)
  {
    if schema.Nested? && path != [] && path[0] in schema.keys {
      LeafDepthIsPrefix(schema.keys[path[0]], path[1..]);
    }
  }

  /** Where a result may come from, said without the overlay. */
  function Expected(settings: Value, overrides: Value, depth: nat, path: seq<string>): Option<Value>
    requires depth <= |path|
  {
    match GetAt(overrides, path[..depth])
    case Some(v) => GetAt(v, path[depth..])
    case None => GetAt(settings, path)
  }

  predicate Has(v: Value, k: string)
  {
    v.Dict? && k in v.items
  }

  /** The result under one key. */
  lemma ResultUnderKey(settings: Value, overrides: Value, schema: Schema, k: string)
    requires schema.Nested? && Apply(settings, overrides, schema).Some?
    ensures var result := Apply(settings, overrides, schema).value;
      if Has(overrides, k) && k in schema.keys then
        settings.Dict? && Has(result, k) &&
        Entry(settings.items, k, overrides.items[k], schema.keys[k]) == Some(result.items[k])
      else
        (Has(result, k) <==> Has(settings, k)) && (Has(settings, k) ==> result.items[k] == settings.items[k])
  {
    if Has(overrides, k) && k in schema.keys {
      assert k in Known(overrides.items, schema.keys);
      assert Truthy(overrides);
    }
  }

  /** At and below a leaf of the schema the override wins if there is one; outside the schema the default stays. */
  lemma {:induction false} OverlayByPath(settings: Value, overrides: Value, schema: Schema, path: seq<string>)
    requires schema.Nested? && Apply(settings, overrides, schema).Some?
    ensures var result := Apply(settings, overrides, schema).value;
      && (Outside(schema, path) ==> GetAt(result, path) == GetAt(settings, path))
      && (LeafDepth(schema, path).Some? ==>
            LeafDepth(schema, path).value <= |path| &&
            GetAt(result, path) == Expected(settings, overrides, LeafDepth(schema, path).value, path))
    decreases schema
  {
    LeafDepthIsPrefix(schema, path);
    if path != [] {
      var k, rest := path[0], path[1..];
      ResultUnderKey(settings, overrides, schema, k);
      if k in schema.keys {
        var depth := if LeafDepth(schema, path).Some? then LeafDepth(schema, path).value else 1;
        assert path[..depth][0] == k && path[..depth][1..] == rest[..depth - 1] && path[depth..] == rest[depth - 1..];
        if Has(overrides, k) {
          match schema.keys[k]
          case Nested(_) =>
            hide Merged, AllEntries;
            OverlayByPath(settings.items[k], overrides.items[k], schema.keys[k], rest);
          case Leaf =>
            assert LeafDepth(schema.keys[k], rest) == Some(0);
            assert depth == 1 && GetAt(overrides, path[..1]) == Some(overrides.items[k]);
        }
      }
    }
  }

  /** A dictionary inside the schema keeps its keys and gains only overrides that the schema knows. */
  lemma {:induction false} KeysByPath(settings: Value, overrides: Value, schema: Schema, path: seq<string>)
    requires schema.Nested? && Apply(settings, overrides, schema).Some?
    requires LeafDepth(schema, path) == None
    ensures GetAt(Apply(settings, overrides, schema).value, path).Some? <==> GetAt(settings, path).Some?
    decreases schema
  {
    if path != [] {
      var k, rest := path[0], path[1..];
      ResultUnderKey(settings, overrides, schema, k);
      if Has(overrides, k) && k in schema.keys {
        match schema.keys[k]
        case Nested(_) =>
          hide Merged, AllEntries;
          KeysByPath(settings.items[k], overrides.items[k], schema.keys[k], rest);
        case Leaf =>
          assert false;
      }
    }
  }

  /** Applying the same overrides again changes nothing. */
  lemma {:induction false} OverlayIsIdempotent(settings: Value, overrides: Value, schema: Schema)
    requires schema.Nested? && Apply(settings, overrides, schema).Some?
    ensures Apply(Apply(settings, overrides, schema).value, overrides, schema) == Apply(settings, overrides, schema)
    decreases schema
  {
    var result := Apply(settings, overrides, schema).value;
    if Truthy(overrides) && Known(overrides.items, schema.keys) != {} {
      var known := Known(overrides.items, schema.keys);
      forall k | k in known
        ensures Entry(result.items, k, overrides.items[k], schema.keys[k]) == Some(result.items[k])
      {
        ResultUnderKey(settings, overrides, schema, k);
        if schema.keys[k].Nested? {
          OverlayIsIdempotent(settings.items[k], overrides.items[k], schema.keys[k]);
        }
      }
      assert AllEntries(result.items, overrides.items, schema, known);
      assert Merged(result.items, overrides.items, schema, known) == result.items;
    }
  }

  // ----- When it raises -----

  /** Only leaves and nested schemas, and a default dictionary for each nested schema. */
  ghost predicate Covers(settings: Value, schema: Schema)
    decreases schema
  {
    schema.Nested? && settings.Dict? && forall k :: k in schema.keys && !schema.keys[k].Leaf? ==>
      k in settings.items && Covers(settings.items[k], schema.keys[k])
  }

  /** Every override of a nested schema is a dictionary, or false as a truth value. */
  ghost predicate Shaped(overrides: Value, schema: Schema)
    requires schema.Nested?
    decreases schema
  {
    !Truthy(overrides) ||
    (overrides.Dict? && forall k :: k in overrides.items && k in schema.keys && schema.keys[k].Nested? ==>
       Shaped(overrides.items[k], schema.keys[k]))
  }

  /** With defaults that cover the schema, it raises exactly when an override of a nested schema has the wrong shape. */
  lemma {:induction false} RaisesIffMisshapen(settings: Value, overrides: Value, schema: Schema)
    requires Covers(settings, schema)
    ensures Apply(settings, overrides, schema).Some? <==> Shaped(overrides, schema)
    decreases schema
  {
    if Truthy(overrides) && overrides.Dict? {
      var known := Known(overrides.items, schema.keys);
      forall k | k in known
        ensures Entry(settings.items, k, overrides.items[k], schema.keys[k]).Some? <==>
          (schema.keys[k].Nested? ==> Shaped(overrides.items[k], schema.keys[k]))
      {
        if schema.keys[k].Nested? {
          RaisesIffMisshapen(settings.items[k], overrides.items[k], schema.keys[k]);
        }
      }
      if Shaped(overrides, schema) {
        assert forall k :: k in known ==> Entry(settings.items, k, overrides.items[k], schema.keys[k]).Some?;
      } else {
        var k :| k in overrides.items && k in schema.keys && schema.keys[k].Nested? &&
          !Shaped(overrides.items[k], schema.keys[k]);
        assert k in known;
      }
    }
  }

  /** A nested schema without a default raises as soon as its key is overridden, whatever the override is. */
  lemma MissingDefaultRaises(settings: Value, overrides: Value, schema: Schema, k: string)
    requires schema.Nested? && settings.Dict? && overrides.Dict?
    requires k in schema.keys && schema.keys[k].Nested? && k in overrides.items && k !in settings.items
    ensures Apply(settings, overrides, schema) == None
  {
    assert k in Known(overrides.items, schema.keys);
    assert Entry(settings.items, k, overrides.items[k], schema.keys[k]) == None;
  }
}
