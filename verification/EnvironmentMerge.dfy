/** Merging an environment's settings over the defaults of an entity, key by key. */
module EnvironmentMerge {
  import opened JsonText
  import opened Options
  import opened StableStringify

  /** Objects merge; in every other case the override stands. */
  function Merged(defaults: Value, override: Value): Value
    decreases override
  {
    if defaults.VObject? && override.VObject? then
      VObject(map k | k in defaults.fields.Keys + override.fields.Keys ::
        if k !in override.fields then defaults.fields[k]
        else if k !in defaults.fields then override.fields[k]
        else Merged(defaults.fields[k], override.fields[k]))
    else override
  }

  function MergedKey(defaults: map<string, Value>, overrides: map<string, Value>, k: string): Value
    requires k in defaults || k in overrides
  {
    if k !in overrides then defaults[k]
    else if k !in defaults then overrides[k]
    else Merged(defaults[k], overrides[k])
  }

  /** The keys in `rest` still have their defaults, all others are merged. */
  predicate PartlyMerged(defaults: map<string, Value>, overrides: map<string, Value>, rest: set<string>,
                         result: map<string, Value>)
  {
    && rest <= overrides.Keys
    && result.Keys == defaults.Keys + (overrides.Keys - rest)
    && forall k | k in result :: result[k] == if k in rest then defaults[k] else MergedKey(defaults, overrides, k)
  }

  lemma OneMoreKey(defaults: map<string, Value>, overrides: map<string, Value>, rest: set<string>,
                   result: map<string, Value>, key: string, value: Value)
    requires PartlyMerged(defaults, overrides, rest, result) && key in rest
    requires value == MergedKey(defaults, overrides, key)
    ensures PartlyMerged(defaults, overrides, rest - {key}, result[key := value])
  {
  }

  lemma AllKeysMerged(defaults: map<string, Value>, overrides: map<string, Value>, result: map<string, Value>)
    requires PartlyMerged(defaults, overrides, {}, result)
    ensures VObject(result) == Merged(VObject(defaults), VObject(overrides))
  {
    assert result == Merged(VObject(defaults), VObject(overrides)).fields;
  }

  /** The fresh object starts as a copy of the defaults and takes one key of the override after the other. */
  method MergeEnvironmentConfiguration(defaults: map<string, Value>, overrides: map<string, Value>)
    returns (result: map<string, Value>)
    ensures VObject(result) == Merged(VObject(defaults), VObject(overrides))
    decreases VObject(overrides)
  {
    result := defaults;
    var rest := overrides.Keys;
    while rest != {}
      invariant PartlyMerged(defaults, overrides, rest, result)
      decreases |rest|
    {
      var key :| key in rest;
      var value := overrides[key];
      if key in result && result[key].VObject? && value.VObject? {
        assert value < VObject(overrides);
        var merged := MergeEnvironmentConfiguration(result[key].fields, value.fields);
        value := VObject(merged);
      }
      OneMoreKey(defaults, overrides, rest, result, key, value);
      result := result[key := value];
      rest := rest - {key};
    }
    AllKeysMerged(defaults, overrides, result);
  }

  /** The value at the end of a path of keys. */
  function At(v: Value, path: seq<string>): Option<Value> {
    if path == [] then Some(v)
    else if v.VObject? && path[0] in v.fields then At(v.fields[path[0]], path[1..])
    else None
  }

  predicate ObjectAt(v: Value, path: seq<string>) {
    At(v, path).Some? && At(v, path).value.VObject?
  }

  /** Somewhere on the way to a path the override has a value that does not merge: one that is
      no object, or one for which the defaults have no object. */
  predicate Replaced(defaults: Value, override: Value, path: seq<string>) {
    exists i | 0 <= i <= |path| ::
      At(override, path[..i]).Some? && !(ObjectAt(override, path[..i]) && ObjectAt(defaults, path[..i]))
  }

  lemma ReplacedBelow(defaults: Value, override: Value, path: seq<string>)
    requires defaults.VObject? && override.VObject? && path != []
    requires path[0] in defaults.fields && path[0] in override.fields
    ensures Replaced(defaults, override, path)
            <==> Replaced(defaults.fields[path[0]], override.fields[path[0]], path[1..])
  {
    var d, o := defaults.fields[path[0]], override.fields[path[0]];
    forall i | 0 <= i < |path|
      ensures At(defaults, path[..i + 1]) == At(d, path[1..][..i])
      ensures At(override, path[..i + 1]) == At(o, path[1..][..i])
    {
      assert path[..i + 1][1..] == path[1..][..i];
    }
    if Replaced(defaults, override, path) {
      var i :| 0 <= i <= |path| && At(override, path[..i]).Some?
               && !(ObjectAt(override, path[..i]) && ObjectAt(defaults, path[..i]));
      assert i > 0;
      assert path[..(i - 1) + 1] == path[..i];
      assert At(o, path[1..][..i - 1]).Some?;
    }
    if Replaced(d, o, path[1..]) {
      var i :| 0 <= i <= |path[1..]| && At(o, path[1..][..i]).Some?
               && !(ObjectAt(o, path[1..][..i]) && ObjectAt(d, path[1..][..i]));
      assert At(override, path[..i + 1]).Some?;
    }
  }

  /** The merge, path by path: the override's value where it replaces, the default where the
      override says nothing, and the merge of both where both have objects. */
  lemma {:induction false} MergedAt(defaults: Value, override: Value, path: seq<string>)
    ensures !Replaced(defaults, override, path) && At(override, path).Some?
            ==> ObjectAt(defaults, path) && ObjectAt(override, path)
    ensures At(Merged(defaults, override), path) ==
            if Replaced(defaults, override, path) then At(override, path)
            else if At(override, path).None? then At(defaults, path)
            else Some(Merged(At(defaults, path).value, At(override, path).value))
    decreases path
  {
    assert path[..0] == [];
    assert path[..|path|] == path;
    if !(defaults.VObject? && override.VObject?) {
      assert At(override, path[..0]).Some?;
    } else if path != [] {
      var k := path[0];
      if k in defaults.fields && k in override.fields {
        ReplacedBelow(defaults, override, path);
        MergedAt(defaults.fields[k], override.fields[k], path[1..]);
      } else if k in override.fields {
        assert At(override, path[..1]).Some? && !ObjectAt(defaults, path[..1]);
      } else {
        forall i | 0 < i <= |path| ensures At(override, path[..i]).None? {}
      }
    }
  }

  lemma {:induction false} MergedWithItself(v: Value)
    ensures Merged(v, v) == v
    decreases v
  {
    if v.VObject? {
      forall k | k in v.fields ensures Merged(v.fields[k], v.fields[k]) == v.fields[k] {
        MergedWithItself(v.fields[k]);
      }
      assert Merged(v, v).fields == v.fields;
    }
  }

  /** Applying the same override again changes nothing. */
  lemma {:induction false} MergingAgain(defaults: Value, override: Value)
    ensures Merged(Merged(defaults, override), override) == Merged(defaults, override)
    decreases override
  {
    if defaults.VObject? && override.VObject? {
      forall k | k in override.fields
        ensures Merged(Merged(defaults, override).fields[k], override.fields[k]) == Merged(defaults, override).fields[k]
      {
        if k in defaults.fields { MergingAgain(defaults.fields[k], override.fields[k]); }
        else { MergedWithItself(override.fields[k]); }
      }
      assert Merged(Merged(defaults, override), override).fields == Merged(defaults, override).fields;
    } else {
      MergedWithItself(override);
    }
  }
}
