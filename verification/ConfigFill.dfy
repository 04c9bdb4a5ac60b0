/**
 Filling missing configuration values from defaults, and recognizing a configuration that holds
 nothing but defaults.
 */
module ConfigFill {

  /** Configuration trees; values that compare equal are one leaf, lists included. */
  datatype Json = Leaf(value: nat) | Dict(fields: map<string, Json>)

  /** The target with everything that it lacks and the defaults have, at any depth. */
  function Filled(target: Json, defaults: Json): Json
    decreases defaults
  {
    if target.Leaf? || defaults.Leaf? then target
    else
      Dict(map k | k in target.fields.Keys + defaults.fields.Keys ::
             if k !in target.fields then defaults.fields[k]
             else if k in defaults.fields then Filled(target.fields[k], defaults.fields[k])
             else target.fields[k])
  }

  /** The one tree is in the other: what it has, the other has, with the same values. */
  predicate SubTree(small: Json, large: Json)
    decreases small
  {
    if small.Leaf? then small == large
    else large.Dict? && forall k :: k in small.fields ==> k in large.fields && SubTree(small.fields[k], large.fields[k])
  }

  /** Nothing that the defaults have is missing. */
  predicate Complete(target: Json, defaults: Json)
    decreases defaults
  {
    target.Dict? && defaults.Dict? ==>
      forall k :: k in defaults.fields ==> k in target.fields && Complete(target.fields[k], defaults.fields[k])
  }

  lemma {:induction false} SubTreeReflexive(t: Json)
    ensures SubTree(t, t)
    decreases t
  {
    if t.Dict? {
      forall k | k in t.fields ensures SubTree(t.fields[k], t.fields[k]) {
        SubTreeReflexive(t.fields[k]);
      }
    }
  }

  /** Filling alters no value that is already there. */
  lemma {:induction false} FillingKeeps(target: Json, defaults: Json)
    ensures SubTree(target, Filled(target, defaults))
    decreases defaults
  {
    if target.Leaf? || defaults.Leaf? {
      SubTreeReflexive(target);
    } else {
      forall k | k in target.fields ensures SubTree(target.fields[k], Filled(target, defaults).fields[k]) {
        if k in defaults.fields {
          FillingKeeps(target.fields[k], defaults.fields[k]);
        } else {
          SubTreeReflexive(target.fields[k]);
        }
      }
    }
  }

  lemma {:induction false} CompleteReflexive(t: Json)
    ensures Complete(t, t)
    decreases t
  {
    if t.Dict? {
      forall k | k in t.fields ensures Complete(t.fields[k], t.fields[k]) {
        CompleteReflexive(t.fields[k]);
      }
    }
  }

  /** After filling nothing is missing. */
  lemma {:induction false} FillingCompletes(target: Json, defaults: Json)
    ensures Complete(Filled(target, defaults), defaults)
    decreases defaults
  {
    if target.Dict? && defaults.Dict? {
      forall k | k in defaults.fields ensures Complete(Filled(target, defaults).fields[k], defaults.fields[k]) {
        if k in target.fields {
          FillingCompletes(target.fields[k], defaults.fields[k]);
        } else {
          CompleteReflexive(defaults.fields[k]);
        }
      }
    }
  }

  /** Filling changes the tree exactly if something is missing. */
  lemma {:induction false} FillingChangesIncomplete(target: Json, defaults: Json)
    ensures Filled(target, defaults) == target <==> Complete(target, defaults)
    decreases defaults
  {
    if target.Dict? && defaults.Dict? {
      var filled := Filled(target, defaults);
      forall k | k in defaults.fields && k in target.fields
        ensures filled.fields[k] == target.fields[k] <==> Complete(target.fields[k], defaults.fields[k])
      {
        FillingChangesIncomplete(target.fields[k], defaults.fields[k]);
      }
      if Complete(target, defaults) {
        assert filled.fields.Keys == target.fields.Keys;
        forall k | k in target.fields ensures filled.fields[k] == target.fields[k] {}
        assert filled.fields == target.fields;
      }
      if filled == target {
        forall k | k in defaults.fields ensures k in target.fields && Complete(target.fields[k], defaults.fields[k]) {
          assert k in filled.fields;
        }
      }
    }
  }

  /** Filling twice is filling once. */
  lemma {:induction false} FillingIsIdempotent(target: Json, defaults: Json)
    ensures Filled(Filled(target, defaults), defaults) == Filled(target, defaults)
  {
    FillingCompletes(target, defaults);
    FillingChangesIncomplete(Filled(target, defaults), defaults);
  }

  /** Filling gives exactly the defaults if and only if the target was a part of them, at any depth. */
  lemma {:induction false} FillingGivesDefaults(target: Json, defaults: Json)
    ensures Filled(target, defaults) == defaults <==> SubTree(target, defaults)
    decreases defaults
  {
    if target.Dict? && defaults.Dict? {
      var filled := Filled(target, defaults);
      forall k | k in defaults.fields && k in target.fields
        ensures filled.fields[k] == defaults.fields[k] <==> SubTree(target.fields[k], defaults.fields[k])
      {
        FillingGivesDefaults(target.fields[k], defaults.fields[k]);
      }
      if SubTree(target, defaults) {
        assert filled.fields.Keys == defaults.fields.Keys;
        forall k | k in defaults.fields ensures filled.fields[k] == defaults.fields[k] {}
        assert filled.fields == defaults.fields;
      }
      if filled == defaults {
        forall k | k in target.fields ensures k in defaults.fields && SubTree(target.fields[k], defaults.fields[k]) {
          assert k in filled.fields;
        }
      }
    }
  }

  /** The loop over the defaults, going into nested dictionaries; it reports whether anything was added. */
  method DeepFillMissing(target: map<string, Json>, defaults: map<string, Json>)
    returns (filled: map<string, Json>, changed: bool)
    ensures Dict(filled) == Filled(Dict(target), Dict(defaults))
    ensures changed <==> filled != target
    decreases Dict(defaults)
  {
    filled, changed := target, false;
    var left := defaults.Keys;
    while left != {}
      invariant left <= defaults.Keys
      invariant filled.Keys == target.Keys + (defaults.Keys - left)
      invariant forall k :: k in filled ==> filled[k] == FilledAt(target, defaults, left, k)
      invariant changed <==> filled != target
      decreases left
    {
      var k :| k in left;
      var value := defaults[k];
      if k !in filled {
        filled := filled[k := value];
        changed := true;
        assert k in filled && k !in target;
      } else if filled[k].Dict? && value.Dict? {
        assert value < Dict(defaults);
        var inner, more := DeepFillMissing(filled[k].fields, value.fields);
        assert more ==> Dict(inner) != target[k];
        ghost var before := filled;
        filled := filled[k := Dict(inner)];
        assert !more ==> filled == before;
        changed := more || changed;
      }
      left := left - {k};
    }
    assert filled == Filled(Dict(target), Dict(defaults)).fields;
  }

  /** What stands at a key when the defaults in `left` have not been looked at. */
  function FilledAt(target: map<string, Json>, defaults: map<string, Json>, left: set<string>, k: string): Json
    requires k in target || k in defaults
  {
    if k in defaults && k !in left then
      if k in target then Filled(target[k], defaults[k]) else defaults[k]
    else if k in target then target[k] else defaults[k]
  }

  /** A configuration that is no dictionary, or that only repeats some of the defaults, counts as untouched. */
  method LooksLikeRepositoryDefault(runtime: Json, defaults: map<string, Json>) returns (untouched: bool)
    ensures untouched <==> runtime.Leaf? || SubTree(runtime, Dict(defaults))
  {
    if runtime.Leaf? {
      return true;
    }
    var candidate, _ := DeepFillMissing(runtime.fields, defaults);
    FillingGivesDefaults(runtime, Dict(defaults));
    untouched := candidate == defaults;
  }
}
