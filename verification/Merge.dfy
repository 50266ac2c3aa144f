// Merging report data over defaults, and the loader that writes the merged
// data back.
//
// Objects are maps, so the order of their fields, which the program's equality
// ignores as well, is not shown.

module Merge {
  datatype Json =
    | Null
    | Bool(yes: bool)
    | Number(number: int)
    | Text(text: string)
    | List(items: seq<Json>)
    | Object(fields: map<string, Json>)

  // `override` wins, except that null gives way and objects merge by field.
  function Merged(base: Json, override: Json): Json
    decreases override
  {
    if base.Object? && override.Object? then
      Object(map key | key in base.fields.Keys + override.fields.Keys ::
               if key !in override.fields then base.fields[key]
               else if key in base.fields then Merged(base.fields[key], override.fields[key])
               else override.fields[key])
    else if override.Null? then base
    else override
  }

  method DeepMerge(base: Json, override: Json) returns (merged: Json)
    ensures merged == Merged(base, override)
    decreases override
  {
    if base.Object? && override.Object? {
      var fields := base.fields;
      var left := override.fields.Keys;
      while left != {}
        invariant left <= override.fields.Keys
        invariant fields.Keys == base.fields.Keys + (override.fields.Keys - left)
        invariant forall key :: key in fields ==>
                    fields[key] == if key in override.fields && key !in left then Merged(base, override).fields[key]
                                   else base.fields[key]
        decreases left
      {
        var key :| key in left;
        var value := override.fields[key];
        if key in fields {
          value := DeepMerge(fields[key], override.fields[key]);
        }
        fields := fields[key := value];
        left := left - {key};
      }
      return Object(fields);
    }
    return if override.Null? then base else override;
  }

  // Merging a value into itself changes nothing.
  lemma {:induction false} MergeIntoSelf(x: Json)
    ensures Merged(x, x) == x
  {
    if x.Object? {
      forall key | key in x.fields
        ensures Merged(x.fields[key], x.fields[key]) == x.fields[key]
      {
        MergeIntoSelf(x.fields[key]);
      }
      assert Merged(x, x).fields == x.fields;
    }
  }

  // Merging the same override again changes nothing.
  lemma {:induction false} MergeAgain(base: Json, override: Json)
    ensures Merged(Merged(base, override), override) == Merged(base, override)
    decreases override
  {
    var once := Merged(base, override);
    if base.Object? && override.Object? {
      forall key | key in override.fields
        ensures Merged(once.fields[key], override.fields[key]) == once.fields[key]
      {
        if key in base.fields {
          MergeAgain(base.fields[key], override.fields[key]);
        } else {
          MergeIntoSelf(override.fields[key]);
        }
      }
      assert Merged(once, override).fields == once.fields;
    } else if !override.Null? {
      MergeIntoSelf(override);
    }
  }

  // The merged data already contains all the defaults.
  lemma {:induction false} MergeIsStable(base: Json, override: Json)
    ensures Merged(base, Merged(base, override)) == Merged(base, override)
    decreases override
  {
    var once := Merged(base, override);
    if base.Object? && override.Object? {
      forall key | key in base.fields
        ensures Merged(base.fields[key], once.fields[key]) == once.fields[key]
      {
        if key in override.fields {
          MergeIsStable(base.fields[key], override.fields[key]);
        } else {
          MergeIntoSelf(base.fields[key]);
        }
      }
      assert Merged(base, once).fields == once.fields;
    } else if override.Null? {
      MergeIntoSelf(base);
    }
  }

  // Every field of the override that is not null is in the result, and every
  // field of the defaults.
  lemma NothingIsDropped(base: Json, override: Json)
    requires base.Object? && override.Object?
    ensures Merged(base, override).Object?
    ensures Merged(base, override).fields.Keys == base.fields.Keys + override.fields.Keys
    ensures forall key :: key in override.fields && !override.fields[key].Null? && !override.fields[key].Object? ==>
              Merged(base, override).fields[key] == override.fields[key]
    ensures forall key :: key in base.fields && (key !in override.fields || override.fields[key].Null?) ==>
              Merged(base, override).fields[key] == base.fields[key]
  {
  }

  // The data file, and how often it was rewritten.
  class DataFile {
    var data: Json
    var writes: nat

    constructor (data: Json)
      ensures this.data == data && writes == 0
    {
      this.data := data;
      writes := 0;
    }

    // `load_mock_data`: the file is rewritten only if it lacks something, and
    // never again after that.
    method Load(defaults: Json) returns (merged: Json)
      modifies this
      ensures merged == data == Merged(defaults, old(data))
      ensures writes == old(writes) + if Merged(defaults, old(data)) != old(data) then 1 else 0
      ensures Merged(defaults, data) == data
    {
      merged := DeepMerge(defaults, data);
      MergeIsStable(defaults, data);
      if merged != data {
        data := merged;
        writes := writes + 1;
      }
    }
  }

  // Any number of loads: the data they leave and the writes they made.
  function AfterLoads(defaults: Json, data: Json, loads: nat): (Json, nat) {
    if loads == 0 then (data, 0)
    else
      var (before, writes) := AfterLoads(defaults, data, loads - 1);
      (Merged(defaults, before), writes + if Merged(defaults, before) != before then 1 else 0)
  }

  // However often it is loaded, the file is written once at most, and the
  // first load decides what it holds.
  lemma {:induction false} WrittenOnceAtMost(defaults: Json, data: Json, loads: nat)
    ensures AfterLoads(defaults, data, loads).1 <= 1
    ensures 0 < loads ==>
              && AfterLoads(defaults, data, loads).0 == Merged(defaults, data)
              && AfterLoads(defaults, data, loads).1 == if Merged(defaults, data) != data then 1 else 0
  {
    if 1 < loads {
      WrittenOnceAtMost(defaults, data, loads - 1);
      MergeIsStable(defaults, data);
    }
  }
}
