/**
 * `register` and `structure` (src/Mixin.js:47-79): reading a class's merge
 * schema and running each of its entries, a merge type with a list of mixin
 * references, through expansion and `_doMerge`; and the fluent `_merge`
 * (src/Mixin.js:298-306) that builds a one-entry schema.
 */
module Registration {
  import opened Wrappers
  import opened Text
  import opened Values
  import opened Errors
  import opened Results
  import opened Registry
  import opened Schema
  import opened MergeTypes
  import opened Merging
  import opened Executor

  /** `Object.entries(v)` of a value that is not null or undefined: its own keys paired with their values. */
  function Entries(v: Value): (r: seq<(string, Value)>)
    requires !IsNil(v)
    ensures |r| == |ObjectKeys(v)|
    ensures forall i :: 0 <= i < |r| ==> r[i] == (ObjectKeys(v)[i], Get(v, ObjectKeys(v)[i]))
  {
    var keys := ObjectKeys(v);
    seq(|keys|, i requires 0 <= i < |keys| => (keys[i], Get(v, keys[i])))
  }

  /**
   * One schema entry (lines 59-76): the key must name a merge type once its
   * trailing digits are gone, then the references are expanded (`map` needs an
   * array) and merged with that type's options.
   */
  function StructureEntry(mixins: map<string, Entry>, host: Host, key: string, refs: Value): (r: Merged)
    ensures MergeTypeOfKey(key).None? ==> r == Merged(mixins, host, Some(Mixin(UnknownMergeType(StripTrailingDigits(key)))))
    ensures MergeTypeOfKey(key).Some? && !refs.List? ==> r == Merged(mixins, host, Some(HostTypeError))
  {
    match MergeTypeOfKey(key)
    case None => Merged(mixins, host, Some(Mixin(UnknownMergeType(StripTrailingDigits(key)))))
    case Some(t) =>
      if !refs.List? then Merged(mixins, host, Some(HostTypeError))
      else
        var ex := ExpandAll(mixins, refs.items);
        if ex.out.Err? then Merged(ex.mixins, host, Some(ex.out.failure))
        else MergeAll(ex.mixins, host, OptionsOf(t), ex.out.value)
  }

  /** The entries in order, each one's merge complete before the next starts; the first failure stops the rest. */
  function StructureEntries(mixins: map<string, Entry>, host: Host, entries: seq<(string, Value)>): (r: Merged)
    decreases |entries|
  {
    if |entries| == 0 then Merged(mixins, host, None)
    else
      var done := StructureEntries(mixins, host, entries[..|entries| - 1]);
      if done.failure.Some? then done
      else StructureEntry(done.mixins, done.host, entries[|entries| - 1].0, entries[|entries| - 1].1)
  }

  /** `structure(target, mergeSchema)`: `Object.entries` of `undefined` or `null` throws. */
  function StructureSchema(mixins: map<string, Entry>, host: Host, schema: Value): (r: Merged)
    ensures IsNil(schema) ==> r == Merged(mixins, host, Some(HostTypeError))
  {
    if IsNil(schema) then Merged(mixins, host, Some(HostTypeError))
    else StructureEntries(mixins, host, Entries(schema))
  }

  /** The member `register` reads when no method name is given (line 47). */
  const DefaultSchemaMethod: string := "mergeMixin"

  /**
   * `register(targetClass, methodName)`: the schema is the class's own member
   * under `methodName` and must be a non-null object; nothing changes otherwise.
   */
  function RegisterSchema(mixins: map<string, Entry>, host: Host, methodName: string): (r: Merged)
    ensures var schema := Member(host.statics, methodName);
      IsNil(schema) || TypeOf(schema) != "object" ==> r == Merged(mixins, host, Some(Mixin(MissingMergeSchema(methodName))))
  {
    var schema := Member(host.statics, methodName);
    if IsNil(schema) || TypeOf(schema) != "object" then Merged(mixins, host, Some(Mixin(MissingMergeSchema(methodName))))
    else StructureSchema(mixins, host, schema)
  }

  lemma StructureEntriesStep(mixins: map<string, Entry>, host: Host, entries: seq<(string, Value)>, i: nat)
    requires i < |entries|
    ensures var done := StructureEntries(mixins, host, entries[..i]);
      StructureEntries(mixins, host, entries[..i + 1])
      == if done.failure.Some? then done else StructureEntry(done.mixins, done.host, entries[i].0, entries[i].1)
  {
    assert entries[..i + 1][..i] == entries[..i];
  }

  /** Once an entry fails, the later entries change nothing. */
  lemma {:induction false} StructureEntriesStops(mixins: map<string, Entry>, host: Host, entries: seq<(string, Value)>, n: nat)
    requires n <= |entries| && StructureEntries(mixins, host, entries[..n]).failure.Some?
    ensures StructureEntries(mixins, host, entries) == StructureEntries(mixins, host, entries[..n])
    decreases |entries| - n
  {
    if n < |entries| {
      StructureEntriesStep(mixins, host, entries, n);
      StructureEntriesStops(mixins, host, entries, n + 1);
    } else {
      assert entries[..n] == entries;
    }
  }

  /** The body of the schema loop for one entry (lines 59-76). */
  method MergeEntry(reg: MixinRegistry, target: Target, key: string, refs: Value) returns (failure: Option<Failure>)
    modifies reg, target
    ensures Merged(reg.mixins, target.State(), failure) == StructureEntry(old(reg.mixins), old(target.State()), key, refs)
  {
    var t := MergeTypeOfKey(key);
    if t.None? {
      return Some(Mixin(UnknownMergeType(StripTrailingDigits(key))));
    }
    if !refs.List? {
      return Some(HostTypeError);
    }
    var expanded := ExpandMixins(reg, refs.items);
    if expanded.Err? {
      return Some(expanded.failure);
    }
    failure := DoMerge(reg, target, OptionsOf(t.value), expanded.value);
  }

  /** `structure(target, mergeSchema)`: the loop over the schema's entries (lines 58-78). */
  method Structure(reg: MixinRegistry, target: Target, schema: Value) returns (failure: Option<Failure>)
    modifies reg, target
    ensures Merged(reg.mixins, target.State(), failure) == StructureSchema(old(reg.mixins), old(target.State()), schema)
  {
    if IsNil(schema) {
      return Some(HostTypeError);
    }
    var entries := Entries(schema);
    ghost var mixins0 := reg.mixins;
    ghost var host0 := target.State();
    var i := 0;
    while i < |entries|
      invariant 0 <= i <= |entries|
      invariant StructureEntries(mixins0, host0, entries[..i]) == Merged(reg.mixins, target.State(), None)
    {
      StructureEntriesStep(mixins0, host0, entries, i);
      failure := MergeEntry(reg, target, entries[i].0, entries[i].1);
      if failure.Some? {
        StructureEntriesStops(mixins0, host0, entries, i + 1);
        return;
      }
      i := i + 1;
    }
    assert entries[..i] == entries;
    return None;
  }

  /** `register(targetClass, methodName)` (lines 47-55). */
  method Register(reg: MixinRegistry, target: Target, methodName: string) returns (failure: Option<Failure>)
    modifies reg, target
    ensures Merged(reg.mixins, target.State(), failure) == RegisterSchema(old(reg.mixins), old(target.State()), methodName)
  {
    var schema := Member(target.statics, methodName);
    if IsNil(schema) || TypeOf(schema) != "object" {
      return Some(Mixin(MissingMergeSchema(methodName)));
    }
    failure := Structure(reg, target, schema);
  }

  /** The one-entry schema `{ [mergeType]: list }` the fluent builders pass on, a lone reference wrapped in a list. */
  function FluentSchema(mergeType: string, schema: Value): (r: Value)
    ensures WellFormedRecord(r) && r.keys == [mergeType]
    ensures Get(r, mergeType).List?
    ensures schema.List? ==> Get(r, mergeType) == schema
    ensures !schema.List? ==> Get(r, mergeType) == List([schema])
  {
    var list := if schema.List? then schema else List([schema]);
    Record([mergeType], map[mergeType := list])
  }

  /** A fluent merge is exactly one schema entry under its merge type. */
  lemma FluentMergeIsOneEntry(mixins: map<string, Entry>, host: Host, mergeType: string, schema: Value)
    ensures StructureSchema(mixins, host, FluentSchema(mergeType, schema))
         == StructureEntry(mixins, host, mergeType, if schema.List? then schema else List([schema]))
  {
    var list := if schema.List? then schema else List([schema]);
    var entries := Entries(FluentSchema(mergeType, schema));
    assert entries == [(mergeType, list)];
    StructureEntriesStep(mixins, host, entries, 0);
    assert entries[..0] == [] && entries[..1] == entries;
  }

  /** `_merge(mergeType, mergeSchema)` on the builder's parent class (lines 298-306). */
  method FluentMerge(reg: MixinRegistry, parent: Target, mergeType: string, schema: Value) returns (failure: Option<Failure>)
    modifies reg, parent
    ensures Merged(reg.mixins, parent.State(), failure)
         == StructureSchema(old(reg.mixins), old(parent.State()), FluentSchema(mergeType, schema))
  {
    var list := if schema.List? then schema else List([schema]);
    failure := Structure(reg, parent, Record([mergeType], map[mergeType := list]));
  }

  /**
   * Registering with the default method name reads `mergeMixin`, singular: a
   * class that declares only `mergeMixins` has no schema there, so it is
   * refused with "missing mergeSchema method", registry and class unchanged.
   */
  lemma PluralSchemaMissed(mixins: map<string, Entry>, host: Host, schema: Value)
    requires "mergeMixins" in host.statics && host.statics["mergeMixins"] == schema
    requires DefaultSchemaMethod !in host.statics
    ensures RegisterSchema(mixins, host, DefaultSchemaMethod)
         == Merged(mixins, host, Some(Mixin(MissingMergeSchema("mergeMixin"))))
  {
  }

  /**
   * A schema key that is not a merge type, such as `mergeOverr`, is refused
   * before any of its references is looked at: registry and class are unchanged.
   */
  lemma MisspeltSchemaRefused(mixins: map<string, Entry>, host: Host, methodName: string, refs: Value)
    requires Member(host.statics, methodName) == Record(["mergeOverr"], map["mergeOverr" := refs])
    ensures RegisterSchema(mixins, host, methodName) == Merged(mixins, host, Some(Mixin(UnknownMergeType("mergeOverr"))))
  {
    MisspeltKeyRefused();
    assert StripTrailingDigits("mergeOverr") == "mergeOverr";
    var schema := Member(host.statics, methodName);
    var entries := Entries(schema);
    assert entries == [("mergeOverr", refs)];
    StructureEntriesStep(mixins, host, entries, 0);
    assert entries[..0] == [] && entries[..1] == entries;
  }
}
