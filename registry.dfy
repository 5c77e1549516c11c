/**
 * The static name-to-mixin map `Mixin.mixins` and the two ways of adding to it,
 * `buildChain` and `buildMerge` (src/Mixin.js:6, 17-45).
 */
module Registry {
  import opened Wrappers
  import opened Text
  import opened Values
  import opened Errors

  /**
   * A merge mixin descriptor `{ name, keys, logic, use?, usesPrototype? }`; an
   * absent `use` is `Undefined`.
   */
  datatype Descriptor = Descriptor(name: string, keys: seq<string>, logic: Value, use: Value, usesPrototype: bool)

  /** What a registry name holds: a descriptor built by `buildMerge`, or whatever `buildChain` was given. */
  datatype Entry = Desc(d: Descriptor) | Chain(v: Value)

  /** The value `this.mixins[name]` reads as: descriptors are objects, so truthy. */
  predicate EntryTruthy(e: Entry)
  {
    e.Desc? || Truthy(e.v)
  }

  /** `this.mixins[name]` is truthy: the test both builders use to refuse a name. */
  predicate Taken(mixins: map<string, Entry>, name: string)
  {
    name in mixins && EntryTruthy(mixins[name])
  }

  /** `Reflect.ownKeys` of an object that is not null: an array also owns `length`. */
  function OwnKeys(v: Value): seq<string>
    requires v.Record? || v.List?
  {
    if v.Record? then v.keys else IndexKeys(|v.items|) + ["length"]
  }

  /** The property key a non-function `name` converts to. */
  function ChainKey(name: Value, mixin: Value, functionName: string): string
  {
    if IsFunction(name) && IsNil(mixin) then functionName else ToJsString(name)
  }

  class MixinRegistry {
    var mixins: map<string, Entry>

    constructor ()
      ensures mixins == map[]
    {
      mixins := map[];
    }

    /**
     * `buildChain(name, mixin)`. When `name` is a function and `mixin` is nil the
     * function itself is registered under its own `name` property, passed here as
     * `functionName`. A name already holding a truthy value is refused and the
     * registry is left as it was; otherwise exactly that one name is (re)bound.
     */
    method BuildChain(name: Value, mixin: Value, functionName: string) returns (failure: Option<Failure>)
      modifies this
      ensures var key := ChainKey(name, mixin, functionName);
        var stored := if IsFunction(name) && IsNil(mixin) then name else mixin;
        if Taken(old(mixins), key) then failure == Some(Mixin(NameTaken(key))) && mixins == old(mixins)
        else failure == None && mixins == old(mixins)[key := Chain(stored)]
    {
      var value := mixin;
      var keyString := ToJsString(name);
      if IsFunction(name) && IsNil(mixin) {
        value := name;
        keyString := functionName;
      }
      if keyString in mixins && EntryTruthy(mixins[keyString]) {
        return Some(Mixin(NameTaken(keyString)));
      }
      mixins := mixins[keyString := Chain(value)];
      failure := None;
    }

    /**
     * `buildMerge(name, mixin)`: `name` must be a string and `mixin` of type
     * `object` (which `null` is); a taken name is refused; then
     * `Reflect.ownKeys(null)` throws for `null`. On success the entry records the
     * name, the fragment's own keys and the fragment itself as `logic`.
     */
    method BuildMerge(name: Value, mixin: Value) returns (failure: Option<Failure>)
      modifies this
      ensures !name.Str? || TypeOf(mixin) != "object" ==>
        failure == Some(Mixin(BadBuildArguments)) && mixins == old(mixins)
      ensures name.Str? && TypeOf(mixin) == "object" && Taken(old(mixins), name.s) ==>
        failure == Some(Mixin(NameTaken(name.s))) && mixins == old(mixins)
      ensures name.Str? && mixin.Null? && !Taken(old(mixins), name.s) ==>
        failure == Some(HostTypeError) && mixins == old(mixins)
      ensures name.Str? && (mixin.Record? || mixin.List?) && !Taken(old(mixins), name.s) ==>
        failure == None
        && mixins == old(mixins)[name.s := Desc(Descriptor(name.s, OwnKeys(mixin), mixin, Undefined, false))]
    {
      if !name.Str? || TypeOf(mixin) != "object" {
        return Some(Mixin(BadBuildArguments));
      }
      if name.s in mixins && EntryTruthy(mixins[name.s]) {
        return Some(Mixin(NameTaken(name.s)));
      }
      if mixin.Null? {
        return Some(HostTypeError);
      }
      mixins := mixins[name.s := Desc(Descriptor(name.s, OwnKeys(mixin), mixin, Undefined, false))];
      failure := None;
    }
  }

  /**
   * A fresh registry, a chain `Bird`, then the same name again: the second
   * registration is refused and the first entry stays.
   */
  method RegisterTwiceScenario(bird: nat) returns (first: Option<Failure>, second: Option<Failure>)
    ensures first == None && second == Some(Mixin(NameTaken("Bird")))
  {
    var r := new MixinRegistry();
    first := r.BuildChain(Str("Bird"), Fn(bird), "");
    second := r.BuildChain(Str("Bird"), Fn(bird), "");
    assert r.mixins == map["Bird" := Chain(Fn(bird))];
  }
}
