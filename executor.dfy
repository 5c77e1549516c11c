/**
 * `_doMerge` as the source runs it (src/Mixin.js:166-240): loops over the
 * expanded mixins, over their `use` entries and over their keys, replacing the
 * target's members one at a time and writing the filtered keys back to shared
 * registry entries. Each method is proved to leave the state the `Merging`
 * functions describe.
 */
module Executor {
  import opened Wrappers
  import opened Values
  import opened Errors
  import opened Results
  import opened Registry
  import opened Schema
  import opened MergeTypes
  import opened Validator
  import opened Merging

  /** The class a schema is merged into: its own members and those of its `prototype`, if it has one. */
  class Target {
    var statics: map<string, Value>
    var proto: Option<map<string, Value>>

    constructor (statics: map<string, Value>, proto: Option<map<string, Value>>)
      ensures this.statics == statics && this.proto == proto
    {
      this.statics := statics;
      this.proto := proto;
    }

    function State(): Host
      reads this
    {
      Host(statics, proto)
    }

    /** `Object.defineProperty(scope, name, { value: v, writable: true })` on the chosen scope. */
    method Define(usesPrototype: bool, name: string, v: Value)
      requires ScopeOf(State(), usesPrototype).Some?
      modifies this
      ensures State() == WithScope(old(State()), usesPrototype, ScopeOf(old(State()), usesPrototype).value[name := v])
    {
      if usesPrototype {
        proto := Some(proto.value[name := v]);
      } else {
        statics := statics[name := v];
      }
    }
  }

  /** Once a prefix of the `use` entries fails, the whole scan fails the same way. */
  lemma {:induction false} ScanUseStops(items: seq<Value>, keys: seq<string>, n: nat)
    requires n <= |items| && ScanUse(items[..n], keys).Err?
    ensures ScanUse(items, keys) == ScanUse(items[..n], keys)
    decreases |items| - n
  {
    if n < |items| {
      assert items[..n + 1][..n] == items[..n];
      ScanUseStops(items, keys, n + 1);
    } else {
      assert items[..n] == items;
    }
  }

  /** The restriction filter of lines 173-181: collects the aliases and the offending entries. */
  method ScanRestrictions(items: seq<Value>, keys: seq<string>) returns (r: Result<UseScan>)
    ensures r == ScanUse(items, keys)
  {
    var aliases: map<string, Value> := map[];
    var offenders: seq<Value> := [];
    var i := 0;
    while i < |items|
      invariant 0 <= i <= |items|
      invariant ScanUse(items[..i], keys) == Ok(UseScan(aliases, offenders))
    {
      assert items[..i + 1][..i] == items[..i];
      var restriction := ReadRestriction(items[i]);
      if restriction.Err? {
        ScanUseStops(items, keys, i + 1);
        return Err(restriction.failure);
      }
      var rs := restriction.value;
      if rs.alias.Some? {
        aliases := aliases[rs.original.s := rs.alias.value];
      }
      if !InKeys(rs.original, keys) {
        offenders := offenders + [items[i]];
      }
      i := i + 1;
    }
    assert items[..i] == items;
    return Ok(UseScan(aliases, offenders));
  }

  /**
   * One key of the loop of lines 194-237: the member under the installed name
   * and the logic under the key are read and validated, and the member is
   * replaced; a failure leaves the target as it was.
   */
  method InstallMember(target: Target, usesPrototype: bool, d: Descriptor, aliases: map<string, Value>, opts: Options,
                       property: string) returns (failure: Option<Failure>)
    requires ScopeOf(target.State(), usesPrototype).Some?
    modifies target
    ensures var r := InstallKey(ScopeOf(old(target.State()), usesPrototype).value, d, aliases, opts, property);
      (r.Ok? ==> failure.None? && target.State() == WithScope(old(target.State()), usesPrototype, r.value))
      && (r.Err? ==> failure == Some(r.failure) && target.State() == old(target.State()))
  {
    var scope := ScopeOf(target.State(), usesPrototype).value;
    var name := InstalledName(aliases, property);
    var existing := Member(scope, name);
    if IsNil(d.logic) {
      return Some(HostTypeError);
    }
    var fragment := ReadFragment(scope, Get(d.logic, property));
    if fragment.Err? {
      return Some(fragment.failure);
    }
    var missing := if fragment.value.missing.Some? then Some(ItemStrings(fragment.value.missing.value)) else None;
    var verdict := ValidateMethodUsage(d.name, name, Truthy(existing), opts.IsHook(), opts.override, missing);
    if verdict.Some? {
      return Some(Mixin(verdict.value));
    }
    target.Define(usesPrototype, name, Installed(Wrap(opts, fragment.value.action, existing)));
    return None;
  }

  /** The loop body below: key `i` installed over the scope the earlier keys left. */
  method InstallNext(target: Target, usesPrototype: bool, d: Descriptor, aliases: map<string, Value>, opts: Options,
                     keys: seq<string>, i: nat, ghost start: map<string, Value>, ghost cur: map<string, Value>)
    returns (failure: Option<Failure>, ghost next: map<string, Value>)
    requires i < |keys| && ScopeOf(target.State(), usesPrototype) == Some(cur)
    requires InstallKeys(start, d, aliases, opts, keys[..i]) == Installing(cur, None)
    modifies target
    ensures InstallKeys(start, d, aliases, opts, keys[..i + 1]) == Installing(next, failure)
    ensures target.State() == WithScope(old(target.State()), usesPrototype, next)
  {
    InstallKeysStep(start, d, aliases, opts, keys, i);
    ghost var step := InstallKey(cur, d, aliases, opts, keys[i]);
    failure := InstallMember(target, usesPrototype, d, aliases, opts, keys[i]);
    next := if step.Ok? then step.value else cur;
  }

  /**
   * The key loop of lines 194-237 on one scope: the keys in order; the first
   * failure stops the loop, keeping the members installed before it.
   */
  method InstallMembers(target: Target, usesPrototype: bool, d: Descriptor, aliases: map<string, Value>, opts: Options,
                        keys: seq<string>) returns (failure: Option<Failure>)
    requires ScopeOf(target.State(), usesPrototype).Some?
    modifies target
    ensures var ins := InstallKeys(ScopeOf(old(target.State()), usesPrototype).value, d, aliases, opts, keys);
      failure == ins.failure && target.State() == WithScope(old(target.State()), usesPrototype, ins.scope)
  {
    ghost var start := ScopeOf(target.State(), usesPrototype).value;
    ghost var host0 := target.State();
    ghost var cur := start;
    var i := 0;
    while i < |keys|
      invariant 0 <= i <= |keys|
      invariant InstallKeys(start, d, aliases, opts, keys[..i]) == Installing(cur, None)
      invariant usesPrototype ==> target.proto == Some(cur) && target.statics == host0.statics
      invariant !usesPrototype ==> target.statics == cur && target.proto == host0.proto
    {
      var f;
      f, cur := InstallNext(target, usesPrototype, d, aliases, opts, keys, i, start, cur);
      if f.Some? {
        InstallKeysStops(start, d, aliases, opts, keys, i + 1);
        return f;
      }
      i := i + 1;
    }
    assert keys[..i] == keys;
    return None;
  }

  /**
   * One element of the expanded list (lines 171-237): resolve it, check its
   * `use` entries, narrow its keys (writing them back to a registry entry) and
   * install the keys into the scope it names.
   */
  method MergeMixin(reg: MixinRegistry, target: Target, opts: Options, e: Expanded) returns (failure: Option<Failure>)
    modifies reg, target
    ensures Merged(reg.mixins, target.State(), failure) == MergeOne(old(reg.mixins), old(target.State()), opts, e)
  {
    var resolved := Resolve(reg.mixins, e);
    if resolved.Err? {
      return Some(resolved.failure);
    }
    var d := resolved.value;
    var use := UseItems(d.use);
    if use.Err? {
      return Some(use.failure);
    }
    var items := use.value;
    var scan := ScanRestrictions(items, d.keys);
    if scan.Err? {
      return Some(scan.failure);
    }
    if |scan.value.offenders| > 0 {
      return Some(Mixin(InvalidUse(ItemStrings(scan.value.offenders))));
    }
    var aliases := scan.value.aliases;
    var keys := d.keys;
    if |items| > 0 {
      keys := FilterKeys(d.keys, items, aliases);
      if e.Shared? {
        reg.mixins := reg.mixins[e.name := Desc(d.(keys := keys))];
      }
    }
    if ScopeOf(target.State(), d.usesPrototype).None? {
      // reading a member of the missing `prototype` throws at the first key
      return if |keys| > 0 then Some(HostTypeError) else None;
    }
    failure := InstallMembers(target, d.usesPrototype, d, aliases, opts, keys);
  }

  /** `_doMerge(target, options, mixins)`: the elements in order, stopping at the first failure. */
  method DoMerge(reg: MixinRegistry, target: Target, opts: Options, es: seq<Expanded>) returns (failure: Option<Failure>)
    modifies reg, target
    ensures Merged(reg.mixins, target.State(), failure) == MergeAll(old(reg.mixins), old(target.State()), opts, es)
  {
    ghost var mixins0 := reg.mixins;
    ghost var host0 := target.State();
    var i := 0;
    while i < |es|
      invariant 0 <= i <= |es|
      invariant MergeAll(mixins0, host0, opts, es[..i]) == Merged(reg.mixins, target.State(), None)
    {
      MergeAllStep(mixins0, host0, opts, es, i);
      failure := MergeMixin(reg, target, opts, es[i]);
      if failure.Some? {
        MergeAllStops(mixins0, host0, opts, es, i + 1);
        return;
      }
      i := i + 1;
    }
    assert es[..i] == es;
    return None;
  }
}
