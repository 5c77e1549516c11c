/**
 * What one `_doMerge` pass does (src/Mixin.js:166-240), as functions of the
 * registry and of the target's two member scopes: the `use` restrictions and
 * their `"x as y"` aliases, the key filter, the per-key validation and the
 * wrapper each install leaves in place of the previous member.
 */
module Merging {
  import opened Wrappers
  import opened Text
  import opened Values
  import opened Errors
  import opened Results
  import opened Registry
  import opened Schema
  import opened MergeTypes
  import opened Validator
  import opened Overrides
  import opened Dispatch

  /**
   * The target of a merge: the members visible on the class itself (`statics`)
   * and, when the class has one, on its `prototype` object. Each map stands for
   * property lookup on that object, inherited members included.
   */
  datatype Host = Host(statics: map<string, Value>, proto: Option<map<string, Value>>)

  /** `target[name]`: a member that is not there reads as `undefined`. */
  function Member(scope: map<string, Value>, name: string): (r: Value)
    ensures name !in scope ==> r == Undefined
  {
    if name in scope then scope[name] else Undefined
  }

  /** The scope a descriptor merges into: `targetClass.prototype` or `targetClass` (src/Mixin.js:171). */
  function ScopeOf(host: Host, usesPrototype: bool): Option<map<string, Value>>
  {
    if usesPrototype then host.proto else Some(host.statics)
  }

  /** The target with the chosen scope replaced. */
  function WithScope(host: Host, usesPrototype: bool, scope: map<string, Value>): (r: Host)
    ensures ScopeOf(r, usesPrototype) == Some(scope)
    ensures ScopeOf(r, !usesPrototype) == ScopeOf(host, !usesPrototype)
  {
    if usesPrototype then host.(proto := Some(scope)) else host.(statics := scope)
  }

  /**
   * The descriptor an expanded element stands for: a registry name is looked up
   * when the merge reaches it. Reading `usesPrototype` of `undefined` throws, and
   * a chain entry has no `keys` to iterate, so both are type errors.
   */
  function Resolve(mixins: map<string, Entry>, e: Expanded): (r: Result<Descriptor>)
    ensures e.Inline? ==> r == Ok(e.d)
    ensures e.Shared? ==> (r.Ok? <==> e.name in mixins && mixins[e.name].Desc?)
    ensures e.Shared? && r.Ok? ==> r.value == mixins[e.name].d
    ensures e.NotAReference? ==> r == Err(HostTypeError)
  {
    match e
    case Inline(d) => Ok(d)
    case Shared(name) => if name in mixins && mixins[name].Desc? then Ok(mixins[name].d) else Err(HostTypeError)
    case NotAReference => Err(HostTypeError)
  }

  /** `(mixin.use || [ ])`: a truthy `use` that is not an array has no `filter`. */
  function UseItems(use: Value): (r: Result<seq<Value>>)
    ensures r.Ok? <==> !Truthy(use) || use.List?
    ensures r.Ok? && use.List? ==> r.value == use.items
    ensures r.Ok? && !use.List? ==> r.value == []
  {
    if !Truthy(use) then Ok([]) else if use.List? then Ok(use.items) else Err(HostTypeError)
  }

  /**
   * A restriction read: what it is checked against and, for an `"x as y"`
   * entry, the alias stored for `x` (`undefined` when the split finds no
   * `' as '`, as for a tab around `as`).
   */
  datatype Restriction = Restriction(original: Value, alias: Option<Value>)

  /**
   * One `use` entry. The `/\sas\s/` test converts the entry to a string; a match
   * on something that is not a string then fails at `split`.
   */
  function ReadRestriction(r: Value): (res: Result<Restriction>)
    ensures res.Ok? && res.value.alias.Some? ==> res.value.original.Str?
    ensures !HasSpacedAs(ToJsString(r)) ==> res == Ok(Restriction(r, None))
    ensures res.Err? <==> HasSpacedAs(ToJsString(r)) && !r.Str?
  {
    if HasSpacedAs(ToJsString(r)) then
      if r.Str? then
        var parts := Split(r.s, " as ");
        Ok(Restriction(Str(parts[0]), Some(if |parts| > 1 then Str(parts[1]) else Undefined)))
      else Err(HostTypeError)
    else Ok(Restriction(r, None))
  }

  /** `mixin.keys.includes(restriction)`: strict equality with one of the key strings. */
  predicate InKeys(v: Value, keys: seq<string>)
  {
    v.Str? && v.s in keys
  }

  /** `v` is an `"x as y"` entry that stores `alias` for the original `o`. */
  predicate AliasEntry(v: Value, o: string, alias: Value)
  {
    ReadRestriction(v).Ok? && ReadRestriction(v).value.original == Str(o) && ReadRestriction(v).value.alias == Some(alias)
  }

  /** The `aliases` dictionary and the entries that name no key, as the restriction filter leaves them. */
  datatype UseScan = UseScan(aliases: map<string, Value>, offenders: seq<Value>)

  /**
   * The restriction filter over the `use` entries in order: each alias entry
   * records (or overwrites) `aliases[x]`, and each entry whose reduced name is
   * not a key is kept, as written, as an offender.
   */
  function ScanUse(items: seq<Value>, keys: seq<string>): (r: Result<UseScan>)
    decreases |items|
  {
    if |items| == 0 then Ok(UseScan(map[], []))
    else
      match ScanUse(items[..|items| - 1], keys)
      case Err(f) => Err(f)
      case Ok(acc) =>
        var last := items[|items| - 1];
        match ReadRestriction(last)
        case Err(f) => Err(f)
        case Ok(rs) =>
          var aliases := if rs.alias.Some? then acc.aliases[rs.original.s := rs.alias.value] else acc.aliases;
          var offenders := if InKeys(rs.original, keys) then acc.offenders else acc.offenders + [last];
          Ok(UseScan(aliases, offenders))
  }

  /** The scan of a non-empty list, when it succeeds, as the scan of all but the last entry extended by the last. */
  lemma ScanUseLast(items: seq<Value>, keys: seq<string>) returns (acc: UseScan, rs: Restriction)
    requires |items| > 0 && ScanUse(items, keys).Ok?
    ensures ScanUse(items[..|items| - 1], keys) == Ok(acc) && ReadRestriction(items[|items| - 1]) == Ok(rs)
    ensures ScanUse(items, keys) == Ok(UseScan(
      if rs.alias.Some? then acc.aliases[rs.original.s := rs.alias.value] else acc.aliases,
      if InKeys(rs.original, keys) then acc.offenders else acc.offenders + [items[|items| - 1]]))
  {
    acc := ScanUse(items[..|items| - 1], keys).value;
    rs := ReadRestriction(items[|items| - 1]).value;
  }

  /** The scan fails exactly when some entry cannot be read. */
  lemma {:induction false} ScanUseReadable(items: seq<Value>, keys: seq<string>)
    ensures ScanUse(items, keys).Ok? <==> forall i :: 0 <= i < |items| ==> ReadRestriction(items[i]).Ok?
    decreases |items|
  {
    if |items| > 0 {
      var init := items[..|items| - 1];
      var last := items[|items| - 1];
      ScanUseReadable(init, keys);
      assert ScanUse(items, keys).Ok? <==> ScanUse(init, keys).Ok? && ReadRestriction(last).Ok?;
      if ScanUse(items, keys).Ok? {
        forall i | 0 <= i < |items| ensures ReadRestriction(items[i]).Ok? {
          if i < |init| {
            assert items[i] == init[i];
            assert ReadRestriction(init[i]).Ok?;
          } else {
            assert i == |items| - 1;
          }
        }
      } else if ReadRestriction(last).Ok? {
        var i :| 0 <= i < |init| && !ReadRestriction(init[i]).Ok?;
        assert items[i] == init[i];
      }
    }
  }

  /** An entry the restriction filter refuses: it reads, but its reduced name is not a key. */
  ghost predicate Offends(v: Value, keys: seq<string>)
  {
    ReadRestriction(v).Ok? && !InKeys(ReadRestriction(v).value.original, keys)
  }

  /** `offenders` holds exactly the entries of `items` that offend. */
  ghost predicate OffendersOf(items: seq<Value>, keys: seq<string>, offenders: seq<Value>)
  {
    forall v :: v in offenders <==> v in items && Offends(v, keys)
  }

  /** The offenders are exactly the readable entries whose reduced name is not a key, kept as written. */
  lemma {:induction false} ScanUseOffenders(items: seq<Value>, keys: seq<string>)
    requires ScanUse(items, keys).Ok?
    ensures OffendersOf(items, keys, ScanUse(items, keys).value.offenders)
    decreases |items|
  {
    if |items| > 0 {
      var init := items[..|items| - 1];
      var last := items[|items| - 1];
      var acc, rs := ScanUseLast(items, keys);
      ScanUseOffenders(init, keys);
      OffendersExtend(items, keys, acc.offenders, rs);
    }
  }

  lemma OffendersExtend(items: seq<Value>, keys: seq<string>, offenders: seq<Value>, rs: Restriction)
    requires |items| > 0 && OffendersOf(items[..|items| - 1], keys, offenders) && ReadRestriction(items[|items| - 1]) == Ok(rs)
    ensures OffendersOf(items, keys, if InKeys(rs.original, keys) then offenders else offenders + [items[|items| - 1]])
  {
    var init, last := items[..|items| - 1], items[|items| - 1];
    assert items == init + [last];
    var after := if InKeys(rs.original, keys) then offenders else offenders + [last];
    forall v ensures v in after <==> v in items && Offends(v, keys) {
      assert v in items <==> v in init || v == last;
    }
  }

  /** Every alias entry of `items` has its original name among `aliases`. */
  ghost predicate AliasesCover(items: seq<Value>, aliases: map<string, Value>)
  {
    forall v :: v in items && ReadRestriction(v).Ok? && ReadRestriction(v).value.alias.Some? ==>
      ReadRestriction(v).value.original.s in aliases
  }

  /** Every alias entry of the `use` list has its original name among the aliases. */
  lemma {:induction false} ScanUseAliasesCover(items: seq<Value>, keys: seq<string>)
    requires ScanUse(items, keys).Ok?
    ensures AliasesCover(items, ScanUse(items, keys).value.aliases)
    decreases |items|
  {
    if |items| > 0 {
      var init := items[..|items| - 1];
      var last := items[|items| - 1];
      var acc, rs := ScanUseLast(items, keys);
      ScanUseAliasesCover(init, keys);
      AliasesCoverExtend(items, acc.aliases, rs);
    }
  }

  lemma AliasesCoverExtend(items: seq<Value>, aliases: map<string, Value>, rs: Restriction)
    requires |items| > 0 && AliasesCover(items[..|items| - 1], aliases) && ReadRestriction(items[|items| - 1]) == Ok(rs)
    ensures AliasesCover(items, if rs.alias.Some? then aliases[rs.original.s := rs.alias.value] else aliases)
  {
    var init, last := items[..|items| - 1], items[|items| - 1];
    assert items == init + [last];
    var after := if rs.alias.Some? then aliases[rs.original.s := rs.alias.value] else aliases;
    forall v | v in items && ReadRestriction(v).Ok? && ReadRestriction(v).value.alias.Some?
      ensures ReadRestriction(v).value.original.s in after
    {
      if v != last {
        assert v in init;
      }
    }
  }

  /** Every alias in `aliases` has an entry of `items` that writes it. */
  ghost predicate AliasSources(items: seq<Value>, aliases: map<string, Value>)
  {
    forall o :: o in aliases ==> exists v :: v in items && AliasEntry(v, o, aliases[o])
  }

  /** Every alias comes from an entry of the `use` list (the last one written for that name). */
  lemma {:induction false} ScanUseAliasesSource(items: seq<Value>, keys: seq<string>)
    requires ScanUse(items, keys).Ok?
    ensures AliasSources(items, ScanUse(items, keys).value.aliases)
    decreases |items|
  {
    if |items| > 0 {
      var init := items[..|items| - 1];
      var last := items[|items| - 1];
      var acc, rs := ScanUseLast(items, keys);
      ScanUseAliasesSource(init, keys);
      if rs.alias.Some? {
        AliasSourcesExtend(items, acc.aliases, rs.original.s, rs.alias.value);
      } else {
        AliasSourcesKept(items, acc.aliases);
      }
    }
  }

  lemma AliasSourcesExtend(items: seq<Value>, aliases: map<string, Value>, o': string, a: Value)
    requires |items| > 0 && AliasSources(items[..|items| - 1], aliases) && AliasEntry(items[|items| - 1], o', a)
    ensures AliasSources(items, aliases[o' := a])
  {
    var init, last := items[..|items| - 1], items[|items| - 1];
    assert items == init + [last];
    var after := aliases[o' := a];
    forall o | o in after ensures exists v :: v in items && AliasEntry(v, o, after[o]) {
      if o == o' {
        assert last in items && AliasEntry(last, o, after[o]);
      } else {
        var v :| v in init && AliasEntry(v, o, aliases[o]);
        assert v in items && AliasEntry(v, o, after[o]);
      }
    }
  }

  lemma AliasSourcesKept(items: seq<Value>, aliases: map<string, Value>)
    requires |items| > 0 && AliasSources(items[..|items| - 1], aliases)
    ensures AliasSources(items, aliases)
  {
    var init := items[..|items| - 1];
    forall o | o in aliases ensures exists v :: v in items && AliasEntry(v, o, aliases[o]) {
      var v :| v in init && AliasEntry(v, o, aliases[o]);
      assert v in items;
    }
  }

  /**
   * `mixin.keys.filter(...)` under a non-empty `use`: a key survives when the
   * `use` list holds it as written or it was aliased; order is kept
   * (`FilterKeysInOrder`).
   */
  function FilterKeys(keys: seq<string>, use: seq<Value>, aliases: map<string, Value>): (r: seq<string>)
    ensures |r| <= |keys|
    ensures forall k :: k in r <==> k in keys && (IncludesString(use, k) || k in aliases)
    decreases |keys|
  {
    if |keys| == 0 then []
    else
      var rest := FilterKeys(keys[..|keys| - 1], use, aliases);
      var k := keys[|keys| - 1];
      assert keys == keys[..|keys| - 1] + [k];
      if IncludesString(use, k) || k in aliases then rest + [k] else rest
  }

  /**
   * The positions of `keys` whose key survives the filter, in increasing
   * order: every surviving position appears once, and no other.
   */
  ghost function KeptPositions(keys: seq<string>, use: seq<Value>, aliases: map<string, Value>): (ix: seq<nat>)
    ensures forall i :: 0 <= i < |ix| ==> ix[i] < |keys|
    ensures forall i, j :: 0 <= i < j < |ix| ==> ix[i] < ix[j]
    ensures forall m :: m in ix <==> 0 <= m < |keys| && (IncludesString(use, keys[m]) || keys[m] in aliases)
    decreases |keys|
  {
    if |keys| == 0 then []
    else
      var rest := KeptPositions(keys[..|keys| - 1], use, aliases);
      var k := keys[|keys| - 1];
      if IncludesString(use, k) || k in aliases then rest + [|keys| - 1] else rest
  }

  /**
   * The filtered keys are the surviving keys in `keys` order: the i-th one is
   * the key at the i-th surviving position. This order is the install order.
   */
  lemma {:induction false} FilterKeysInOrder(keys: seq<string>, use: seq<Value>, aliases: map<string, Value>)
    ensures var r := FilterKeys(keys, use, aliases);
      var ix := KeptPositions(keys, use, aliases);
      |r| == |ix| && forall i :: 0 <= i < |r| ==> r[i] == keys[ix[i]]
    decreases |keys|
  {
    if |keys| > 0 {
      var init := keys[..|keys| - 1];
      var k := keys[|keys| - 1];
      FilterKeysInOrder(init, use, aliases);
      var r0 := FilterKeys(init, use, aliases);
      var ix0 := KeptPositions(init, use, aliases);
      var r := FilterKeys(keys, use, aliases);
      var ix := KeptPositions(keys, use, aliases);
      var kept := IncludesString(use, k) || k in aliases;
      assert r == if kept then r0 + [k] else r0;
      assert ix == if kept then ix0 + [|keys| - 1] else ix0;
      forall i | 0 <= i < |r| ensures r[i] == keys[ix[i]] {
        if i < |r0| {
          assert r[i] == r0[i] && ix[i] == ix0[i];
          assert init[ix0[i]] == keys[ix0[i]];
        }
      }
    }
  }

  /** `aliases[property] || property`. */
  function InstalledName(aliases: map<string, Value>, property: string): (r: string)
    ensures property !in aliases ==> r == property
  {
    if property in aliases && Truthy(aliases[property]) then ToJsString(aliases[property]) else property
  }

  /** The dependencies of a member whose targets are missing: `!target[dependent]`, in order. */
  function Unmet(scope: map<string, Value>, deps: seq<Value>): (r: seq<Value>)
    ensures forall x :: x in r <==> x in deps && !Truthy(Member(scope, ToJsString(x)))
    decreases |deps|
  {
    if |deps| == 0 then []
    else
      var rest := Unmet(scope, deps[..|deps| - 1]);
      var x := deps[|deps| - 1];
      assert deps == deps[..|deps| - 1] + [x];
      if Truthy(Member(scope, ToJsString(x))) then rest else rest + [x]
  }

  /** Nothing is missing when every dependency names a present member. */
  lemma {:induction false} UnmetNone(scope: map<string, Value>, deps: seq<Value>)
    requires forall k :: 0 <= k < |deps| ==> Truthy(Member(scope, ToJsString(deps[k])))
    ensures Unmet(scope, deps) == []
    decreases |deps|
  {
    if |deps| > 0 {
      UnmetNone(scope, deps[..|deps| - 1]);
    }
  }

  /** The logic to install and, for an `{ action, depends }` member, the dependencies still missing. */
  datatype Fragment = Fragment(action: Value, missing: Option<seq<Value>>)

  /**
   * Lines 196-204: a member of type `object` is an `{ action, depends }` pair
   * (`null` throws on `.depends`, and a truthy `depends` that is not an array
   * has no `filter`); anything else is installed as it is.
   */
  function ReadFragment(scope: map<string, Value>, member: Value): (r: Result<Fragment>)
    ensures TypeOf(member) != "object" ==> r == Ok(Fragment(member, None))
    ensures member.Null? ==> r == Err(HostTypeError)
    ensures TypeOf(member) == "object" && !member.Null? ==>
      var depends := Get(member, "depends");
      && (r.Ok? <==> !Truthy(depends) || depends.List?)
      && (r.Ok? ==> r.value.action == Get(member, "action"))
      && (r.Ok? ==> r.value.missing == Some(if depends.List? then Unmet(scope, depends.items) else []))
    ensures r.Ok? && r.value.missing.Some? ==> forall x :: x in r.value.missing.value ==> !Truthy(Member(scope, ToJsString(x)))
  {
    if TypeOf(member) != "object" then Ok(Fragment(member, None))
    else if member.Null? then Err(HostTypeError)
    else
      var depends := Get(member, "depends");
      if !Truthy(depends) then Ok(Fragment(Get(member, "action"), Some([])))
      else if depends.List? then Ok(Fragment(Get(member, "action"), Some(Unmet(scope, depends.items))))
      else Err(HostTypeError)
  }

  /** The closure a merge type installs over the member it found (src/Mixin.js:208-235). */
  function Wrap(opts: Options, frag: Value, existing: Value): (w: Wrapper)
    ensures !opts.IsHook() && !opts.override ==> w == Plain(frag)
    ensures !opts.IsHook() && opts.override ==> w == Over(frag, existing)
    ensures opts.before ==> w == Before(frag, existing, opts.promisify)
    ensures !opts.before && opts.after ==> w == After(frag, existing, opts.promisify)
  {
    if !opts.IsHook() && !opts.override then Plain(frag)
    else if !opts.IsHook() then Over(frag, existing)
    else if opts.before then Before(frag, existing, opts.promisify)
    else After(frag, existing, opts.promisify)
  }

  /**
   * Each merge type's closure: `merge` installs the fragment itself,
   * `mergeOver` the fragment over the member it replaces, the prepends call
   * the fragment before the member and the appends after it, the `await`
   * forms waiting for the first call's promise.
   */
  lemma WrapByMergeType(frag: Value, existing: Value)
    ensures Wrap(OptionsOf(Merge), frag, existing) == Plain(frag)
    ensures Wrap(OptionsOf(MergeOver), frag, existing) == Over(frag, existing)
    ensures Wrap(OptionsOf(Prepend), frag, existing) == Before(frag, existing, false)
    ensures Wrap(OptionsOf(AwaitPrepend), frag, existing) == Before(frag, existing, true)
    ensures Wrap(OptionsOf(Append), frag, existing) == After(frag, existing, false)
    ensures Wrap(OptionsOf(AwaitAppend), frag, existing) == After(frag, existing, true)
  {
  }

  /**
   * One key of a descriptor (lines 194-237): read the member under the installed
   * name and the logic under the key, validate, and replace the member.
   */
  function InstallKey(scope: map<string, Value>, d: Descriptor, aliases: map<string, Value>, opts: Options, property: string)
    : (r: Result<map<string, Value>>)
    ensures r.Ok? ==> r.value.Keys == scope.Keys + {InstalledName(aliases, property)}
    ensures r.Ok? ==> forall n :: n in scope && n != InstalledName(aliases, property) ==> r.value[n] == scope[n]
    ensures r.Ok? ==> r.value[InstalledName(aliases, property)].Installed?
  {
    var name := InstalledName(aliases, property);
    var existing := Member(scope, name);
    if IsNil(d.logic) then Err(HostTypeError)
    else
      match ReadFragment(scope, Get(d.logic, property))
      case Err(f) => Err(f)
      case Ok(p) =>
        var missing := if p.missing.Some? then Some(ItemStrings(p.missing.value)) else None;
        match ValidateMethodUsage(d.name, name, Truthy(existing), opts.IsHook(), opts.override, missing)
        case Some(e) => Err(Mixin(e))
        case None => Ok(scope[name := Installed(Wrap(opts, p.action, existing))])
  }

  /**
   * An `{ action, depends }` member whose dependency names a member the target
   * lacks (or holds falsy) is refused listing the missing dependencies, in
   * order, whatever the merge type; nothing is installed.
   */
  lemma AbsentDependencyFails(scope: map<string, Value>, d: Descriptor, aliases: map<string, Value>, opts: Options,
                              property: string, deps: seq<string>, j: nat)
    requires !IsNil(d.logic) && Get(d.logic, property).Record?
    requires Get(Get(d.logic, property), "depends") == Strings(deps)
    requires j < |deps| && !Truthy(Member(scope, deps[j]))
    ensures var missing := Unmet(scope, Strings(deps).items);
      && Str(deps[j]) in missing
      && InstallKey(scope, d, aliases, opts, property)
         == Err(Mixin(MissingDependents(d.name, InstalledName(aliases, property), ItemStrings(missing))))
  {
    var items := Strings(deps).items;
    assert items[j] == Str(deps[j]) && ToJsString(items[j]) == deps[j];
    assert Str(deps[j]) in Unmet(scope, items);
  }

  /** A scope and the failure, if any, that stopped a run of installs. */
  datatype Installing = Installing(scope: map<string, Value>, failure: Option<Failure>)

  /** The names the keys are installed under. */
  function InstalledNames(aliases: map<string, Value>, keys: seq<string>): set<string>
  {
    set k | k in keys :: InstalledName(aliases, k)
  }

  /**
   * The keys in order, each install replacing the member it found; a failure
   * stops the run and keeps what the earlier keys installed.
   */
  function InstallKeys(scope: map<string, Value>, d: Descriptor, aliases: map<string, Value>, opts: Options, keys: seq<string>)
    : Installing
    decreases |keys|
  {
    if |keys| == 0 then Installing(scope, None)
    else
      var done := InstallKeys(scope, d, aliases, opts, keys[..|keys| - 1]);
      if done.failure.Some? then done
      else
        match InstallKey(done.scope, d, aliases, opts, keys[|keys| - 1])
        case Err(f) => Installing(done.scope, Some(f))
        case Ok(s) => Installing(s, None)
  }

  /** A run of installs leaves every name that none of its keys installs as it was. */
  lemma {:induction false} InstallKeysKeeps(scope: map<string, Value>, d: Descriptor, aliases: map<string, Value>, opts: Options,
                                            keys: seq<string>)
    ensures var r := InstallKeys(scope, d, aliases, opts, keys);
      forall n :: n in scope && n !in InstalledNames(aliases, keys) ==> n in r.scope && r.scope[n] == scope[n]
    decreases |keys|
  {
    if |keys| > 0 {
      var init := keys[..|keys| - 1];
      var k := keys[|keys| - 1];
      assert keys == init + [k] && keys[..|keys|] == keys;
      assert InstalledNames(aliases, keys) == InstalledNames(aliases, init) + {InstalledName(aliases, k)};
      InstallKeysStep(scope, d, aliases, opts, keys, |keys| - 1);
      InstallKeysKeeps(scope, d, aliases, opts, init);
    }
  }

  /** A run of installs adds no name other than the ones its keys install. */
  lemma {:induction false} InstallKeysOnlyInstalled(scope: map<string, Value>, d: Descriptor, aliases: map<string, Value>, opts: Options,
                                                    keys: seq<string>)
    ensures var r := InstallKeys(scope, d, aliases, opts, keys);
      forall n :: n in r.scope ==> n in scope || n in InstalledNames(aliases, keys)
    decreases |keys|
  {
    if |keys| > 0 {
      var init := keys[..|keys| - 1];
      var k := keys[|keys| - 1];
      assert keys == init + [k] && keys[..|keys|] == keys;
      assert InstalledNames(aliases, keys) == InstalledNames(aliases, init) + {InstalledName(aliases, k)};
      InstallKeysStep(scope, d, aliases, opts, keys, |keys| - 1);
      InstallKeysOnlyInstalled(scope, d, aliases, opts, init);
    }
  }

  /** A run of installs that succeeds leaves a wrapper under each key's installed name. */
  lemma {:induction false} InstallKeysInstallsAll(scope: map<string, Value>, d: Descriptor, aliases: map<string, Value>, opts: Options,
                                                  keys: seq<string>)
    ensures var r := InstallKeys(scope, d, aliases, opts, keys);
      r.failure.None? ==> forall k :: k in keys ==> InstalledName(aliases, k) in r.scope && r.scope[InstalledName(aliases, k)].Installed?
    decreases |keys|
  {
    if |keys| > 0 {
      var init := keys[..|keys| - 1];
      var last := keys[|keys| - 1];
      assert keys == init + [last] && keys[..|keys|] == keys;
      InstallKeysStep(scope, d, aliases, opts, keys, |keys| - 1);
      InstallKeysInstallsAll(scope, d, aliases, opts, init);
      var done := InstallKeys(scope, d, aliases, opts, init);
      var r := InstallKeys(scope, d, aliases, opts, keys);
      if r.failure.None? {
        assert done.failure.None? && InstallKey(done.scope, d, aliases, opts, last).Ok?;
        forall k | k in keys ensures InstalledName(aliases, k) in r.scope && r.scope[InstalledName(aliases, k)].Installed? {
          if k != last && InstalledName(aliases, k) != InstalledName(aliases, last) {
            assert k in init;
          }
        }
      }
    }
  }

  /** The registry and the target after a merge, and the failure that stopped it, if any. */
  datatype Merged = Merged(mixins: map<string, Entry>, host: Host, failure: Option<Failure>)

  /** The keys a descriptor installs under its `use` list (line 187-189): all of them when the list is empty. */
  function UsedKeys(d: Descriptor, items: seq<Value>, aliases: map<string, Value>): (r: seq<string>)
    ensures |items| == 0 ==> r == d.keys
  {
    if |items| > 0 then FilterKeys(d.keys, items, aliases) else d.keys
  }

  /**
   * One element of the expanded list. A registry entry gets its filtered `keys`
   * written back, so a later merge of the same name sees them.
   */
  function MergeOne(mixins: map<string, Entry>, host: Host, opts: Options, e: Expanded): (r: Merged)
    ensures r.mixins.Keys == mixins.Keys
    ensures !e.Shared? ==> r.mixins == mixins
    ensures e.Shared? ==> forall n :: n in mixins && n != e.name ==> r.mixins[n] == mixins[n]
    ensures e.Shared? && r.mixins != mixins ==>
      && e.name in mixins && mixins[e.name].Desc? && r.mixins[e.name].Desc?
      && r.mixins[e.name].d == mixins[e.name].d.(keys := r.mixins[e.name].d.keys)
  {
    match Resolve(mixins, e)
    case Err(f) => Merged(mixins, host, Some(f))
    case Ok(d) =>
      match UseItems(d.use)
      case Err(f) => Merged(mixins, host, Some(f))
      case Ok(items) =>
        match ScanUse(items, d.keys)
        case Err(f) => Merged(mixins, host, Some(f))
        case Ok(scan) =>
          if |scan.offenders| > 0 then Merged(mixins, host, Some(Mixin(InvalidUse(ItemStrings(scan.offenders)))))
          else
            var keys := UsedKeys(d, items, scan.aliases);
            var mixins' := if e.Shared? && |items| > 0 then mixins[e.name := Desc(d.(keys := keys))] else mixins;
            match ScopeOf(host, d.usesPrototype)
            case None => Merged(mixins', host, if |keys| > 0 then Some(HostTypeError) else None)
            case Some(scope) =>
              var ins := InstallKeys(scope, d, scan.aliases, opts, keys);
              Merged(mixins', WithScope(host, d.usesPrototype, ins.scope), ins.failure)
  }

  /**
   * A registry entry merged under a non-empty, accepted `use` list gets its
   * `keys` replaced by the filtered ones (line 189), so the next merge of the
   * same name resolves to a descriptor holding only the used and aliased keys.
   */
  lemma KeysWrittenBack(mixins: map<string, Entry>, host: Host, opts: Options, n: string)
    requires n in mixins && mixins[n].Desc? && mixins[n].d.use.List? && |mixins[n].d.use.items| > 0
    requires ScanUse(mixins[n].d.use.items, mixins[n].d.keys).Ok?
    requires ScanUse(mixins[n].d.use.items, mixins[n].d.keys).value.offenders == []
    ensures var d := mixins[n].d;
      var keys := FilterKeys(d.keys, d.use.items, ScanUse(d.use.items, d.keys).value.aliases);
      var r := MergeOne(mixins, host, opts, Shared(n));
      && r.mixins == mixins[n := Desc(d.(keys := keys))]
      && Resolve(r.mixins, Shared(n)) == Ok(d.(keys := keys))
  {
  }

  /**
   * A `use` list with entries that name no key stops the element before
   * anything is installed or written back: the error lists every offender as
   * written, and no other entry, and registry and target are untouched.
   */
  lemma AllOffendersListed(mixins: map<string, Entry>, host: Host, opts: Options, e: Expanded, d: Descriptor, items: seq<Value>)
    requires Resolve(mixins, e) == Ok(d) && UseItems(d.use) == Ok(items)
    requires ScanUse(items, d.keys).Ok? && |ScanUse(items, d.keys).value.offenders| > 0
    ensures var o := ScanUse(items, d.keys).value.offenders;
      && MergeOne(mixins, host, opts, e) == Merged(mixins, host, Some(Mixin(InvalidUse(ItemStrings(o)))))
      && forall v :: v in o <==> v in items && Offends(v, d.keys)
  {
    ScanUseOffenders(items, d.keys);
  }

  /**
   * An element that is neither a string nor an object stands for no
   * descriptor: its merge fails with a type error, registry and target untouched.
   */
  lemma NonReferenceRefused(mixins: map<string, Entry>, host: Host, opts: Options)
    ensures MergeOne(mixins, host, opts, NotAReference) == Merged(mixins, host, Some(HostTypeError))
  {
  }

  /** The whole pass: the elements in order, stopping at the first failure with everything before it kept. */
  function MergeAll(mixins: map<string, Entry>, host: Host, opts: Options, es: seq<Expanded>): (r: Merged)
    ensures r.mixins.Keys == mixins.Keys
    decreases |es|
  {
    if |es| == 0 then Merged(mixins, host, None)
    else
      var done := MergeAll(mixins, host, opts, es[..|es| - 1]);
      if done.failure.Some? then done
      else MergeOne(done.mixins, done.host, opts, es[|es| - 1])
  }

  lemma InstallKeysStep(scope: map<string, Value>, d: Descriptor, aliases: map<string, Value>, opts: Options, keys: seq<string>, i: nat)
    requires i < |keys|
    ensures var done := InstallKeys(scope, d, aliases, opts, keys[..i]);
      InstallKeys(scope, d, aliases, opts, keys[..i + 1])
      == if done.failure.Some? then done
         else match InstallKey(done.scope, d, aliases, opts, keys[i])
              case Err(f) => Installing(done.scope, Some(f))
              case Ok(s) => Installing(s, None)
  {
    assert keys[..i + 1][..i] == keys[..i];
  }

  /** Once a run of installs fails, the later keys change nothing. */
  lemma {:induction false} InstallKeysStops(scope: map<string, Value>, d: Descriptor, aliases: map<string, Value>, opts: Options,
                                            keys: seq<string>, n: nat)
    requires n <= |keys| && InstallKeys(scope, d, aliases, opts, keys[..n]).failure.Some?
    ensures InstallKeys(scope, d, aliases, opts, keys) == InstallKeys(scope, d, aliases, opts, keys[..n])
    decreases |keys| - n
  {
    if n < |keys| {
      InstallKeysStep(scope, d, aliases, opts, keys, n);
      InstallKeysStops(scope, d, aliases, opts, keys, n + 1);
    } else {
      assert keys[..n] == keys;
    }
  }

  lemma MergeAllStep(mixins: map<string, Entry>, host: Host, opts: Options, es: seq<Expanded>, i: nat)
    requires i < |es|
    ensures var done := MergeAll(mixins, host, opts, es[..i]);
      MergeAll(mixins, host, opts, es[..i + 1])
      == if done.failure.Some? then done else MergeOne(done.mixins, done.host, opts, es[i])
  {
    assert es[..i + 1][..i] == es[..i];
  }

  /** Once a prefix of the pass fails, the later elements change nothing. */
  lemma {:induction false} MergeAllStops(mixins: map<string, Entry>, host: Host, opts: Options, es: seq<Expanded>, n: nat)
    requires n <= |es| && MergeAll(mixins, host, opts, es[..n]).failure.Some?
    ensures MergeAll(mixins, host, opts, es) == MergeAll(mixins, host, opts, es[..n])
    decreases |es| - n
  {
    if n < |es| {
      MergeAllStep(mixins, host, opts, es, n);
      MergeAllStops(mixins, host, opts, es, n + 1);
    } else {
      assert es[..n] == es;
    }
  }

  /**
   * No rollback: a failed pass is the state after the elements before the
   * failing one, which all merged, followed by the failing element's own partial
   * work.
   */
  lemma {:induction false} NoRollback(mixins: map<string, Entry>, host: Host, opts: Options, es: seq<Expanded>) returns (n: nat)
    requires MergeAll(mixins, host, opts, es).failure.Some?
    ensures n < |es|
    ensures MergeAll(mixins, host, opts, es[..n]).failure.None?
    ensures var before := MergeAll(mixins, host, opts, es[..n]);
      MergeAll(mixins, host, opts, es) == MergeOne(before.mixins, before.host, opts, es[n])
    decreases |es|
  {
    var init := es[..|es| - 1];
    if MergeAll(mixins, host, opts, init).failure.Some? {
      n := NoRollback(mixins, host, opts, init);
      assert init[..n] == es[..n];
      assert init[n] == es[n];
    } else {
      n := |es| - 1;
    }
  }

  /**
   * The same at the level of keys: a failed run of installs keeps what the keys
   * before the failing one installed, and the failing key installs nothing.
   */
  lemma {:induction false} KeysBeforeFailureStay(scope: map<string, Value>, d: Descriptor, aliases: map<string, Value>, opts: Options,
                                                 keys: seq<string>) returns (j: nat)
    requires InstallKeys(scope, d, aliases, opts, keys).failure.Some?
    ensures j < |keys|
    ensures InstallKeys(scope, d, aliases, opts, keys[..j]).failure.None?
    ensures var before := InstallKeys(scope, d, aliases, opts, keys[..j]).scope;
      InstallKey(before, d, aliases, opts, keys[j]).Err?
      && InstallKeys(scope, d, aliases, opts, keys) == Installing(before, Some(InstallKey(before, d, aliases, opts, keys[j]).failure))
    decreases |keys|
  {
    var init := keys[..|keys| - 1];
    assert keys[..|keys|] == keys;
    InstallKeysStep(scope, d, aliases, opts, keys, |keys| - 1);
    if InstallKeys(scope, d, aliases, opts, init).failure.Some? {
      j := KeysBeforeFailureStay(scope, d, aliases, opts, init);
      assert init[..j] == keys[..j];
      assert init[j] == keys[j];
    } else {
      j := |keys| - 1;
      assert keys[..j] == init;
    }
  }

  /**
   * Layering: an install puts the merge type's wrapper around whatever the
   * installed name held. An override or a hook only ever wraps a member that is
   * present (truthy); a plain merge only fills a name that held nothing truthy.
   */
  lemma InstallWrapsPrevious(scope: map<string, Value>, d: Descriptor, aliases: map<string, Value>, opts: Options, property: string)
    requires !(opts.override && opts.IsHook())
    requires InstallKey(scope, d, aliases, opts, property).Ok?
    ensures !IsNil(d.logic) && ReadFragment(scope, Get(d.logic, property)).Ok?
    ensures var name := InstalledName(aliases, property);
      var frag := ReadFragment(scope, Get(d.logic, property)).value.action;
      InstallKey(scope, d, aliases, opts, property).value[name] == Installed(Wrap(opts, frag, Member(scope, name)))
    ensures var name := InstalledName(aliases, property);
      (opts.override || opts.IsHook()) <==> Truthy(Member(scope, name))
  {
  }

  /**
   * A plain merge of a member cannot be repeated: once a key is installed, the
   * same descriptor merged again under the same aliases fails on that key.
   */
  lemma RepeatedMergeRefused(scope: map<string, Value>, d: Descriptor, aliases: map<string, Value>, property: string)
    requires InstallKey(scope, d, aliases, OptionsOf(Merge), property).Ok?
    ensures var again := InstallKey(scope, d, aliases, OptionsOf(Merge), property).value;
      InstallKey(again, d, aliases, OptionsOf(Merge), property).Err?
  {
  }

  /**
   * Aliasing in a `use` list: a descriptor with members h, w and x merged with
   * `use: [h, 'w as a']` into an empty class installs h under its own name and
   * w under `a`, and neither w nor x. The merge schema of the source's tests
   * lists `use: ['run as runs', 'walk']`, the same shape in the other order.
   */
  lemma AliasRestriction(name: string, h: string, w: string, a: string, x: string, fh: nat, fw: nat, fx: nat)
    requires h != w && h != x && w != x && a != h && a != ""
    requires !HasSpacedAs(h) && NoBlankA(w) && ' ' !in a && x != w + " as " + a
    ensures var logic := Record([h, w, x], map[h := Fn(fh), w := Fn(fw), x := Fn(fx)]);
      var d := Descriptor(name, [h, w, x], logic, Strings([h, w + " as " + a]), false);
      var r := MergeOne(map[], Host(map[], None), OptionsOf(Merge), Inline(d));
      r.failure == None && r.host.statics == map[h := Installed(Plain(Fn(fh))), a := Installed(Plain(Fn(fw)))]
  {
    var logic := Record([h, w, x], map[h := Fn(fh), w := Fn(fw), x := Fn(fx)]);
    var keys := [h, w, x];
    var d := Descriptor(name, keys, logic, Strings([h, w + " as " + a]), false);
    var items := [Str(h), Str(w + " as " + a)];
    assert d.use.items == items;
    var aliases := map[w := Str(a)];
    AliasScan(h, w, a, keys);
    AliasFilter(h, w, a, x, items);
    assert UsedKeys(d, items, aliases) == [h, w];
    assert Get(logic, h) == Fn(fh) && Get(logic, w) == Fn(fw);
    AliasInstalls(d, h, w, a, fh, fw);
    assert UseItems(d.use) == Ok(items);
  }

  lemma AliasScan(h: string, w: string, a: string, keys: seq<string>)
    requires !HasSpacedAs(h) && NoBlankA(w) && ' ' !in a && h in keys && w in keys
    ensures ScanUse([Str(h), Str(w + " as " + a)], keys) == Ok(UseScan(map[w := Str(a)], []))
  {
    var items := [Str(h), Str(w + " as " + a)];
    ReduceAliasEntry(w, a);
    assert ReadRestriction(items[0]) == Ok(Restriction(Str(h), None));
    assert items[..1][..0] == [] && items[..2] == items;
    assert ScanUse(items[..1], keys) == Ok(UseScan(map[], []));
  }

  lemma AliasFilter(h: string, w: string, a: string, x: string, items: seq<Value>)
    requires items == [Str(h), Str(w + " as " + a)] && h != w && h != x && w != x && x != w + " as " + a
    ensures FilterKeys([h, w, x], items, map[w := Str(a)]) == [h, w]
  {
    var keys := [h, w, x];
    var aliases := map[w := Str(a)];
    assert keys[..1][..0] == [] && keys[..2][..1] == keys[..1] && keys[..3][..2] == keys[..2] && keys[..3] == keys;
    assert FilterKeys(keys[..1], items, aliases) == [h];
    assert FilterKeys(keys[..2], items, aliases) == [h, w];
    assert !IncludesString(items, x);
  }

  lemma AliasInstalls(d: Descriptor, h: string, w: string, a: string, fh: nat, fw: nat)
    requires !IsNil(d.logic) && Get(d.logic, h) == Fn(fh) && Get(d.logic, w) == Fn(fw)
    requires h != w && a != h && a != ""
    ensures InstallKeys(map[], d, map[w := Str(a)], OptionsOf(Merge), [h, w])
         == Installing(map[h := Installed(Plain(Fn(fh))), a := Installed(Plain(Fn(fw)))], None)
  {
    var aliases := map[w := Str(a)];
    var used := [h, w];
    var opts := OptionsOf(Merge);
    var s1 := map[h := Installed(Plain(Fn(fh)))];
    assert InstallKey(map[], d, aliases, opts, h) == Ok(s1);
    assert used[..1] == [h] && used[..1][..0] == [] && used[..2] == used;
    assert InstallKeys(map[], d, aliases, opts, used[..1]) == Installing(s1, None);
    assert InstalledName(aliases, w) == a;
    assert InstallKey(s1, d, aliases, opts, w) == Ok(s1[a := Installed(Plain(Fn(fw)))]);
  }

  /**
   * A string reference `Name(h, w as a)` written with a blank after the comma:
   * the `use` list is split on commas without trimming (line 132), so the
   * second entry reduces to ` w`, which is not a member, and the merge fails
   * listing the whole entry (lines 172-185).
   */
  lemma UntrimmedAliasRefused(mixins: map<string, Entry>, host: Host, opts: Options, name: string, h: string, w: string, a: string)
    requires '(' !in name && ',' !in h && ',' !in w && ',' !in a && ' ' !in a
    requires !HasSpacedAs(h) && NoBlankA(" " + w)
    requires name in mixins && mixins[name].Desc?
    requires h in mixins[name].d.keys && " " + w !in mixins[name].d.keys
    ensures var st := StructureString(mixins, name + "(" + h + ", " + w + " as " + a + ")", false, Undefined);
      st.out == Ok(Shared(name))
      && name in st.mixins && st.mixins[name].Desc? && st.mixins[name].d.use == Strings([h, " " + w + " as " + a])
      && MergeOne(st.mixins, host, opts, Shared(name)).failure == Some(Mixin(InvalidUse([" " + w + " as " + a])))
  {
    var e := " " + w + " as " + a;
    UntrimmedStructure(mixins, name, h, w, a);
    var d := mixins[name].d.(use := Strings([h, e]));
    UntrimmedScan(h, w, a, d.keys);
    UntrimmedMerge(mixins[name := Desc(d)], host, opts, name, h, e);
  }

  /** Structuring `Name(h, w as a)` writes the untrimmed use list onto the entry. */
  lemma UntrimmedStructure(mixins: map<string, Entry>, name: string, h: string, w: string, a: string)
    requires '(' !in name && ',' !in h && ',' !in w && ',' !in a
    requires name in mixins && mixins[name].Desc?
    ensures StructureString(mixins, name + "(" + h + ", " + w + " as " + a + ")", false, Undefined)
         == Structured(mixins[name := Desc(mixins[name].d.(use := Strings([h, " " + w + " as " + a])))], Ok(Shared(name)))
  {
    RefSpelling(name, h, w, a);
    UseListIsWritten(mixins, name, [h, " " + w + " as " + a]);
  }

  /** `Name(h, w as a)` is the use list `[h, ' w as a']` joined with commas. */
  lemma RefSpelling(name: string, h: string, w: string, a: string)
    requires ',' !in w && ',' !in a
    ensures name + "(" + h + ", " + w + " as " + a + ")" == name + "(" + Join([h, " " + w + " as " + a], ",") + ")"
    ensures ',' !in " " + w + " as " + a
  {
    var e := " " + w + " as " + a;
    assert Join([h, e], ",") == h + "," + e;
    assert h + ", " + w + " as " + a == h + "," + e;
  }

  /** The scan of `[h, ' w as a']`: the alias is stored for ` w`, and the whole entry offends. */
  lemma UntrimmedScan(h: string, w: string, a: string, keys: seq<string>)
    requires !HasSpacedAs(h) && NoBlankA(" " + w) && ' ' !in a
    requires h in keys && " " + w !in keys
    ensures ScanUse([Str(h), Str(" " + w + " as " + a)], keys)
         == Ok(UseScan(map[" " + w := Str(a)], [Str(" " + w + " as " + a)]))
  {
    var items := [Str(h), Str(" " + w + " as " + a)];
    ReduceAliasEntry(" " + w, a);
    assert ReadRestriction(items[0]) == Ok(Restriction(Str(h), None));
    assert items[..1][..0] == [] && items[..2] == items;
    assert ScanUse(items[..1], keys) == Ok(UseScan(map[], []));
    assert !InKeys(Str(" " + w), keys);
    assert map[][" " + w := Str(a)] == map[" " + w := Str(a)];
    assert [] + [items[1]] == [items[1]];
  }

  /** A shared entry whose scan finds one offender fails the merge listing it, whatever the target. */
  lemma UntrimmedMerge(mixins: map<string, Entry>, host: Host, opts: Options, name: string, h: string, e: string)
    requires name in mixins && mixins[name].Desc? && mixins[name].d.use == Strings([h, e])
    requires ScanUse([Str(h), Str(e)], mixins[name].d.keys).Ok?
    requires ScanUse([Str(h), Str(e)], mixins[name].d.keys).value.offenders == [Str(e)]
    ensures MergeOne(mixins, host, opts, Shared(name)).failure == Some(Mixin(InvalidUse([e])))
  {
    var d := mixins[name].d;
    assert Strings([h, e]).items == [Str(h), Str(e)] by {
      assert Strings([h, e]).items[0] == Str(h) && Strings([h, e]).items[1] == Str(e);
    }
    assert Resolve(mixins, Shared(name)) == Ok(d);
    assert UseItems(d.use) == Ok([Str(h), Str(e)]);
    var scan := ScanUse([Str(h), Str(e)], d.keys).value;
    assert |scan.offenders| > 0;
    assert ItemStrings([Str(e)]) == [e];
  }

  /** `p + " as " + a` holds the spaced `as` the restriction test looks for. */
  lemma SpacedAsAt(p: string, a: string)
    ensures HasSpacedAs(p + " as " + a)
  {
    var s := p + " as " + a;
    assert IsSpace(s[|p|]) && s[|p| + 1] == 'a' && s[|p| + 2] == 's' && IsSpace(s[|p| + 3]);
    assert AsWordAt(s, |p|);
    HasSpacedAsIff(s);
  }

  /** `p` holds no blank followed by the letter `a`. */
  predicate NoBlankA(p: string)
  {
    forall j :: 0 <= j < |p| - 1 ==> !(p[j] == ' ' && p[j + 1] == 'a')
  }

  /** No `' as '` starts inside `p` when `p` holds no blank followed by `a`. */
  lemma FirstSpacedAs(p: string, a: string)
    requires NoBlankA(p)
    ensures IndexOf(p + " as " + a, " as ") == Some(|p|)
  {
    var s := p + " as " + a;
    var sep := " as ";
    assert s[|p|..|p| + 4] == sep;
    forall j: nat | j < |p| ensures !OccursAt(s, sep, j) {
      if j + 1 < |p| {
        assert s[j] == p[j] && s[j + 1] == p[j + 1];
      } else {
        assert s[j + 1] == ' ';
      }
      assert s[j] != ' ' || s[j + 1] != 'a';
      assert j + 4 <= |s| ==> s[j..j + 4][0] == s[j] && s[j..j + 4][1] == s[j + 1];
    }
    IndexOfAt(s, sep, |p|);
  }

  lemma SplitAlias(p: string, a: string)
    requires NoBlankA(p)
    requires ' ' !in a
    ensures Split(p + " as " + a, " as ") == [p, a]
  {
    FirstSpacedAs(p, a);
    IndexOfFree(a, " as ");
    SplitTwo(p, a, " as ");
  }

  /**
   * An entry `x as y` is checked as `x` and stores the alias `y`, whatever blanks
   * `x` carries, provided `x` holds no blank followed by `a` and `y` no blank.
   */
  lemma ReduceAliasEntry(p: string, a: string)
    requires NoBlankA(p)
    requires ' ' !in a
    ensures ReadRestriction(Str(p + " as " + a)) == Ok(Restriction(Str(p), Some(Str(a))))
  {
    SplitAlias(p, a);
    ReadAlias(p, a);
  }

  lemma ReadAlias(p: string, a: string)
    requires Split(p + " as " + a, " as ") == [p, a]
    ensures ReadRestriction(Str(p + " as " + a)) == Ok(Restriction(Str(p), Some(Str(a))))
  {
    SpacedAsAt(p, a);
  }

  /**
   * Layered prepends through merges: a `prepend` (or `awaitPrepend`) of a
   * function over a stack of earlier prepends extends the stack, so running
   * the member calls the latest fragment first and returns the original's value.
   */
  lemma PrependExtendsStack(scope: map<string, Value>, d: Descriptor, aliases: map<string, Value>, property: string,
                            g: nat, ids: seq<nat>, id: nat, awaited: bool, args: seq<Value>, b: Behaviour)
    requires Member(scope, InstalledName(aliases, property)) == StackBefore(Fn(g), ids, awaited)
    requires !IsNil(d.logic) && Get(d.logic, property) == Fn(id)
    ensures var name := InstalledName(aliases, property);
      var r := InstallKey(scope, d, aliases, OptionsOf(if awaited then AwaitPrepend else Prepend), property);
      && r == Ok(scope[name := StackBefore(Fn(g), ids + [id], awaited)])
      && Run(r.value[name], args, b) == Trace([id] + Reverse(ids) + [g], Some(b(g, args)))
  {
    var ids' := ids + [id];
    assert ids'[..|ids|] == ids;
    StackedPrepends(g, ids', awaited, args, b);
    assert Reverse(ids') == [id] + Reverse(ids);
  }

  /**
   * Layered appends through merges: an `append` (or `awaitAppend`) extends the
   * stack of earlier appends, so the fragments run after the original, in the
   * order they were merged, and the original's value is returned.
   */
  lemma AppendExtendsStack(scope: map<string, Value>, d: Descriptor, aliases: map<string, Value>, property: string,
                           g: nat, ids: seq<nat>, id: nat, awaited: bool, args: seq<Value>, b: Behaviour)
    requires Member(scope, InstalledName(aliases, property)) == StackAfter(Fn(g), ids, awaited)
    requires !IsNil(d.logic) && Get(d.logic, property) == Fn(id)
    ensures var name := InstalledName(aliases, property);
      var r := InstallKey(scope, d, aliases, OptionsOf(if awaited then AwaitAppend else Append), property);
      && r == Ok(scope[name := StackAfter(Fn(g), ids + [id], awaited)])
      && Run(r.value[name], args, b) == Trace([g] + ids + [id], Some(b(g, args)))
  {
    var ids' := ids + [id];
    assert ids'[..|ids|] == ids;
    StackedAppends(g, ids', awaited, args, b);
    assert [g] + ids' == [g] + ids + [id];
  }

  /**
   * A function whose dependencies were overridden is merged as the rewriter's
   * `{ action, depends }` pair: once its dependencies are present it installs,
   * and the installed member calls nothing and returns `undefined`.
   */
  lemma OverriddenFunctionRunsNothing(scope: map<string, Value>, d: Descriptor, aliases: map<string, Value>, property: string,
                                      deps: seq<string>, args: seq<Value>, b: Behaviour)
    requires !IsNil(d.logic) && Get(d.logic, property) == Wrapped(deps)
    requires forall k :: 0 <= k < |deps| ==> Truthy(Member(scope, deps[k]))
    requires !Truthy(Member(scope, InstalledName(aliases, property)))
    ensures InstallKey(scope, d, aliases, OptionsOf(Merge), property).Ok?
    ensures Run(InstallKey(scope, d, aliases, OptionsOf(Merge), property).value[InstalledName(aliases, property)], args, b)
         == Trace([], Some(Undefined))
  {
    var member := Wrapped(deps);
    var items := Strings(deps).items;
    assert Get(member, "depends") == Strings(deps) && Get(member, "action") == Noop;
    UnmetNone(scope, items);
    assert ReadFragment(scope, member) == Ok(Fragment(Noop, Some([])));
  }
}
