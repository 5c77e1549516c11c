/**
 * The schema front end: turning a mixin reference (an object or a
 * `"Name(a, b as c)"` string) into a descriptor, `_structureMixinObject` and
 * `_structureMixinString` (src/Mixin.js:81-144).
 */
module Schema {
  import opened Wrappers
  import opened Text
  import opened Values
  import opened Errors
  import opened Results
  import opened Registry
  import opened Overrides
  import opened OverrideSyntax

  /**
   * An element of the expanded mixin list: a descriptor built from an object
   * reference, the registry entry a string reference resolved to (the very
   * object in the registry, so later writes to it are shared), or `undefined`
   * for a reference that is neither an object nor a string.
   */
  datatype Expanded = Inline(d: Descriptor) | Shared(name: string) | NotAReference

  /** The registry after structuring a reference, and the result. */
  datatype Structured = Structured(mixins: map<string, Entry>, out: Result<Expanded>)

  /** The name part of a string reference: everything before the first `(`, or the whole string. */
  function RefName(s: string): string
  {
    match IndexOf(s, "(")
    case Some(i) => s[..i]
    case None => s
  }

  /** The use list of a string reference with a `(`: from after the first `(` to before the last character, split on commas, untrimmed. */
  function RefUse(s: string): seq<string>
  {
    match IndexOf(s, "(")
    case Some(i) => Split(SliceToLast(s, i + 1), ",")
    case None => [s]
  }

  /** `foundMixin.isNil`: no entry, or an entry holding null or undefined. */
  predicate Unregistered(mixins: map<string, Entry>, name: string)
  {
    name !in mixins || (mixins[name].Chain? && IsNil(mixins[name].v))
  }

  /** A primitive, on which assigning a property throws in strict-mode code. */
  predicate IsPrimitive(v: Value)
  {
    v.Bool? || v.Num? || v.Str?
  }

  /**
   * `_structureMixinString(s, usesPrototype, overrideDepends)`. The registry
   * entry is resolved by name and then written to: its `use` list, its
   * `usesPrototype` flag and its rewritten `logic` all stay in the registry,
   * including the part of an override applied before a failing group.
   */
  function StructureString(mixins: map<string, Entry>, s: string, usesPrototype: bool, overrideDepends: Value): (r: Structured)
    ensures r.out.Ok? ==> r.out.value == Shared(RefName(s))
    ensures Unregistered(mixins, RefName(s)) <==> r.out == Err(Mixin(NotRegistered(RefName(s))))
    ensures r.mixins.Keys == mixins.Keys
    ensures forall n :: n in mixins && n != RefName(s) ==> r.mixins[n] == mixins[n]
    ensures RefName(s) in mixins && mixins[RefName(s)].Desc? ==>
      var d := mixins[RefName(s)].d;
      var rw := RewriteAll(d.logic, OverridePieces(overrideDepends));
      && r.mixins[RefName(s)] == Desc(Descriptor(d.name, d.keys, if IsNil(overrideDepends) then d.logic else rw.logic,
                                                 if IndexOf(s, "(").Some? then Strings(RefUse(s)) else d.use,
                                                 d.usesPrototype || usesPrototype))
      && (r.out.Ok? <==> IsNil(overrideDepends) || rw.failure.None?)
      && (r.out.Err? ==> rw.failure == Some(r.out.failure))
  {
    var hasUse := IndexOf(s, "(").Some?;
    var name := RefName(s);
    if Unregistered(mixins, name) then Structured(mixins, Err(Mixin(NotRegistered(name))))
    else
      match mixins[name]
      case Desc(d) =>
        var withUse := if hasUse then d.(use := Strings(RefUse(s))) else d;
        var marked := if usesPrototype then withUse.(usesPrototype := true) else withUse;
        if IsNil(overrideDepends) then Structured(mixins[name := Desc(marked)], Ok(Shared(name)))
        else
          var rw := RewriteAll(marked.logic, OverridePieces(overrideDepends));
          var written := mixins[name := Desc(marked.(logic := rw.logic))];
          if rw.failure.Some? then Structured(written, Err(rw.failure.value))
          else Structured(written, Ok(Shared(name)))
      case Chain(v) =>
        // a string, number or boolean throws on the property writes
        if (hasUse || usesPrototype) && IsPrimitive(v) then Structured(mixins, Err(HostTypeError))
        else
          var c := WriteChain(v, s, usesPrototype, overrideDepends);
          Structured(mixins[name := Chain(c.v)], if c.failure.Some? then Err(c.failure.value) else Ok(Shared(name)))
  }

  /**
   * A string reference to a `buildChain` entry: a primitive refuses the
   * property writes, anything else is written as `WriteChain` says, and the
   * reference then stands for the entry unless the override failed.
   */
  lemma ChainEntryStructured(mixins: map<string, Entry>, s: string, usesPrototype: bool, overrideDepends: Value)
    requires RefName(s) in mixins && mixins[RefName(s)].Chain? && !IsNil(mixins[RefName(s)].v)
    ensures var v := mixins[RefName(s)].v;
      var r := StructureString(mixins, s, usesPrototype, overrideDepends);
      if (IndexOf(s, "(").Some? || usesPrototype) && IsPrimitive(v) then r == Structured(mixins, Err(HostTypeError))
      else
        var c := WriteChain(v, s, usesPrototype, overrideDepends);
        && r.mixins == mixins[RefName(s) := Chain(c.v)]
        && (r.out.Ok? <==> c.failure.None?)
        && (r.out.Err? ==> c.failure == Some(r.out.failure))
  {
  }

  /** A `buildChain` entry after `_structureMixinString`'s writes, and the failure that stopped them. */
  datatype ChainWrite = ChainWrite(v: Value, failure: Option<Failure>)

  /**
   * The writes of `_structureMixinString` on a `buildChain` entry that is not a
   * primitive. An object takes `use` and `usesPrototype`, and an override
   * rewrites the members of its `logic`, as for a descriptor. A value without
   * `logic` (a function, an array, an object lacking it) throws at the first
   * override group, and an override whose groups all filter away (`']'`) reads
   * nothing. Only an object is ever changed.
   */
  function WriteChain(v: Value, s: string, usesPrototype: bool, overrideDepends: Value): (r: ChainWrite)
    requires !IsNil(v)
    ensures var rw := RewriteAll(Get(v, "logic"), OverridePieces(overrideDepends));
      && r.failure == (if IsNil(overrideDepends) then None else rw.failure)
      && (IsNil(Get(v, "logic")) && !IsNil(overrideDepends) && |OverridePieces(overrideDepends)| > 0 ==> r.failure == Some(HostTypeError))
      && (!v.Record? ==> r.v == v)
      && (v.Record? ==>
            && r.v.Record?
            && Get(r.v, "use") == (if IndexOf(s, "(").Some? then Strings(RefUse(s)) else Get(v, "use"))
            && Get(r.v, "usesPrototype") == (if usesPrototype then Bool(true) else Get(v, "usesPrototype"))
            && Get(r.v, "logic") == (if IsNil(overrideDepends) then Get(v, "logic") else rw.logic)
            && (forall k :: k != "use" && k != "usesPrototype" && k != "logic" ==> Get(r.v, k) == Get(v, k)))
  {
    OverrideChain(MarkChain(v, s, usesPrototype), overrideDepends)
  }

  /** `_overrideDependencies` on a `buildChain` entry: it rewrites the entry's `logic`, if there is one. */
  function OverrideChain(marked: Value, overrideDepends: Value): ChainWrite
    requires !IsNil(marked)
  {
    if IsNil(overrideDepends) then ChainWrite(marked, None)
    else
      var logic := Get(marked, "logic");
      var rw := RewriteAll(logic, OverridePieces(overrideDepends));
      ChainWrite(if marked.Record? && !IsNil(logic) then Set(marked, "logic", rw.logic) else marked, rw.failure)
  }

  /**
   * The `use` and `usesPrototype` writes of `_structureMixinString` on a
   * `buildChain` entry. Only an object keeps them: named properties of
   * functions and arrays are not modelled.
   */
  function MarkChain(v: Value, s: string, usesPrototype: bool): (r: Value)
    ensures !v.Record? ==> r == v
    ensures v.Record? ==>
      && r.Record?
      && Get(r, "use") == (if IndexOf(s, "(").Some? then Strings(RefUse(s)) else Get(v, "use"))
      && Get(r, "usesPrototype") == (if usesPrototype then Bool(true) else Get(v, "usesPrototype"))
      && (forall k :: k != "use" && k != "usesPrototype" ==> Get(r, k) == Get(v, k))
  {
    var withUse := if IndexOf(s, "(").Some? && v.Record? then Set(v, "use", Strings(RefUse(s))) else v;
    if usesPrototype && withUse.Record? then Set(withUse, "usesPrototype", Bool(true)) else withUse
  }

  /**
   * `_structureMixinObject(mixin)` for a value of type `object`. The first key
   * names the mixin, unless it is `prototype`, in which case the mixin is the
   * value under `prototype`, named by its own first key, and the descriptor is
   * marked for the prototype scope; `overrideDepends` is read from the outer
   * object. A string under `prototype` is resolved as a string reference. A body
   * whose first key is `action` holding a function is the un-nested shorthand
   * for a single member (and its `use` is then not read). Object references do
   * not touch the registry.
   */
  function StructureObject(mixins: map<string, Entry>, mixin: Value): (r: Structured)
    requires TypeOf(mixin) == "object"
    ensures mixin.Null? ==> r == Structured(mixins, Err(HostTypeError))
    ensures !mixin.Null? && !(FirstKey(mixin) == "prototype" && Get(mixin, "prototype").Str?) ==>
      && r.mixins == mixins
      && (r.out.Ok? ==> r.out.value.Inline? && r.out.value.d.usesPrototype == (FirstKey(mixin) == "prototype"))
  {
    if mixin.Null? then Structured(mixins, Err(HostTypeError))
    else
      var usesPrototype := FirstKey(mixin) == "prototype";
      var overrideDepends := Get(mixin, "overrideDepends");
      var inner := if usesPrototype then Get(mixin, "prototype") else mixin;
      if IsNil(inner) then Structured(mixins, Err(HostTypeError))
      else if inner.Str? then StructureString(mixins, inner.s, usesPrototype, overrideDepends)
      else
        var name := FirstKey(inner);
        var body := Get(inner, name);
        if IsNil(body) then Structured(mixins, Err(HostTypeError))
        else
          var unnested := UnNested(body);
          var holder := if unnested then Record([name], map[name := inner]) else inner;
          var use := Get(holder, "use");
          var logic := if unnested then inner else body;
          StructureBuilt(mixins, Descriptor(name, ObjectKeys(logic), logic, if IsNil(use) then Undefined else use, false),
                         usesPrototype, overrideDepends)
  }

  /** The un-nested shorthand `{ action: fn, ... }` for a body holding a single member. */
  predicate UnNested(body: Value)
    requires !IsNil(body)
  {
    FirstKey(body) == "action" && IsFunction(Get(body, "action"))
  }

  /**
   * `{ Name: body, use: [...] }` with a body that is not the un-nested
   * shorthand and no `overrideDepends`: a descriptor named `Name` whose keys
   * are the body's own keys and whose `use` is the reference's; the registry
   * is not touched.
   */
  lemma InlineReference(mixins: map<string, Entry>, mixin: Value, name: string)
    requires TypeOf(mixin) == "object" && !mixin.Null?
    requires FirstKey(mixin) == name && name != "prototype" && IsNil(Get(mixin, "overrideDepends"))
    requires !IsNil(Get(mixin, name)) && !UnNested(Get(mixin, name))
    ensures var body, use := Get(mixin, name), Get(mixin, "use");
      StructureObject(mixins, mixin)
      == Structured(mixins, Ok(Inline(Descriptor(name, ObjectKeys(body), body, if IsNil(use) then Undefined else use, false))))
  {
  }

  /**
   * `{ Name: { action: fn, depends: [...] } }`: the whole reference is the
   * logic of a mixin named `Name`, so its keys are the reference's own; the
   * reference's `use` is not read (only a mixin named `use` finds one).
   */
  lemma UnNestedReference(mixins: map<string, Entry>, mixin: Value, name: string)
    requires TypeOf(mixin) == "object" && !mixin.Null?
    requires FirstKey(mixin) == name && name != "prototype" && IsNil(Get(mixin, "overrideDepends"))
    requires !IsNil(Get(mixin, name)) && UnNested(Get(mixin, name))
    ensures StructureObject(mixins, mixin)
         == Structured(mixins, Ok(Inline(Descriptor(name, ObjectKeys(mixin), mixin, if name == "use" then mixin else Undefined, false))))
  {
  }

  /**
   * `{ prototype: { Name: body } }` builds the descriptor the inner reference
   * builds on its own, marked for the prototype scope.
   */
  lemma PrototypeReference(mixins: map<string, Entry>, mixin: Value)
    requires TypeOf(mixin) == "object" && !mixin.Null? && FirstKey(mixin) == "prototype"
    requires var inner := Get(mixin, "prototype");
      TypeOf(inner) == "object" && !inner.Null? && FirstKey(inner) != "prototype"
    requires IsNil(Get(mixin, "overrideDepends")) && IsNil(Get(Get(mixin, "prototype"), "overrideDepends"))
    ensures var r := StructureObject(mixins, Get(mixin, "prototype"));
      StructureObject(mixins, mixin)
      == Structured(mixins, if r.out.Ok? then Ok(Inline(r.out.value.d.(usesPrototype := true))) else r.out)
  {
  }

  /**
   * `{ prototype: 'Name(a)' }` is the string reference structured with the
   * prototype flag and the outer `overrideDepends`, so the registry entry is
   * marked for the prototype scope.
   */
  lemma PrototypeStringReference(mixins: map<string, Entry>, mixin: Value)
    requires TypeOf(mixin) == "object" && !mixin.Null? && FirstKey(mixin) == "prototype"
    requires Get(mixin, "prototype").Str?
    ensures StructureObject(mixins, mixin)
         == StructureString(mixins, Get(mixin, "prototype").s, true, Get(mixin, "overrideDepends"))
  {
  }

  /**
   * `{ Name: 'Other(a, b)' }`: a string under any first key but `prototype` is
   * not resolved through the registry. It is the body of an inline descriptor
   * whose keys are the string's character indices, and the registry is untouched.
   */
  lemma StringBodyIsInline(mixins: map<string, Entry>, mixin: Value, name: string, b: string)
    requires TypeOf(mixin) == "object" && !mixin.Null?
    requires FirstKey(mixin) == name && name != "prototype" && IsNil(Get(mixin, "overrideDepends"))
    requires Get(mixin, name) == Str(b)
    ensures var use := Get(mixin, "use");
      StructureObject(mixins, mixin)
      == Structured(mixins, Ok(Inline(Descriptor(name, IndexKeys(|b|), Str(b), if IsNil(use) then Undefined else use, false))))
  {
    var use := if IsNil(Get(mixin, "use")) then Undefined else Get(mixin, "use");
    calc {
      StructureObject(mixins, mixin);
      { StringIsNotUnNested(b); InlineReference(mixins, mixin, name); }
      Structured(mixins, Ok(Inline(Descriptor(name, ObjectKeys(Str(b)), Str(b), use, false))));
      Structured(mixins, Ok(Inline(Descriptor(name, IndexKeys(|b|), Str(b), use, false))));
    }
  }

  /** A string body is never the un-nested shorthand: its first key is an index, not `action`. */
  lemma StringIsNotUnNested(b: string)
    ensures !UnNested(Str(b))
  {
    if |b| > 0 {
      assert FirstKey(Str(b)) == NatToString(0);
    }
  }

  /**
   * `{ Name: 'Other(a)', overrideDepends: 'k:[x,y]' }`: the override is applied
   * to the string body, which has no member `k`, so structuring fails with
   * "Invalid dependency override" and the registry is untouched. A `k` naming a
   * `String.prototype` member is read as absent here, since prototype members
   * are not modelled.
   */
  lemma OverrideOnStringBodyRefused(mixins: map<string, Entry>, mixin: Value, name: string, b: string, o: DependencyOverride)
    requires TypeOf(mixin) == "object" && !mixin.Null?
    requires FirstKey(mixin) == name && name != "prototype" && Get(mixin, name) == Str(b)
    requires Get(mixin, "overrideDepends") == Str(Render([o]))
    requires Token(o.key) && |o.deps| >= 1 && (forall j :: 0 <= j < |o.deps| ==> Token(o.deps[j]))
    requires o.key != "length" && exists j :: 0 <= j < |o.key| && !IsDigit(o.key[j])
    ensures StructureObject(mixins, mixin) == Structured(mixins, Err(Mixin(InvalidDependencyOverride(o.key))))
  {
    StringIsNotUnNested(b);
    GetNonIndex(Str(b), o.key);
    OverrideOfAbsentKey(Str(b), o);
    var use := Get(mixin, "use");
    var d := Descriptor(name, IndexKeys(|b|), Str(b), if IsNil(use) then Undefined else use, false);
    assert StructureObject(mixins, mixin) == StructureBuilt(mixins, d, false, Str(Render([o])));
  }

  /** The end of an object reference: the override applied to the built descriptor, which is then marked for its scope. */
  function StructureBuilt(mixins: map<string, Entry>, d: Descriptor, usesPrototype: bool, overrideDepends: Value): (r: Structured)
    ensures r.mixins == mixins
    ensures var rw := RewriteAll(d.logic, OverridePieces(overrideDepends));
      && (r.out.Ok? <==> IsNil(overrideDepends) || rw.failure.None?)
      && (r.out.Err? ==> rw.failure == Some(r.out.failure))
      && (r.out.Ok? ==> r.out.value == Inline(d.(logic := if IsNil(overrideDepends) then d.logic else rw.logic,
                                                 usesPrototype := usesPrototype)))
  {
    var rw := if IsNil(overrideDepends) then Rewrite(d.logic, None) else RewriteAll(d.logic, OverridePieces(overrideDepends));
    if rw.failure.Some? then Structured(mixins, Err(rw.failure.value))
    else Structured(mixins, Ok(Inline(d.(logic := rw.logic, usesPrototype := usesPrototype))))
  }

  /** One element of a schema list, as `structure` maps it (src/Mixin.js:67-75). */
  function StructureReference(mixins: map<string, Entry>, mixin: Value): (r: Structured)
    ensures r.mixins.Keys == mixins.Keys
    ensures r.out == Ok(NotAReference) <==> TypeOf(mixin) != "object" && !mixin.Str?
    ensures r.out.Ok? && r.out.value.Shared? ==> !Unregistered(mixins, r.out.value.name)
    ensures r.mixins != mixins ==>
      mixin.Str? || (mixin.Record? && FirstKey(mixin) == "prototype" && Get(mixin, "prototype").Str?)
  {
    if TypeOf(mixin) == "object" then StructureObject(mixins, mixin)
    else if mixin.Str? then StructureString(mixins, mixin.s, false, Undefined)
    else Structured(mixins, Ok(NotAReference))
  }

  /** The registry after expanding a list, and the expanded list or the failure that stopped it. */
  datatype Expansion = Expansion(mixins: map<string, Entry>, out: Result<seq<Expanded>>)

  /** `mixins.map(...)`: each reference in order, stopping at the first failure. */
  function ExpandAll(mixins: map<string, Entry>, refs: seq<Value>): (r: Expansion)
    ensures r.out.Ok? ==> |r.out.value| == |refs|
    decreases |refs|
  {
    if |refs| == 0 then Expansion(mixins, Ok([]))
    else
      var done := ExpandAll(mixins, refs[..|refs| - 1]);
      if done.out.Err? then done
      else
        var one := StructureReference(done.mixins, refs[|refs| - 1]);
        if one.out.Err? then Expansion(one.mixins, Err(one.out.failure))
        else Expansion(one.mixins, Ok(done.out.value + [one.out.value]))
  }

  /** Once a prefix of the list fails, the whole list fails the same way. */
  lemma {:induction false} ExpandAllStops(mixins: map<string, Entry>, refs: seq<Value>, n: nat)
    requires n <= |refs| && ExpandAll(mixins, refs[..n]).out.Err?
    ensures ExpandAll(mixins, refs) == ExpandAll(mixins, refs[..n])
    decreases |refs| - n
  {
    if n < |refs| {
      assert refs[..n + 1][..n] == refs[..n];
      ExpandAllStops(mixins, refs, n + 1);
    } else {
      assert refs[..n] == refs;
    }
  }

  /**
   * A string reference `Name(a,b)` records the untrimmed pieces between the
   * parentheses as the registry entry's `use` list and resolves to the entry.
   */
  lemma {:induction false} UseListIsWritten(mixins: map<string, Entry>, name: string, uses: seq<string>)
    requires '(' !in name && |uses| >= 1 && (forall k :: 0 <= k < |uses| ==> ',' !in uses[k])
    requires name in mixins && mixins[name].Desc?
    ensures var r := StructureString(mixins, name + "(" + Join(uses, ",") + ")", false, Undefined);
      r.out == Ok(Shared(name))
      && r.mixins == mixins[name := Desc(mixins[name].d.(use := Strings(uses)))]
  {
    var s := name + "(" + Join(uses, ",") + ")";
    IndexOfAfterFree(name, "(", Join(uses, ",") + ")");
    assert s == name + "(" + (Join(uses, ",") + ")");
    assert s[..|name|] == name;
    assert SliceToLast(s, |name| + 1) == Join(uses, ",");
    SplitJoin(uses, ",");
  }

  /**
   * `_structureMixinString`, step by step as the source writes it: each write
   * to the found entry goes to the registry at once.
   */
  method StructureMixinString(reg: MixinRegistry, s: string, usesPrototype: bool, overrideDepends: Value)
    returns (out: Result<Expanded>)
    modifies reg
    ensures Structured(reg.mixins, out) == StructureString(old(reg.mixins), s, usesPrototype, overrideDepends)
  {
    var paren := IndexOf(s, "(");
    var hasUseField := paren.Some?;
    var mixinName := if hasUseField then s[..paren.value] else s;
    assert mixinName == RefName(s);
    if Unregistered(reg.mixins, mixinName) {
      return Err(Mixin(NotRegistered(mixinName)));
    }
    match reg.mixins[mixinName]
    case Desc(found) =>
      out := StructureFound(reg, s, found, usesPrototype, overrideDepends);
    case Chain(v) =>
      out := StructureChained(reg, s, v, usesPrototype, overrideDepends);
  }

  /** The writes `_structureMixinString` makes to a `buildChain` entry, in the source's order. */
  method StructureChained(reg: MixinRegistry, s: string, v: Value, usesPrototype: bool, overrideDepends: Value)
    returns (out: Result<Expanded>)
    requires RefName(s) in reg.mixins && reg.mixins[RefName(s)] == Chain(v) && !IsNil(v)
    modifies reg
    ensures Structured(reg.mixins, out) == StructureString(old(reg.mixins), s, usesPrototype, overrideDepends)
  {
    if (IndexOf(s, "(").Some? || usesPrototype) && IsPrimitive(v) {
      return Err(HostTypeError);
    }
    ghost var before := reg.mixins;
    var found := MarkChained(reg, s, v, usesPrototype);
    var failure := OverrideChained(reg, RefName(s), found, overrideDepends, before);
    out := if failure.Some? then Err(failure.value) else Ok(Shared(RefName(s)));
  }

  /** The `logic` writes of an override to a `buildChain` entry already marked. */
  method OverrideChained(reg: MixinRegistry, name: string, found: Value, overrideDepends: Value, ghost before: map<string, Entry>)
    returns (failure: Option<Failure>)
    requires !IsNil(found) && reg.mixins == before[name := Chain(found)]
    modifies reg
    ensures reg.mixins == before[name := Chain(OverrideChain(found, overrideDepends).v)]
    ensures failure == OverrideChain(found, overrideDepends).failure
  {
    failure := None;
    if !IsNil(overrideDepends) {
      var logic := Get(found, "logic");
      var rw := OverrideDependencies(logic, overrideDepends);
      if found.Record? && !IsNil(logic) {
        reg.mixins := reg.mixins[name := Chain(Set(found, "logic", rw.logic))];
        assert reg.mixins == before[name := Chain(Set(found, "logic", rw.logic))];
      }
      failure := rw.failure;
    }
  }

  /** The `use` and `usesPrototype` writes to a `buildChain` entry. */
  method MarkChained(reg: MixinRegistry, s: string, v: Value, usesPrototype: bool) returns (found: Value)
    requires RefName(s) in reg.mixins && reg.mixins[RefName(s)] == Chain(v)
    modifies reg
    ensures found == MarkChain(v, s, usesPrototype)
    ensures reg.mixins == old(reg.mixins)[RefName(s) := Chain(found)]
  {
    var name := RefName(s);
    found := v;
    if IndexOf(s, "(").Some? && found.Record? {
      found := Set(found, "use", Strings(RefUse(s)));
      reg.mixins := reg.mixins[name := Chain(found)];
    }
    if usesPrototype && found.Record? {
      found := Set(found, "usesPrototype", Bool(true));
      reg.mixins := reg.mixins[name := Chain(found)];
    }
    assert reg.mixins == old(reg.mixins)[name := Chain(found)];
  }

  /** The writes `_structureMixinString` makes to a registered descriptor, in the source's order. */
  method StructureFound(reg: MixinRegistry, s: string, found: Descriptor, usesPrototype: bool, overrideDepends: Value)
    returns (out: Result<Expanded>)
    requires RefName(s) in reg.mixins && reg.mixins[RefName(s)] == Desc(found)
    modifies reg
    ensures Structured(reg.mixins, out) == StructureString(old(reg.mixins), s, usesPrototype, overrideDepends)
  {
    var paren := IndexOf(s, "(");
    var mixinName := if paren.Some? then s[..paren.value] else s;
    assert mixinName == RefName(s);
    var before := reg.mixins;
    var found' := found;
    if paren.Some? {
      assert Split(SliceToLast(s, paren.value + 1), ",") == RefUse(s);
      found' := found'.(use := Strings(Split(SliceToLast(s, paren.value + 1), ",")));
      reg.mixins := reg.mixins[mixinName := Desc(found')];
    }
    if usesPrototype {
      found' := found'.(usesPrototype := true);
      reg.mixins := reg.mixins[mixinName := Desc(found')];
    }
    ghost var withUse := if paren.Some? then found.(use := Strings(RefUse(s))) else found;
    ghost var marked := if usesPrototype then withUse.(usesPrototype := true) else withUse;
    assert found' == marked;
    if !IsNil(overrideDepends) {
      var rw := OverrideDependencies(found'.logic, overrideDepends);
      found' := found'.(logic := rw.logic);
      reg.mixins := before[mixinName := Desc(found')];
      assert StructureString(before, s, usesPrototype, overrideDepends) ==
        Structured(reg.mixins, if rw.failure.Some? then Err(rw.failure.value) else Ok(Shared(mixinName)));
      if rw.failure.Some? {
        return Err(rw.failure.value);
      }
    } else {
      reg.mixins := before[mixinName := Desc(found')];
      assert StructureString(before, s, usesPrototype, overrideDepends) == Structured(reg.mixins, Ok(Shared(mixinName)));
    }
    out := Ok(Shared(mixinName));
  }

  /** `_structureMixinObject`, delegating to `StructureMixinString` for a string under `prototype`. */
  method StructureMixinObject(reg: MixinRegistry, mixin: Value) returns (out: Result<Expanded>)
    requires TypeOf(mixin) == "object"
    modifies reg
    ensures Structured(reg.mixins, out) == StructureObject(old(reg.mixins), mixin)
  {
    if mixin.Null? {
      return Err(HostTypeError);
    }
    var mixinName := FirstKey(mixin);
    var usesPrototype := mixinName == "prototype";
    var overrideDepends := Get(mixin, "overrideDepends");
    var current := mixin;
    if usesPrototype {
      current := Get(mixin, "prototype");
      if IsNil(current) {
        return Err(HostTypeError);
      }
      mixinName := FirstKey(current);
    }
    if current.Str? {
      out := StructureMixinString(reg, current.s, usesPrototype, overrideDepends);
      return;
    }
    out := StructureInline(reg.mixins, mixin, current, usesPrototype, overrideDepends);
  }

  /** The object-reference half of `_structureMixinObject`: a descriptor built from the value itself. */
  method StructureInline(ghost mixins: map<string, Entry>, mixin: Value, current: Value, usesPrototype: bool, overrideDepends: Value)
    returns (out: Result<Expanded>)
    requires TypeOf(mixin) == "object" && !mixin.Null?
    requires usesPrototype == (FirstKey(mixin) == "prototype") && overrideDepends == Get(mixin, "overrideDepends")
    requires current == (if usesPrototype then Get(mixin, "prototype") else mixin)
    requires !IsNil(current) && !current.Str?
    ensures Structured(mixins, out) == StructureObject(mixins, mixin)
  {
    var mixinName := FirstKey(current);
    var body := Get(current, mixinName);
    if IsNil(body) {
      return Err(HostTypeError);
    }
    var holder := current;
    var isUnNested := FirstKey(body) == "action" && IsFunction(Get(body, "action"));
    if isUnNested {
      holder := Record([mixinName], map[mixinName := current]);
    }
    var use := Get(holder, "use");
    var logic := Get(holder, mixinName);
    assert logic == if isUnNested then current else body;
    var d := Descriptor(mixinName, ObjectKeys(logic), logic, Undefined, false);
    if !IsNil(use) {
      d := d.(use := use);
    }
    assert StructureObject(mixins, mixin) == StructureBuilt(mixins, d, usesPrototype, overrideDepends);
    out := FinishInline(mixins, d, usesPrototype, overrideDepends);
  }

  /** The last writes of `_structureMixinObject`: the override on the built descriptor, then the prototype mark. */
  method FinishInline(ghost mixins: map<string, Entry>, d: Descriptor, usesPrototype: bool, overrideDepends: Value)
    returns (out: Result<Expanded>)
    requires !d.usesPrototype
    ensures Structured(mixins, out) == StructureBuilt(mixins, d, usesPrototype, overrideDepends)
  {
    var d' := d;
    if !IsNil(overrideDepends) {
      var rw := OverrideDependencies(d'.logic, overrideDepends);
      d' := d'.(logic := rw.logic);
      if rw.failure.Some? {
        return Err(rw.failure.value);
      }
    }
    if usesPrototype {
      d' := d'.(usesPrototype := true);
    }
    out := Ok(Inline(d'));
  }

  /** One element of a schema list. */
  method StructureMixin(reg: MixinRegistry, mixin: Value) returns (out: Result<Expanded>)
    modifies reg
    ensures Structured(reg.mixins, out) == StructureReference(old(reg.mixins), mixin)
  {
    if TypeOf(mixin) == "object" {
      out := StructureMixinObject(reg, mixin);
    } else if mixin.Str? {
      out := StructureMixinString(reg, mixin.s, false, Undefined);
    } else {
      out := Ok(NotAReference);
    }
  }

  /** `mixins.map(...)` over a schema list: every reference is structured before any is merged. */
  method ExpandMixins(reg: MixinRegistry, refs: seq<Value>) returns (out: Result<seq<Expanded>>)
    modifies reg
    ensures Expansion(reg.mixins, out) == ExpandAll(old(reg.mixins), refs)
  {
    var expanded: seq<Expanded> := [];
    var i := 0;
    while i < |refs|
      invariant 0 <= i <= |refs|
      invariant ExpandAll(old(reg.mixins), refs[..i]) == Expansion(reg.mixins, Ok(expanded))
    {
      assert refs[..i + 1][..i] == refs[..i];
      ghost var step := StructureReference(reg.mixins, refs[i]);
      var one := StructureMixin(reg, refs[i]);
      assert step == Structured(reg.mixins, one);
      if one.Err? {
        assert ExpandAll(old(reg.mixins), refs[..i + 1]) == Expansion(reg.mixins, Err(one.failure));
        ExpandAllStops(old(reg.mixins), refs, i + 1);
        return Err(one.failure);
      }
      assert ExpandAll(old(reg.mixins), refs[..i + 1]) == Expansion(reg.mixins, Ok(expanded + [one.value]));
      expanded := expanded + [one.value];
      i := i + 1;
    }
    assert refs[..i] == refs;
    out := Ok(expanded);
  }
}
