/**
 * `through(...mixins)` (src/Mixin.js:284-296): the class-factory chain. Each
 * reference, or the function a registry name holds, is applied in turn to what
 * the previous step returned, starting from the builder's parent class.
 */
module Chains {
  import opened Wrappers
  import opened Values
  import opened Errors
  import opened Results
  import opened Registry
  import opened Dispatch

  /**
   * The function a reference stands for, if it is one: a string is looked up in
   * the registry (a name never registered reads as `undefined`, and a merge
   * descriptor is an object); anything else must itself be a function.
   */
  function Transformer(mixins: map<string, Entry>, ref: Value): (r: Option<Value>)
    ensures r.Some? ==> IsFunction(r.value)
    ensures !ref.Str? ==> (r.Some? <==> IsFunction(ref)) && (r.Some? ==> r.value == ref)
  {
    if ref.Str? then
      if ref.s in mixins && mixins[ref.s].Chain? && IsFunction(mixins[ref.s].v) then Some(mixins[ref.s].v) else None
    else if IsFunction(ref) then Some(ref) else None
  }

  /**
   * The `reduce` over the references, left to right, from `base`. A reference
   * that is no function fails with a mixin error; a transformer that throws
   * stops the chain.
   */
  function Through(mixins: map<string, Entry>, base: Value, refs: seq<Value>, b: Behaviour): (r: Result<Value>)
    decreases |refs|
  {
    if |refs| == 0 then Ok(base)
    else
      match Through(mixins, base, refs[..|refs| - 1], b)
      case Err(f) => Err(f)
      case Ok(chain) =>
        match Transformer(mixins, refs[|refs| - 1])
        case None => Err(Mixin(NotAFunction))
        case Some(t) =>
          var out := Run(t, [chain], b).returned;
          if out.None? then Err(HostTypeError) else Ok(out.value)
  }

  /** Chaining in two halves: the second half continues from where the first left off. */
  lemma {:induction false} ThroughSplits(mixins: map<string, Entry>, base: Value, xs: seq<Value>, ys: seq<Value>, b: Behaviour)
    ensures Through(mixins, base, xs + ys, b)
         == match Through(mixins, base, xs, b)
            case Err(f) => Err(f)
            case Ok(v) => Through(mixins, v, ys, b)
    decreases |ys|
  {
    if |ys| == 0 {
      assert xs + ys == xs;
    } else {
      var init := ys[..|ys| - 1];
      assert (xs + ys)[..|xs + ys| - 1] == xs + init;
      assert (xs + ys)[|xs + ys| - 1] == ys[|ys| - 1];
      ThroughSplits(mixins, base, xs, init, b);
    }
  }

  /**
   * `through(A, B, C)` on `T` is `C(B(A(T)))` for transformer functions that
   * return normally.
   */
  lemma ThroughThree(mixins: map<string, Entry>, base: Value, a: nat, bb: nat, c: nat, b: Behaviour)
    ensures Through(mixins, base, [Fn(a), Fn(bb), Fn(c)], b) == Ok(b(c, [b(bb, [b(a, [base])])]))
  {
    var refs := [Fn(a), Fn(bb), Fn(c)];
    assert refs[..2][..1] == [Fn(a)] && refs[..1][..0] == [];
    assert Through(mixins, base, refs[..1], b) == Ok(b(a, [base]));
    assert Through(mixins, base, refs[..2], b) == Ok(b(bb, [b(a, [base])]));
  }

  /**
   * A string reference behaves as what the registry holds under that name (the
   * name is resolved once: a string stored there is not looked up again).
   */
  lemma ThroughResolvesNames(mixins: map<string, Entry>, base: Value, xs: seq<Value>, name: string, ys: seq<Value>, b: Behaviour)
    requires name in mixins && mixins[name].Chain? && !mixins[name].v.Str?
    ensures Through(mixins, base, xs + [Str(name)] + ys, b) == Through(mixins, base, xs + [mixins[name].v] + ys, b)
  {
    var v := mixins[name].v;
    ThroughSplits(mixins, base, xs + [Str(name)], ys, b);
    ThroughSplits(mixins, base, xs + [v], ys, b);
    assert (xs + [Str(name)])[..|xs|] == xs;
    assert (xs + [v])[..|xs|] == xs;
    assert Transformer(mixins, Str(name)) == Transformer(mixins, v);
  }

  /**
   * A reference that is not a function once resolved (such as a name never
   * registered) makes the chain fail with a mixin error, unless an earlier step
   * already failed; the steps after it are never run.
   */
  lemma ThroughRefusesNonFunction(mixins: map<string, Entry>, base: Value, xs: seq<Value>, ref: Value, ys: seq<Value>, b: Behaviour)
    requires Transformer(mixins, ref).None? && Through(mixins, base, xs, b).Ok?
    ensures Through(mixins, base, xs + [ref] + ys, b) == Err(Mixin(NotAFunction))
  {
    ThroughSplits(mixins, base, xs + [ref], ys, b);
    assert (xs + [ref])[..|xs|] == xs;
  }

  /** A name nobody registered is refused (test/errors.js:69-73). */
  lemma MissingNameRefused(mixins: map<string, Entry>, base: Value, name: string, b: Behaviour)
    requires name !in mixins
    ensures Through(mixins, base, [Str(name)], b) == Err(Mixin(NotAFunction))
  {
    assert [Str(name)][..0] == [];
  }
}
