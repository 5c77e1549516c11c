/**
 * The JavaScript values the composition engine handles, and the few language
 * operations it performs on them: truthiness, `typeof`, nil tests, property
 * reads and writes, `Object.keys` and conversion to a string.
 */
module Values {
  import opened Wrappers
  import opened Text

  /**
   * A JavaScript value. `Fn(id)` is a function written by the user (a fragment
   * member, an original method of the target or a chain transformer), known by
   * its identity; `Noop` is the `action` the dependency-override rewriter builds
   * for a plain function; `Installed(w)` is a dispatch wrapper installed by a merge.
   */
  datatype Value =
    | Undefined
    | Null
    | Bool(b: bool)
    | Num(n: int)
    | Str(s: string)
    | List(items: seq<Value>)
    | Record(keys: seq<string>, props: map<string, Value>)
    | Fn(id: nat)
    | Noop
    | Installed(w: Wrapper)

  /**
   * The closure a merge installs (src/Mixin.js:208-235): the fragment's logic and,
   * except for a plain merge, the implementation it found under that name.
   */
  datatype Wrapper =
    | Plain(frag: Value)
    | Over(frag: Value, prev: Value)
    | Before(frag: Value, prev: Value, awaited: bool)
    | After(frag: Value, prev: Value, awaited: bool)

  /** `x.isNil`: null or undefined. */
  predicate IsNil(v: Value)
  {
    v.Undefined? || v.Null?
  }

  /** JavaScript truthiness (`!!v`). */
  predicate Truthy(v: Value)
  {
    match v
    case Undefined => false
    case Null => false
    case Bool(b) => b
    case Num(n) => n != 0
    case Str(s) => s != ""
    case _ => true
  }

  /** `typeof v`. */
  function TypeOf(v: Value): string
  {
    match v
    case Undefined => "undefined"
    case Bool(_) => "boolean"
    case Num(_) => "number"
    case Str(_) => "string"
    case Fn(_) => "function"
    case Noop => "function"
    case Installed(_) => "function"
    case _ => "object"
  }

  predicate IsFunction(v: Value)
  {
    v.Fn? || v.Noop? || v.Installed?
  }

  /** A record whose key order lists exactly its properties, each once. */
  ghost predicate WellFormedRecord(v: Value)
  {
    v.Record? && (forall i, j :: 0 <= i < j < |v.keys| ==> v.keys[i] != v.keys[j])
    && (forall k :: k in v.props <==> k in v.keys)
  }

  /**
   * `v[k]` on a value that is not null or undefined (reading a property of those
   * throws, which callers model). Arrays and strings answer their index keys
   * and `length`; other primitives and functions have no modelled properties.
   * Members inherited from a prototype (`toString`, `slice`, `map`) are not
   * modelled: they read as `undefined` here.
   */
  function Get(v: Value, k: string): (r: Value)
    requires !IsNil(v)
    ensures v.Record? ==> (r == if k in v.props then v.props[k] else Undefined)
  {
    match v
    case Record(_, props) => if k in props then props[k] else Undefined
    case List(items) =>
      if k == "length" then Num(|items|)
      else (match FindIndexKey(k, |items|)
            case Some(i) => items[i]
            case None => Undefined)
    case Str(s) =>
      if k == "length" then Num(|s|)
      else (match FindIndexKey(k, |s|)
            case Some(i) => Str([s[i]])
            case None => Undefined)
    case _ => Undefined
  }

  /**
   * An array or a string answers `length` with its length and the index key
   * `"i"` with its i-th element (a one-character string for a string).
   */
  lemma GetIndex(v: Value, i: nat)
    requires v.List? || v.Str?
    ensures Get(v, "length") == Num(if v.List? then |v.items| else |v.s|)
    ensures v.List? && i < |v.items| ==> Get(v, NatToString(i)) == v.items[i]
    ensures v.Str? && i < |v.s| ==> Get(v, NatToString(i)) == Str([v.s[i]])
  {
    var k := NatToString(i);
    assert k != "length" by {
      assert IsDigit(k[0]);
    }
    var n := if v.List? then |v.items| else |v.s|;
    if i < n {
      var found := FindIndexKey(k, n);
      assert found.Some?;
      NatToStringInjective(found.value, i);
    }
  }

  /**
   * Any other key that is not all digits reads as `undefined` on an array or a
   * string (prototype members being outside the model).
   */
  lemma GetNonIndex(v: Value, k: string)
    requires v.List? || v.Str?
    requires k != "length" && exists j :: 0 <= j < |k| && !IsDigit(k[j])
    ensures Get(v, k) == Undefined
  {
  }

  /**
   * `v[k] = x` on an object: a record gains or updates the property, an array
   * updates an index. Named properties on arrays are not modelled.
   */
  function Set(v: Value, k: string, x: Value): (r: Value)
    requires v.Record? || v.List?
    ensures r.Record? <==> v.Record?
    ensures v.Record? ==> Get(r, k) == x
    ensures v.Record? ==> forall k' :: k' != k ==> Get(r, k') == Get(v, k')
    ensures WellFormedRecord(v) ==> WellFormedRecord(r)
  {
    match v
    case Record(keys, props) =>
      if k in props then Record(keys, props[k := x])
      else Record(keys + [k], props[k := x])
    case List(items) =>
      match FindIndexKey(k, |items|)
      case Some(i) => List(items[i := x])
      case None => v
  }

  /** `Object.keys(v)` on a value that is not null or undefined. */
  function ObjectKeys(v: Value): seq<string>
    requires !IsNil(v)
  {
    match v
    case Record(keys, _) => keys
    case List(items) => IndexKeys(|items|)
    case Str(s) => IndexKeys(|s|)
    case _ => []
  }

  /** The first key of `Object.keys(v)`, or `"undefined"` (the key `undefined` converts to) when there is none. */
  function FirstKey(v: Value): string
    requires !IsNil(v)
  {
    var keys := ObjectKeys(v);
    if |keys| > 0 then keys[0] else "undefined"
  }

  /**
   * `String(v)`, as in a template literal. A function converts to its source
   * text, which the model does not have; it stands as `"function"`.
   */
  function ToJsString(v: Value): string
  {
    match v
    case Undefined => "undefined"
    case Null => "null"
    case Bool(b) => if b then "true" else "false"
    case Num(n) => IntToString(n)
    case Str(s) => s
    case List(items) => Join(ItemStrings(items), ",")
    case Record(_, _) => "[object Object]"
    case _ => "function"
  }

  /** The pieces `Array.prototype.join` puts together: null and undefined become empty. */
  function ItemStrings(items: seq<Value>): (r: seq<string>)
    ensures |r| == |items|
  {
    if |items| == 0 then []
    else [if IsNil(items[0]) then "" else ToJsString(items[0])] + ItemStrings(items[1..])
  }

  /** `xs.includes(v)` for a value compared with a string (strict equality). */
  predicate IncludesString(xs: seq<Value>, s: string)
  {
    Str(s) in xs
  }

  /** An array of strings, as `split` returns. */
  function Strings(xs: seq<string>): (r: Value)
    ensures r.List? && |r.items| == |xs|
    ensures forall i :: 0 <= i < |xs| ==> r.items[i] == Str(xs[i])
  {
    List(seq(|xs|, i requires 0 <= i < |xs| => Str(xs[i])))
  }
}
