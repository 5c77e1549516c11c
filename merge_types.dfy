/** The six merge types and their facets (src/Mixin.js:8-15), and how a schema key names one (src/Mixin.js:59-63). */
module MergeTypes {
  import opened Wrappers
  import opened Text

  datatype MergeType = Merge | MergeOver | Prepend | AwaitPrepend | Append | AwaitAppend

  /** The facets a merge type carries; absent facets are false. */
  datatype Options = Options(override: bool, before: bool, after: bool, promisify: bool)
  {
    predicate IsHook() { before || after }
  }

  /** The table's keys, in the table's order. */
  const MergeTypeNames: seq<string> := ["merge", "mergeOver", "prepend", "awaitPrepend", "append", "awaitAppend"]

  function Name(t: MergeType): string
  {
    match t
    case Merge => "merge"
    case MergeOver => "mergeOver"
    case Prepend => "prepend"
    case AwaitPrepend => "awaitPrepend"
    case Append => "append"
    case AwaitAppend => "awaitAppend"
  }

  /** The table entry for a merge type. */
  function OptionsOf(t: MergeType): (o: Options)
    ensures o.override <==> t == MergeOver
    ensures o.before <==> t in {Prepend, AwaitPrepend}
    ensures o.after <==> t in {Append, AwaitAppend}
    ensures o.promisify <==> t in {AwaitPrepend, AwaitAppend}
  {
    match t
    case Merge => Options(false, false, false, false)
    case MergeOver => Options(true, false, false, false)
    case Prepend => Options(false, true, false, false)
    case AwaitPrepend => Options(false, true, false, true)
    case Append => Options(false, false, true, false)
    case AwaitAppend => Options(false, false, true, true)
  }

  /** `Object.keys(mergeTypes).includes(type)`, answering which entry it is. */
  function Lookup(s: string): (r: Option<MergeType>)
    ensures r.Some? <==> s in MergeTypeNames
    ensures r.Some? ==> Name(r.value) == s
  {
    if s == "merge" then Some(Merge)
    else if s == "mergeOver" then Some(MergeOver)
    else if s == "prepend" then Some(Prepend)
    else if s == "awaitPrepend" then Some(AwaitPrepend)
    else if s == "append" then Some(Append)
    else if s == "awaitAppend" then Some(AwaitAppend)
    else None
  }

  /**
   * The merge type a schema key names: the key with one trailing run of digits
   * removed must be one of the six names. `None` is "Unknown merge type".
   */
  function MergeTypeOfKey(key: string): (r: Option<MergeType>)
  {
    Lookup(StripTrailingDigits(key))
  }

  /** A key is accepted exactly when, without its trailing digits, it is the name of a merge type. */
  lemma KeyAcceptedIff(key: string, t: MergeType)
    ensures MergeTypeOfKey(key) == Some(t) <==> StripTrailingDigits(key) == Name(t)
  {
  }

  /** Every merge type's name followed by any run of digits (`merge2`, `prepend10`) selects that type. */
  lemma NumberedKey(t: MergeType, digits: string)
    requires forall k :: 0 <= k < |digits| ==> IsDigit(digits[k])
    ensures MergeTypeOfKey(Name(t) + digits) == Some(t)
  {
    StripTrailingDigitsOf(Name(t), digits);
  }

  /** A misspelt key such as `mergeOverr` is refused. */
  lemma MisspeltKeyRefused()
    ensures MergeTypeOfKey("mergeOverr") == None
    ensures MergeTypeOfKey("merge2x") == None
  {
    assert StripTrailingDigits("mergeOverr") == "mergeOverr";
    assert StripTrailingDigits("merge2x") == "merge2x";
  }

  /** No merge type is both an override and a hook, and no hook is both before and after. */
  lemma FacetsExclusive(t: MergeType)
    ensures !(OptionsOf(t).override && OptionsOf(t).IsHook())
    ensures !(OptionsOf(t).before && OptionsOf(t).after)
    ensures OptionsOf(t).promisify ==> OptionsOf(t).IsHook()
  {
  }
}
