/** `_validateMethodUsage` (src/Mixin.js:255-276): which installs are allowed. */
module Validator {
  import opened Wrappers
  import opened Errors

  /**
   * The checks in the source's order. `missing` is `None` when the fragment is a
   * plain function (no dependency list was read), else the dependencies the
   * target lacks.
   */
  function ValidateMethodUsage(mixinName: string, property: string, hasProperty: bool, isHook: bool, isOverride: bool,
                               missing: Option<seq<string>>): (r: Option<MixinError>)
  {
    if missing.Some? && |missing.value| > 0 then Some(MissingDependents(mixinName, property, missing.value))
    else if (!hasProperty && isOverride) || (!isHook && hasProperty && !isOverride) then
      (if isOverride then Some(OverrideOfMissingMember(mixinName, property))
       else Some(DuplicateMember(mixinName, property)))
    else if isHook && !hasProperty then Some(HookOnMissingMember(mixinName, property))
    else None
  }

  /** The four rules as a table, for the facet combinations the merge types have (never override and hook together). */
  lemma {:induction false} ValidatorTable(mixinName: string, property: string, hasProperty: bool, isHook: bool, isOverride: bool,
                                          missing: Option<seq<string>>)
    requires !(isHook && isOverride)
    ensures var r := ValidateMethodUsage(mixinName, property, hasProperty, isHook, isOverride, missing);
      && (missing.Some? && |missing.value| > 0 ==> r == Some(MissingDependents(mixinName, property, missing.value)))
      && ((missing.None? || |missing.value| == 0) ==>
            && (isOverride && !hasProperty ==> r == Some(OverrideOfMissingMember(mixinName, property)))
            && (!isOverride && !isHook && hasProperty ==> r == Some(DuplicateMember(mixinName, property)))
            && (isHook && !hasProperty ==> r == Some(HookOnMissingMember(mixinName, property))))
      && (r == None <==>
            (missing.None? || |missing.value| == 0)
            && (if isOverride || isHook then hasProperty else !hasProperty))
  {
  }
}
