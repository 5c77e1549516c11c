/** The failures the engine reports (src/MixinError.js) and the host errors it runs into. */
module Errors {

  /** One variant per `MixinError` the engine throws; messages are not modelled. */
  datatype MixinError =
    | NameTaken(name: string)                                    // src/Mixin.js:24-26, 36-38
    | BadBuildArguments                                          // src/Mixin.js:32-34
    | MissingMergeSchema(methodName: string)                     // src/Mixin.js:50-52
    | UnknownMergeType(mergeType: string)                        // src/Mixin.js:61-63
    | NotRegistered(name: string)                                // src/Mixin.js:127-129
    | InvalidUse(offenders: seq<string>)                         // src/Mixin.js:183-185
    | InvalidDependencyOverride(key: string)                     // src/Mixin.js:153-155
    | MissingDependents(mixin: string, property: string, missing: seq<string>)  // src/Mixin.js:257-263
    | OverrideOfMissingMember(mixin: string, property: string)   // src/Mixin.js:265-271
    | DuplicateMember(mixin: string, property: string)           // src/Mixin.js:265-271
    | HookOnMissingMember(mixin: string, property: string)       // src/Mixin.js:273-275
    | NotAFunction                                               // src/Mixin.js:290-292

  /**
   * What aborts a pass: a `MixinError`, or a `TypeError` the JavaScript runtime
   * raises where the source does not guard (reading a property of undefined,
   * calling something that is not a function).
   */
  datatype Failure = Mixin(error: MixinError) | HostTypeError
}

/** A value or the failure that prevented it. */
module Results {
  import opened Errors

  datatype Result<T> = Ok(value: T) | Err(failure: Failure)
}
