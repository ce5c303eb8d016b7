/** The failures the library reports, one per distinct thrown message. */
module Errors {

  datatype RuleError =
    | NotAValidObject              // SanitiseRule: declaration not an object, or null
    | NotAllValidObjects           // SanitiserConfig: element not an object
    | NoRegex
    | NoSanitiseFunction
    | RegexNotString
    | SanitiseFunctionNotFunction
    | RegexFlagsNotString
    | CfgNotArray
    | NullPropertyAccess           // TypeError: hasOwnProperty called on null
    | PatternSyntax(msg: string)   // SyntaxError from the RegExp constructor
    | ResultNotString              // transform returned a non-string
  {
    /** The message the thrown error carries. */
    function Message(): string
    {
      match this
      case NotAValidObject => "config rule must be a valid object"
      case NotAllValidObjects => "all config rules must be valid objects"
      case NoRegex => "invalid config rule: no 'regex' element found"
      case NoSanitiseFunction => "invalid config rule: no 'sanitiseFunction' element found"
      case RegexNotString => "invalid config rule: 'regex' must be a string"
      case SanitiseFunctionNotFunction => "invalid config rule: 'sanitiseFunction' must be a function"
      case RegexFlagsNotString => "invalid config rule: 'regexFlags' must be a string"
      case CfgNotArray => "argument 'cfg' must be an Array"
      case NullPropertyAccess => "Cannot convert undefined or null to object"
      case PatternSyntax(m) => m
      case ResultNotString => "sanitise function must return a string"
    }
  }
}
