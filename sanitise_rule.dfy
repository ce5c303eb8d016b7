/**
 * One sanitisation rule (src/SanitiseRule.js): the shape check of a rule
 * declaration, the rule built from it, and its two operations.
 */
module SingleRule {
  import opened Wrappers
  import opened JsValues
  import opened Runtime
  import opened Errors

  /**
   * A well-formed rule declaration, stated on the structure of the value:
   * a plain object with a string `regex`, a function `sanitiseFunction`
   * and, optionally, a string `regexFlags`.
   */
  predicate IsRuleDeclaration(v: JsValue)
  {
    && v.Obj?
    && "regex" in v.props && v.props["regex"].Str?
    && "sanitiseFunction" in v.props && v.props["sanitiseFunction"].Fn?
    && ("regexFlags" in v.props ==> v.props["regexFlags"].Str?)
  }

  /**
   * The pattern a well-formed declaration asks for. An absent `regexFlags`
   * reaches the RegExp constructor as `undefined`, which means no flags.
   */
  function DeclaredPattern(v: JsValue): RegExp
    requires IsRuleDeclaration(v)
  {
    RegExp(v.props["regex"].s,
           if "regexFlags" in v.props then v.props["regexFlags"].s else "")
  }

  /**
   * `validateRule`: the checks run in a fixed order and the first that fails
   * decides the error. Each outcome is characterised below by the structure
   * of the declaration alone.
   */
  function ValidateRule(v: JsValue): (r: Outcome<RuleError>)
    ensures r.Pass? <==> IsRuleDeclaration(v)
    ensures r == Fail(NotAValidObject) <==> !(v.Obj? || v.Arr?)
    ensures r == Fail(NoRegex) <==> v.Arr? || (v.Obj? && "regex" !in v.props)
    ensures r == Fail(NoSanitiseFunction) <==>
              v.Obj? && "regex" in v.props && "sanitiseFunction" !in v.props
    ensures r == Fail(RegexNotString) <==>
              v.Obj? && "regex" in v.props && "sanitiseFunction" in v.props
              && !v.props["regex"].Str?
    ensures r == Fail(SanitiseFunctionNotFunction) <==>
              v.Obj? && "regex" in v.props && "sanitiseFunction" in v.props
              && v.props["regex"].Str? && !v.props["sanitiseFunction"].Fn?
    ensures r == Fail(RegexFlagsNotString) <==>
              v.Obj? && "regex" in v.props && "sanitiseFunction" in v.props
              && v.props["regex"].Str? && v.props["sanitiseFunction"].Fn?
              && "regexFlags" in v.props && !v.props["regexFlags"].Str?
  {
    if TypeOf(v) != "object" then Fail(NotAValidObject)
    else if v == Null then Fail(NotAValidObject)
    else if !HasOwnProperty(v, Regex) then Fail(NoRegex)
    else if !HasOwnProperty(v, SanitiseFunction) then Fail(NoSanitiseFunction)
    else if TypeOf(Get(v, Regex)) != "string" then Fail(RegexNotString)
    else if TypeOf(Get(v, SanitiseFunction)) != "function" then Fail(SanitiseFunctionNotFunction)
    else if HasOwnProperty(v, RegexFlags) && TypeOf(Get(v, RegexFlags)) != "string" then
      Fail(RegexFlagsNotString)
    else Pass
  }

  /** An instance of `SanitiseRule`: its compiled pattern and its transform. */
  datatype SanitiseRule = SanitiseRule(regexObj: RegExp, sanitiseFx: nat)

  /**
   * The `SanitiseRule` constructor: the shape check first, then the RegExp
   * constructor, then the two fields are set. Either failure aborts it.
   */
  function NewSanitiseRule(host: Host, v: JsValue): (r: Result<SanitiseRule, RuleError>)
    ensures ValidateRule(v).Fail? ==> r == Failure(ValidateRule(v).error)
    ensures IsRuleDeclaration(v) ==>
              (r.Failure? <==> host.compileError(DeclaredPattern(v).source, DeclaredPattern(v).flags).Some?)
    ensures IsRuleDeclaration(v) && r.Failure? ==>
              r.error == PatternSyntax(host.compileError(DeclaredPattern(v).source, DeclaredPattern(v).flags).value)
    ensures r.Success? ==>
              && IsRuleDeclaration(v)
              && r.value.regexObj == DeclaredPattern(v)
              && Fn(r.value.sanitiseFx) == v.props["sanitiseFunction"]
  {
    match ValidateRule(v)
    case Fail(e) => Failure(e)
    case Pass =>
      var flags := if HasOwnProperty(v, RegexFlags) then Get(v, RegexFlags).s else "";
      var re := RegExp(Get(v, Regex).s, flags);
      match host.compileError(re.source, re.flags)
      case Some(msg) => Failure(PatternSyntax(msg))
      case None => Success(SanitiseRule(re, Get(v, SanitiseFunction).id))
  }

  /** `matches`: the compiled pattern's `test` on `s`. */
  predicate Matches(host: Host, rule: SanitiseRule, s: string)
  {
    host.test(rule.regexObj, s)
  }

  /**
   * A rule built from a declaration matches exactly the strings the
   * declared pattern, with the declared flags, accepts.
   */
  lemma MatchesDeclaredPattern(host: Host, v: JsValue, s: string)
    requires NewSanitiseRule(host, v).Success?
    ensures IsRuleDeclaration(v)
    ensures Matches(host, NewSanitiseRule(host, v).value, s) == host.test(DeclaredPattern(v), s)
  {
  }

  /**
   * `runSanitise`: calls the transform on `s` and accepts its result only
   * when it is a string, which is then returned unchanged.
   */
  function RunSanitise(host: Host, rule: SanitiseRule, s: string): (r: Result<string, RuleError>)
    ensures r.Success? <==> host.call(rule.sanitiseFx, s).Str?
    ensures r.Success? ==> host.call(rule.sanitiseFx, s) == Str(r.value)
    ensures r.Failure? ==> r.error == ResultNotString
  {
    var resultStr := host.call(rule.sanitiseFx, s);
    if TypeOf(resultStr) != "string" then Failure(ResultNotString) else Success(resultStr.s)
  }

  /** The declarations exercised by the constructor's tests, and their errors. */
  lemma ValidateRuleExamples()
    ensures ValidateRule(Undefined) == Fail(NotAValidObject)
    ensures ValidateRule(Str("")) == Fail(NotAValidObject)
    ensures ValidateRule(Null) == Fail(NotAValidObject)
    ensures ValidateRule(Obj(map[])) == Fail(NoRegex)
    ensures ValidateRule(Obj(map["regex" := Str("")])) == Fail(NoSanitiseFunction)
    ensures ValidateRule(Obj(map["regex" := Arr([]), "sanitiseFunction" := Fn(0)]))
              == Fail(RegexNotString)
    ensures ValidateRule(Obj(map["regex" := Str(""), "sanitiseFunction" := Str("")]))
              == Fail(SanitiseFunctionNotFunction)
    ensures ValidateRule(Obj(map["regex" := Str(""), "regexFlags" := Arr([]), "sanitiseFunction" := Fn(0)]))
              == Fail(RegexFlagsNotString)
    ensures ValidateRule(Obj(map["regex" := Str("abcd"), "sanitiseFunction" := Fn(0)])) == Pass
  {
  }

  /**
   * With a transform that appends "xx", `runSanitise("zz")` returns "zzxx";
   * with one that returns `undefined`, it fails.
   */
  lemma RunSanitiseExamples(host: Host, appender: SanitiseRule, silent: SanitiseRule)
    requires forall t :: host.call(appender.sanitiseFx, t) == Str(t + "xx")
    requires forall t :: host.call(silent.sanitiseFx, t) == Undefined
    ensures RunSanitise(host, appender, "zz") == Success("zzxx")
    ensures RunSanitise(host, silent, "zz") == Failure(ResultNotString)
  {
    assert "zz" + "xx" == "zzxx";
  }

  /**
   * The pattern is compiled only once the shape check has passed: a bad
   * `regexFlags` value is reported as such without compiling, while string
   * flags the engine rejects abort construction with the engine's error.
   */
  lemma NewSanitiseRuleExamples(host: Host, msg: string)
    requires host.compileError("abcd", "abcdefghi") == Some(msg)
    requires host.compileError("abcd", "") == None
    ensures NewSanitiseRule(host, Obj(map["regex" := Str(""), "regexFlags" := Arr([]), "sanitiseFunction" := Fn(0)]))
              == Failure(RegexFlagsNotString)
    ensures NewSanitiseRule(host, Obj(map["regex" := Str("abcd"), "regexFlags" := Str("abcdefghi"), "sanitiseFunction" := Fn(0)]))
              == Failure(PatternSyntax(msg))
    ensures NewSanitiseRule(host, Obj(map["regex" := Str("abcd"), "sanitiseFunction" := Fn(7)]))
              == Success(SanitiseRule(RegExp("abcd", ""), 7))
  {
  }
}
