/**
 * The superseded configuration holder (src/sanitiserConfig.js): a second
 * shape check over an array of rule declarations, and a `next()` cursor
 * over the accepted array.
 */
module CursorConfig {
  import opened Wrappers
  import opened JsValues
  import opened Errors
  import opened SingleRule
  import Runtime
  import RuleSet

  /**
   * `validateSanitiseRule`: the same field checks in the same order as
   * `validateRule`, with its own message for a non-object and no check for
   * `null`, on which `hasOwnProperty` throws a TypeError.
   */
  function ValidateSanitiseRule(v: JsValue): (r: Outcome<RuleError>)
    ensures r.Pass? <==> IsRuleDeclaration(v)
    ensures r == Fail(NotAllValidObjects) <==> !(v.Obj? || v.Arr? || v.Null?)
    ensures r == Fail(NullPropertyAccess) <==> v.Null?
  {
    if TypeOf(v) != "object" then Fail(NotAllValidObjects)
    else if v == Null then Fail(NullPropertyAccess)
    else if !HasOwnProperty(v, Regex) then Fail(NoRegex)
    else if !HasOwnProperty(v, SanitiseFunction) then Fail(NoSanitiseFunction)
    else if TypeOf(Get(v, Regex)) != "string" then Fail(RegexNotString)
    else if TypeOf(Get(v, SanitiseFunction)) != "function" then Fail(SanitiseFunctionNotFunction)
    else if HasOwnProperty(v, RegexFlags) && TypeOf(Get(v, RegexFlags)) != "string" then
      Fail(RegexFlagsNotString)
    else Pass
  }

  /**
   * The two shape checks agree on every value except in how they reject a
   * non-object: a non-object gets this file's own message, and `null`, which
   * `validateRule` rejects as not an object, here fails on the property test.
   */
  lemma ValidateSanitiseRuleAgrees(v: JsValue)
    ensures v.Null? ==>
              ValidateRule(v) == Fail(NotAValidObject) && ValidateSanitiseRule(v) == Fail(NullPropertyAccess)
    ensures !v.Null? ==>
              ValidateSanitiseRule(v) ==
                (if ValidateRule(v) == Fail(NotAValidObject) then Fail(NotAllValidObjects) else ValidateRule(v))
  {
  }

  /** The first error among the elements `rules`, checked in array order. */
  function CheckAll(rules: seq<JsValue>): (r: Outcome<RuleError>)
  {
    if rules == [] then Pass
    else
      match CheckAll(rules[..|rules| - 1])
      case Fail(e) => Fail(e)
      case Pass => ValidateSanitiseRule(rules[|rules| - 1])
  }

  /** What `validateConfig` throws, if anything, for the argument `cfg`. */
  function CheckConfig(cfg: JsValue): (r: Outcome<RuleError>)
  {
    if !IsArray(cfg) then Fail(CfgNotArray) else CheckAll(cfg.elems)
  }

  /**
   * The elements pass exactly when every one is a well-formed declaration;
   * otherwise the error is that of the first element that is not.
   */
  lemma {:induction false} CheckAllFirstFailure(rules: seq<JsValue>)
    ensures CheckAll(rules).Pass? <==> forall i :: 0 <= i < |rules| ==> IsRuleDeclaration(rules[i])
    ensures CheckAll(rules).Fail? ==>
              exists k :: 0 <= k < |rules|
                && (forall j :: 0 <= j < k ==> IsRuleDeclaration(rules[j]))
                && ValidateSanitiseRule(rules[k]) == CheckAll(rules)
  {
    if rules != [] {
      var prefix := rules[..|rules| - 1];
      CheckAllFirstFailure(prefix);
      assert forall i :: 0 <= i < |prefix| ==> prefix[i] == rules[i];
      if CheckAll(prefix).Fail? {
        var k :| 0 <= k < |prefix|
                 && (forall j :: 0 <= j < k ==> IsRuleDeclaration(prefix[j]))
                 && ValidateSanitiseRule(prefix[k]) == CheckAll(prefix);
        assert ValidateSanitiseRule(rules[k]) == CheckAll(rules);
      } else if CheckAll(rules).Fail? {
        assert ValidateSanitiseRule(rules[|rules| - 1]) == CheckAll(rules);
      }
    }
  }

  /** A failure in a prefix is the failure of the whole array. */
  lemma {:induction false} CheckAllPrefixFailure(rules: seq<JsValue>, k: nat)
    requires k <= |rules|
    requires CheckAll(rules[..k]).Fail?
    ensures CheckAll(rules) == CheckAll(rules[..k])
    decreases |rules| - k
  {
    if k < |rules| {
      assert rules[..k + 1][..k] == rules[..k];
      CheckAllPrefixFailure(rules, k + 1);
    } else {
      assert rules[..k] == rules;
    }
  }

  /**
   * Every configuration the rule set can be built from also passes this
   * check: the two drafts accept the same shapes, and the rule set
   * additionally compiles each pattern.
   */
  lemma BuiltConfigPasses(host: Runtime.Host, cfg: JsValue)
    requires RuleSet.BuildRules(host, cfg).Success?
    ensures CheckConfig(cfg).Pass?
  {
    RuleSet.BuildAllSucceeds(host, cfg.elems);
    CheckAllFirstFailure(cfg.elems);
  }

  /** `validateConfig`: rejects a non-array, then checks each element in order. */
  method ValidateConfig(cfg: JsValue) returns (r: Outcome<RuleError>)
    ensures r == CheckConfig(cfg)
  {
    if !IsArray(cfg) {
      return Fail(CfgNotArray);
    }
    var rules := cfg.elems;
    var i := 0;
    while i < |rules|
      invariant 0 <= i <= |rules|
      invariant CheckAll(rules[..i]) == Pass
    {
      assert rules[..i + 1][..i] == rules[..i];
      var checked := ValidateSanitiseRule(rules[i]);
      if checked.Fail? {
        CheckAllPrefixFailure(rules, i + 1);
        return checked;
      }
      i := i + 1;
    }
    assert rules[..i] == rules;
    return Pass;
  }

  /** An instance of `SanitiserConfig`: the accepted array and a cursor into it. */
  class SanitiserConfig {
    const cfg: seq<JsValue>
    var cfgIdx: int

    /** The cursor never goes below its start, and every element was accepted. */
    ghost predicate Valid()
      reads this
    {
      && cfgIdx >= -1
      && forall i :: 0 <= i < |cfg| ==> IsRuleDeclaration(cfg[i])
    }

    constructor (rules: seq<JsValue>)
      requires CheckAll(rules).Pass?
      ensures Valid()
      ensures cfg == rules && cfgIdx == -1
    {
      CheckAllFirstFailure(rules);
      cfg := rules;
      cfgIdx := -1;
    }

    /**
     * `next()`: advances the cursor by one and returns the element under it,
     * or `false` once the cursor has passed the end, on this call and every
     * later one.
     */
    method Next() returns (rule: JsValue)
      requires Valid()
      modifies this
      ensures Valid()
      ensures cfgIdx == old(cfgIdx) + 1
      ensures cfgIdx < |cfg| ==> rule == cfg[cfgIdx]
      ensures cfgIdx >= |cfg| ==> rule == Bool(false)
    {
      cfgIdx := cfgIdx + 1;
      // Reading past the end gives `undefined`, which is falsy.
      var current := if cfgIdx < |cfg| then cfg[cfgIdx] else Undefined;
      if Truthy(current) {
        return current;
      }
      return Bool(false);
    }
  }

  /**
   * The `SanitiserConfig` constructor: validates `cfg`, keeps it as given
   * and starts the cursor before the first element; or throws, and no
   * instance exists.
   */
  method NewSanitiserConfig(cfg: JsValue) returns (r: Result<SanitiserConfig, RuleError>)
    ensures r.Failure? <==> CheckConfig(cfg).Fail?
    ensures r.Failure? ==> r.error == CheckConfig(cfg).error
    ensures r.Success? ==>
              && fresh(r.value) && r.value.Valid()
              && Arr(r.value.cfg) == cfg && r.value.cfgIdx == -1
  {
    var checked := ValidateConfig(cfg);
    if checked.Fail? {
      return Failure(checked.error);
    }
    var instance := new SanitiserConfig(cfg.elems);
    return Success(instance);
  }

  /**
   * A client walking a two-element configuration to its end: `next()`
   * yields the two declarations in order, then `false` on every later call.
   */
  method WalkTwoRules(first: JsValue, second: JsValue) returns (a: JsValue, b: JsValue, c: JsValue, d: JsValue)
    requires IsRuleDeclaration(first) && IsRuleDeclaration(second)
    ensures a == first && b == second
    ensures c == Bool(false) && d == Bool(false)
  {
    CheckAllFirstFailure([first, second]);
    var created := NewSanitiserConfig(Arr([first, second]));
    var config := created.value;
    a := config.Next();
    b := config.Next();
    c := config.Next();
    d := config.Next();
  }
}
