/**
 * The complete validator that the test suite describes (its `sanitise` and
 * `isValid`), built from the rule set and the single rule: a valid string
 * is returned unchanged; otherwise each rule matching it is run on the
 * original string until one produces a valid result; when none does, the
 * result is `null`.
 */
module Sanitiser {
  import opened Wrappers
  import opened JsValues
  import opened Runtime
  import opened Errors
  import opened SingleRule
  import opened RuleSet

  /** A validator: the main pattern and the rules built from its configuration. */
  datatype SanitisingValidator = SanitisingValidator(mainRegex: RegExp, rules: seq<SanitiseRule>)

  /** Construction builds the rule set; any failure aborts it. */
  function NewSanitisingValidator(host: Host, mainRegex: RegExp, cfg: JsValue)
    : (r: Result<SanitisingValidator, RuleError>)
    ensures r.Failure? <==> BuildRules(host, cfg).Failure?
    ensures r.Failure? ==> r.error == BuildRules(host, cfg).error
    ensures r.Success? ==>
              && cfg.Arr?
              && r.value.mainRegex == mainRegex
              && |r.value.rules| == |cfg.elems|
              && forall i :: 0 <= i < |cfg.elems| ==> NewSanitiseRule(host, cfg.elems[i]) == Success(r.value.rules[i])
  {
    match BuildRules(host, cfg)
    case Failure(e) => Failure(e)
    case Success(rules) =>
      BuildAllSucceeds(host, cfg.elems);
      Success(SanitisingValidator(mainRegex, rules))
  }

  /** `isValid`: the main pattern's test. */
  predicate IsValid(host: Host, v: SanitisingValidator, s: string)
  {
    host.test(v.mainRegex, s)
  }

  /**
   * Runs `candidates` in order on the original string `s`, stopping at the
   * first whose output is valid. A transform that returns a non-string
   * aborts the scan.
   */
  function TryRules(host: Host, v: SanitisingValidator, candidates: seq<SanitiseRule>, s: string)
    : (r: Result<Option<string>, RuleError>)
    ensures r.Success? && r.value.Some? ==>
              && IsValid(host, v, r.value.value)
              && exists i :: 0 <= i < |candidates| && RunSanitise(host, candidates[i], s) == Success(r.value.value)
    ensures r == Success(None) <==>
              forall i :: 0 <= i < |candidates| ==>
                RunSanitise(host, candidates[i], s).Success?
                && !IsValid(host, v, RunSanitise(host, candidates[i], s).value)
    ensures r.Failure? ==>
              && r.error == ResultNotString
              && exists i :: 0 <= i < |candidates| && RunSanitise(host, candidates[i], s).Failure?
  {
    if candidates == [] then Success(None)
    else
      match RunSanitise(host, candidates[0], s)
      case Failure(e) => Failure(e)
      case Success(candidate) =>
        if IsValid(host, v, candidate) then Success(Some(candidate))
        else
          var rest := TryRules(host, v, candidates[1..], s);
          assert forall i :: 0 <= i < |candidates| - 1 ==> candidates[1..][i] == candidates[i + 1];
          rest
  }

  /**
   * `sanitise`: an already valid string is returned unchanged and no
   * transform runs; otherwise the rules matching `s` are tried on `s`.
   */
  function Sanitise(host: Host, v: SanitisingValidator, s: string): (r: Result<Option<string>, RuleError>)
    ensures IsValid(host, v, s) ==> r == Success(Some(s))
    ensures r.Success? && r.value.Some? ==> IsValid(host, v, r.value.value)
  {
    if IsValid(host, v, s) then Success(Some(s))
    else TryRules(host, v, MatchingRules(host, v.rules, s), s)
  }

  /**
   * A repaired string is the output of a rule that matches the original
   * string, run on the original string.
   */
  lemma SanitiseFixComesFromMatchingRule(host: Host, v: SanitisingValidator, s: string, t: string)
    requires !IsValid(host, v, s)
    requires Sanitise(host, v, s) == Success(Some(t))
    ensures exists rule :: rule in v.rules && Matches(host, rule, s) && RunSanitise(host, rule, s) == Success(t)
  {
    var candidates := MatchingRules(host, v.rules, s);
    var i :| 0 <= i < |candidates| && RunSanitise(host, candidates[i], s) == Success(t);
    MatchingRulesMembers(host, v.rules, s);
    assert candidates[i] in candidates;
  }

  /**
   * No repair is found exactly when the string is invalid and every rule
   * matching it produces a string that is still invalid.
   */
  lemma SanitiseNoFix(host: Host, v: SanitisingValidator, s: string)
    ensures Sanitise(host, v, s) == Success(None) <==>
              && !IsValid(host, v, s)
              && forall rule :: rule in v.rules && Matches(host, rule, s) ==>
                   RunSanitise(host, rule, s).Success? && !IsValid(host, v, RunSanitise(host, rule, s).value)
  {
    var candidates := MatchingRules(host, v.rules, s);
    MatchingRulesMembers(host, v.rules, s);
    if !IsValid(host, v, s) {
      if Sanitise(host, v, s) == Success(None) {
        forall rule | rule in v.rules && Matches(host, rule, s)
          ensures RunSanitise(host, rule, s).Success? && !IsValid(host, v, RunSanitise(host, rule, s).value)
        {
          assert rule in candidates;
          var i :| 0 <= i < |candidates| && candidates[i] == rule;
        }
      }
    }
  }

  /** With no matching rule (an empty rule set, say), an invalid string has no repair. */
  lemma SanitiseNoMatchingRule(host: Host, v: SanitisingValidator, s: string)
    requires !IsValid(host, v, s)
    requires forall i :: 0 <= i < |v.rules| ==> !Matches(host, v.rules[i], s)
    ensures Sanitise(host, v, s) == Success(None)
  {
    MatchingRulesExtremes(host, v.rules, s);
  }

  /** The strings `isValid` accepts are exactly those `sanitise` returns unchanged. */
  lemma IsValidIffUnchanged(host: Host, v: SanitisingValidator, s: string)
    ensures IsValid(host, v, s) <==> Sanitise(host, v, s) == Success(Some(s))
  {
  }

  /**
   * One rule, matching the invalid input "aa22dd" and returning "abbbbbC",
   * which the main pattern accepts: the repair is "abbbbbC".
   */
  lemma OneRuleRepairs(host: Host, v: SanitisingValidator)
    requires |v.rules| == 1
    requires !IsValid(host, v, "aa22dd") && Matches(host, v.rules[0], "aa22dd")
    requires host.call(v.rules[0].sanitiseFx, "aa22dd") == Str("abbbbbC")
    requires IsValid(host, v, "abbbbbC")
    ensures Sanitise(host, v, "aa22dd") == Success(Some("abbbbbC"))
  {
    MatchingRulesExtremes(host, v.rules, "aa22dd");
    assert MatchingRules(host, v.rules, "aa22dd") == v.rules;
    assert v.rules[1..] == [];
  }

  /**
   * One rule, matching the invalid input "aa00gg" and returning
   * "notValidated", which the main pattern rejects: no repair.
   */
  lemma OneRuleCannotRepair(host: Host, v: SanitisingValidator)
    requires |v.rules| == 1
    requires !IsValid(host, v, "aa00gg") && Matches(host, v.rules[0], "aa00gg")
    requires host.call(v.rules[0].sanitiseFx, "aa00gg") == Str("notValidated")
    requires !IsValid(host, v, "notValidated")
    ensures Sanitise(host, v, "aa00gg") == Success(None)
  {
    MatchingRulesExtremes(host, v.rules, "aa00gg");
    assert MatchingRules(host, v.rules, "aa00gg") == v.rules;
    assert v.rules[1..] == [];
  }
}
