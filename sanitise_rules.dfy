/**
 * The ordered rule set (src/SanitiseRules.js): all-or-nothing construction
 * of one rule per declaration, and the order-preserving filter
 * `getMatchingRules`.
 */
module RuleSet {
  import opened Wrappers
  import opened JsValues
  import opened Runtime
  import opened Errors
  import opened SingleRule

  /**
   * The rules built from `decls`, in order, or the error of the first
   * declaration that fails to build. Defined on prefixes, the way the
   * `forEach` loop grows its array.
   */
  function BuildAll(host: Host, decls: seq<JsValue>): (r: Result<seq<SanitiseRule>, RuleError>)
  {
    if decls == [] then Success([])
    else
      match BuildAll(host, decls[..|decls| - 1])
      case Failure(e) => Failure(e)
      case Success(rules) =>
        match NewSanitiseRule(host, decls[|decls| - 1])
        case Failure(e) => Failure(e)
        case Success(rule) => Success(rules + [rule])
  }

  /** What `validateConfig` returns or throws for the argument `cfg`. */
  function BuildRules(host: Host, cfg: JsValue): (r: Result<seq<SanitiseRule>, RuleError>)
  {
    if !IsArray(cfg) then Failure(CfgNotArray) else BuildAll(host, cfg.elems)
  }

  /**
   * Construction succeeds exactly when every declaration builds, and then
   * yields one rule per declaration, each the rule built from the
   * declaration at the same position.
   */
  lemma {:induction false} BuildAllSucceeds(host: Host, decls: seq<JsValue>)
    ensures BuildAll(host, decls).Success? <==>
              forall i :: 0 <= i < |decls| ==> NewSanitiseRule(host, decls[i]).Success?
    ensures BuildAll(host, decls).Success? ==>
              && |BuildAll(host, decls).value| == |decls|
              && forall i :: 0 <= i < |decls| ==>
                   NewSanitiseRule(host, decls[i]) == Success(BuildAll(host, decls).value[i])
  {
    if decls != [] {
      var prefix := decls[..|decls| - 1];
      BuildAllSucceeds(host, prefix);
      assert forall i :: 0 <= i < |prefix| ==> prefix[i] == decls[i];
    }
  }

  /**
   * When construction fails, it fails with the error of the first
   * declaration that does not build; every earlier one built.
   */
  lemma {:induction false} BuildAllFirstFailure(host: Host, decls: seq<JsValue>)
    requires BuildAll(host, decls).Failure?
    ensures exists k :: 0 <= k < |decls|
              && (forall j :: 0 <= j < k ==> NewSanitiseRule(host, decls[j]).Success?)
              && NewSanitiseRule(host, decls[k]) == Failure(BuildAll(host, decls).error)
  {
    var prefix := decls[..|decls| - 1];
    assert forall i :: 0 <= i < |prefix| ==> prefix[i] == decls[i];
    if BuildAll(host, prefix).Failure? {
      BuildAllFirstFailure(host, prefix);
      var k :| 0 <= k < |prefix|
              && (forall j :: 0 <= j < k ==> NewSanitiseRule(host, prefix[j]).Success?)
              && NewSanitiseRule(host, prefix[k]) == Failure(BuildAll(host, prefix).error);
      assert NewSanitiseRule(host, decls[k]) == Failure(BuildAll(host, decls).error);
    } else {
      BuildAllSucceeds(host, prefix);
      var k := |decls| - 1;
      assert NewSanitiseRule(host, decls[k]) == Failure(BuildAll(host, decls).error);
    }
  }

  /** A failure in a prefix is the failure of the whole sequence. */
  lemma {:induction false} BuildAllPrefixFailure(host: Host, decls: seq<JsValue>, k: nat)
    requires k <= |decls|
    requires BuildAll(host, decls[..k]).Failure?
    ensures BuildAll(host, decls) == BuildAll(host, decls[..k])
    decreases |decls| - k
  {
    if k < |decls| {
      assert decls[..k + 1][..k] == decls[..k];
      BuildAllPrefixFailure(host, decls, k + 1);
    } else {
      assert decls[..k] == decls;
    }
  }

  /**
   * `validateConfig`: rejects a non-array, then builds one rule per
   * declaration in a loop; the first declaration that fails aborts it.
   */
  method ValidateConfig(host: Host, cfg: JsValue) returns (r: Result<seq<SanitiseRule>, RuleError>)
    ensures r == BuildRules(host, cfg)
  {
    if !IsArray(cfg) {
      return Failure(CfgNotArray);
    }
    var decls := cfg.elems;
    var sanitiseRuleArray := [];
    var i := 0;
    while i < |decls|
      invariant 0 <= i <= |decls|
      invariant BuildAll(host, decls[..i]) == Success(sanitiseRuleArray)
    {
      assert decls[..i + 1][..i] == decls[..i];
      var rule := NewSanitiseRule(host, decls[i]);
      if rule.Failure? {
        BuildAllPrefixFailure(host, decls, i + 1);
        return Failure(rule.error);
      }
      sanitiseRuleArray := sanitiseRuleArray + [rule.value];
      i := i + 1;
    }
    assert decls[..i] == decls;
    return Success(sanitiseRuleArray);
  }

  /**
   * The rules among `rules` that match `s`, in their order. Defined on
   * prefixes, the way the `forEach` loop grows its array.
   */
  function MatchingRules(host: Host, rules: seq<SanitiseRule>, s: string): (matching: seq<SanitiseRule>)
  {
    if rules == [] then []
    else
      var last := rules[|rules| - 1];
      MatchingRules(host, rules[..|rules| - 1], s) + (if Matches(host, last, s) then [last] else [])
  }

  /** `sub` is `full` with some elements left out and the rest kept in order. */
  predicate IsSubsequence<T(==)>(sub: seq<T>, full: seq<T>)
    decreases |full|
  {
    if sub == [] then true
    else if full == [] then false
    else
      || (sub[|sub| - 1] == full[|full| - 1] && IsSubsequence(sub[..|sub| - 1], full[..|full| - 1]))
      || IsSubsequence(sub, full[..|full| - 1])
  }

  /** The matching rules are exactly the rules of the set that match `s`. */
  lemma {:induction false} MatchingRulesMembers(host: Host, rules: seq<SanitiseRule>, s: string)
    ensures forall rule :: rule in MatchingRules(host, rules, s) <==> rule in rules && Matches(host, rule, s)
  {
    if rules != [] {
      var prefix := rules[..|rules| - 1];
      MatchingRulesMembers(host, prefix, s);
      assert rules == prefix + [rules[|rules| - 1]];
    }
  }

  /**
   * The matching rules keep declaration order, and there are at most as
   * many as there are rules.
   */
  lemma {:induction false} MatchingRulesInOrder(host: Host, rules: seq<SanitiseRule>, s: string)
    ensures IsSubsequence(MatchingRules(host, rules, s), rules)
    ensures |MatchingRules(host, rules, s)| <= |rules|
  {
    if rules != [] {
      var prefix := rules[..|rules| - 1];
      var last := rules[|rules| - 1];
      var m := MatchingRules(host, prefix, s);
      MatchingRulesInOrder(host, prefix, s);
      if Matches(host, last, s) {
        assert (m + [last])[..|m + [last]| - 1] == m;
      } else {
        assert MatchingRules(host, rules, s) == m;
        if m != [] {
          assert IsSubsequence(m, rules[..|rules| - 1]);
        }
      }
    }
  }

  /**
   * Each rule occurs in the result as often as it occurs among the rules
   * when it matches, and not at all when it does not.
   */
  lemma {:induction false} MatchingRulesMultiplicity(host: Host, rules: seq<SanitiseRule>, s: string)
    ensures forall rule :: multiset(MatchingRules(host, rules, s))[rule] ==
              if Matches(host, rule, s) then multiset(rules)[rule] else 0
  {
    if rules != [] {
      var prefix := rules[..|rules| - 1];
      var last := rules[|rules| - 1];
      MatchingRulesMultiplicity(host, prefix, s);
      assert rules == prefix + [last];
      assert multiset(rules) == multiset(prefix) + multiset([last]);
      var kept := if Matches(host, last, s) then [last] else [];
      assert multiset(MatchingRules(host, rules, s)) == multiset(MatchingRules(host, prefix, s)) + multiset(kept);
    }
  }

  /** No rule is returned exactly when no rule matches; all are returned when all match. */
  lemma {:induction false} MatchingRulesExtremes(host: Host, rules: seq<SanitiseRule>, s: string)
    ensures MatchingRules(host, rules, s) == [] <==> forall i :: 0 <= i < |rules| ==> !Matches(host, rules[i], s)
    ensures (forall i :: 0 <= i < |rules| ==> Matches(host, rules[i], s)) ==> MatchingRules(host, rules, s) == rules
  {
    if rules != [] {
      var prefix := rules[..|rules| - 1];
      MatchingRulesExtremes(host, prefix, s);
      assert forall i :: 0 <= i < |prefix| ==> prefix[i] == rules[i];
      assert rules == prefix + [rules[|rules| - 1]];
    }
  }

  /** An instance of `SanitiseRules`: the rules, in declaration order. */
  class SanitiseRules {
    const cfg: seq<SanitiseRule>

    constructor (rules: seq<SanitiseRule>)
      ensures cfg == rules
    {
      cfg := rules;
    }

    /**
     * `getMatchingRules`: one pass over `cfg`, keeping each rule whose
     * pattern matches `s`. It changes nothing.
     */
    method GetMatchingRules(host: Host, s: string) returns (matchingRules: seq<SanitiseRule>)
      ensures matchingRules == MatchingRules(host, cfg, s)
    {
      matchingRules := [];
      var i := 0;
      while i < |cfg|
        invariant 0 <= i <= |cfg|
        invariant matchingRules == MatchingRules(host, cfg[..i], s)
      {
        assert cfg[..i + 1][..i] == cfg[..i];
        var rule := cfg[i];
        if Matches(host, rule, s) {
          matchingRules := matchingRules + [rule];
        }
        i := i + 1;
      }
      assert cfg[..i] == cfg;
    }
  }

  /**
   * The `SanitiseRules` constructor: either the whole rule set is built, or
   * construction throws and no instance exists.
   */
  method NewSanitiseRules(host: Host, cfg: JsValue) returns (r: Result<SanitiseRules, RuleError>)
    ensures r.Failure? <==> BuildRules(host, cfg).Failure?
    ensures r.Failure? ==> r.error == BuildRules(host, cfg).error
    ensures r.Success? ==> fresh(r.value) && r.value.cfg == BuildRules(host, cfg).value
  {
    var rules := ValidateConfig(host, cfg);
    match rules
    case Failure(e) =>
      r := Failure(e);
    case Success(built) =>
      var instance := new SanitiseRules(built);
      r := Success(instance);
  }
}
