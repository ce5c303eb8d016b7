# iq-validator, modelled in Dafny

iq-validator repairs strings that fail a main regular expression. Each
sanitisation rule is declared as `{regex, regexFlags?, sanitiseFunction}`.
`SanitiseRule` checks a declaration's shape and compiles its pattern.
`SanitiseRules` holds the rules in declaration order and picks out those
that match a string. The validator returns a valid string unchanged. For an
invalid string it runs the matching rules on that string until one output
passes the main pattern, or returns `null`.

This project models:

- `src/SanitiseRule.js` as module `SingleRule` (`sanitise_rule.dfy`). The
  declaration is a dynamic JavaScript value, so the order of the
  `typeof`/`hasOwnProperty` checks is stated exactly. A rule is an immutable
  datatype holding the compiled pattern and the transform.
- `src/SanitiseRules.js` as module `RuleSet` (`sanitise_rules.dfy`). Class
  `SanitiseRules` holds the rules. `validateConfig` and `getMatchingRules`
  are loops, proved equal to the recursive functions `BuildRules` and
  `MatchingRules`. Lemmas state the properties of those functions.
- `src/sanitiserConfig.js` as module `CursorConfig`
  (`sanitiser_config.dfy`). It has the second shape check and class
  `SanitiserConfig`, whose `Next` advances the `cfgIdx` field.
- `src/iqValidator.js` as module `Validator` (`iq_validator.dfy`): the
  `validOrDefault` coercion, the constructor and the stub `sanitise`.
- The complete validator used by `test/iqValidator.spec.js`, as module
  `Sanitiser` (`sanitiser.dfy`). Its source file, `src/IqValidator.js`, is
  not part of this model. `Sanitise` is built from `MatchingRules` and
  `RunSanitise`. It returns `Result<Option<string>, RuleError>`: `None` is
  the `null` "no repair" result, so it differs from a repair to `""`, and
  `Failure` is an exception thrown by a transform.

Shared modules:

- `JsValues` (`js_value.dfy`) holds the value type, `typeof`, truthiness,
  `Array.isArray`, `hasOwnProperty` and property reads.
- `Runtime` (`runtime.dfy`) holds the host primitives.
- `Errors` (`rule_error.dfy`) has one error per thrown message.
- `Wrappers` (`wrappers.dfy`) has `Option`, `Result` and `Outcome`.

The JavaScript engine's own behaviour is a parameter of type
`Runtime.Host`, which has three parts:

- whether `new RegExp(source, flags)` throws, and its message;
- `RegExp.prototype.test`;
- the result of calling a user-supplied function value on a string.

Every property below therefore holds for any regular-expression engine, and
for any transform that returns a value without throwing and whose result
depends only on its string argument.

Behaviour of the code that the model keeps as written:

- A rule's `regex` may be the empty string: `validateRule` only asks for a
  string.
- The `SanitiseRule` constructor only wraps what it is given. The stub
  validator in `src/iqValidator.js` checks neither its main rule nor its
  configuration. It coerces a non-string main rule to `''` and always
  stores `[]` as its configuration, because `typeof` never yields
  `'Array'`.
- `matches` calls `RegExp.prototype.test`, which is stateful under the `g`
  flag (see Left out).

## Model

| member | source | states |
|---|---|---|
| `SingleRule.ValidateRule` | src/SanitiseRule.js:21-31 | Passes exactly the well-formed declarations (an object with a string `regex`, a function `sanitiseFunction` and, if present, a string `regexFlags`). Each failure is characterised by the declaration's structure, so the first failing check decides the message. A non-object and `null` are rejected before any field check. `{}` fails for a missing `regex`, and so does every array the model can represent, since its arrays carry no named properties. |
| `SingleRule.NewSanitiseRule` | src/SanitiseRule.js:57-67 | A shape error is returned without compiling anything. For a well-formed declaration, construction fails exactly when the RegExp constructor rejects the declared source and flags, with the engine's message. On success the rule holds the declared pattern (no flags when `regexFlags` is absent) and the declared function. |
| `SingleRule.MatchesDeclaredPattern` | src/SanitiseRule.js:77-79 | A rule built from a declaration matches a string exactly when the declared pattern, with the declared flags, tests true on it. |
| `SingleRule.RunSanitise` | src/SanitiseRule.js:91-95 | Succeeds exactly when the transform returns a string, and then returns that string unchanged. Otherwise it fails with "sanitise function must return a string". |
| `SingleRule.ValidateRuleExamples` | test/SanitiseRule.spec.js:6-35 | The declarations in the constructor tests get the expected errors, in check order. A declaration without `regexFlags` passes. |
| `SingleRule.NewSanitiseRuleExamples` | test/SanitiseRule.spec.js:22-35 | A non-string `regexFlags` is reported before compilation. Flags the engine rejects abort construction with the engine's error. A valid declaration without flags builds a rule with empty flags. |
| `SingleRule.RunSanitiseExamples` | test/SanitiseRule.spec.js:58-74 | A transform appending "xx" turns "zz" into "zzxx". A transform returning `undefined` makes `runSanitise` fail. |
| `RuleSet.BuildAllSucceeds` | src/SanitiseRules.js:16-20 | Building succeeds exactly when every declaration builds. It then yields one rule per declaration, in order, each the rule built from the declaration at the same position. |
| `RuleSet.BuildAllFirstFailure` | src/SanitiseRules.js:17-18 | A failed build fails with the error of the first declaration that does not build; every earlier declaration built. |
| `RuleSet.ValidateConfig` | src/SanitiseRules.js:14-21 | The loop returns exactly `BuildRules`: "argument 'cfg' must be an Array" for a non-array, otherwise the all-or-nothing build above. |
| `RuleSet.SanitiseRules.constructor` | src/SanitiseRules.js:43-48 | Stores the built rules as `cfg`. |
| `RuleSet.NewSanitiseRules` | src/SanitiseRules.js:43-48 | Construction fails exactly when `BuildRules` fails, with its error, and then no instance exists. Otherwise it gives a new instance whose `cfg` is the built rule sequence. |
| `RuleSet.SanitiseRules.GetMatchingRules` | src/SanitiseRules.js:59-67 | The loop returns exactly `MatchingRules` of `cfg` and modifies nothing, so `cfg` is unchanged. |
| `RuleSet.MatchingRulesMembers` | src/SanitiseRules.js:59-67 | A rule is in the result exactly when it is one of the rules and matches the string. |
| `RuleSet.MatchingRulesInOrder` | src/SanitiseRules.js:60-66 | The result is a subsequence of the rules in declaration order, and holds at most as many rules. |
| `RuleSet.MatchingRulesMultiplicity` | src/SanitiseRules.js:61-65 | Each rule occurs in the result as many times as among the rules when it matches the string, and not at all otherwise. |
| `RuleSet.MatchingRulesExtremes` | test/SanitiseRules.spec.js:36-43 | The result is empty exactly when no rule matches, and it is every rule when every rule matches. |
| `CursorConfig.ValidateSanitiseRule` | src/sanitiserConfig.js:3-12 | Passes exactly the well-formed declarations. It fails with "all config rules must be valid objects" exactly for non-objects, and with the `hasOwnProperty` TypeError exactly for `null`. |
| `CursorConfig.ValidateSanitiseRuleAgrees` | src/sanitiserConfig.js:4-11 | Agrees with `validateRule` on every value except the rejection of non-objects. A non-object gets this file's own message. `null` fails with a TypeError here, but as "not a valid object" in `validateRule`. |
| `CursorConfig.CheckAllFirstFailure` | src/sanitiserConfig.js:16-18 | The elements pass exactly when all are well-formed declarations. Otherwise the error is that of the first element that is not, with every earlier one well-formed. |
| `CursorConfig.BuiltConfigPasses` | src/sanitiserConfig.js:14-19 | Every configuration the rule set can be built from also passes this draft's check. |
| `CursorConfig.ValidateConfig` | src/sanitiserConfig.js:14-19 | The loop returns exactly `CheckConfig`: the array error for a non-array, otherwise the first element's error in array order. |
| `CursorConfig.SanitiserConfig.constructor` | src/sanitiserConfig.js:38-42 | Keeps the accepted array as given and sets the cursor to -1. |
| `CursorConfig.NewSanitiserConfig` | src/sanitiserConfig.js:38-42 | Fails exactly when `validateConfig` fails, with its error. Otherwise it gives a new instance holding `cfg` as given, with the cursor at -1. |
| `CursorConfig.SanitiserConfig.Next` | src/sanitiserConfig.js:50-56 | Advances `cfgIdx` by exactly 1. It returns `cfg[cfgIdx]` while that is in range and `false` once past the end. The cursor only grows, so later calls return `false` too. |
| `CursorConfig.WalkTwoRules` | test/sanitiserConfig.spec.js:47-66 | On a two-declaration configuration, `next()` returns the first declaration, then the second, then `false` on every later call. |
| `Validator.ValidOrDefault` | src/iqValidator.js:1-6 | Returns the value when its `typeof` tag is the given tag, and the default otherwise. |
| `Validator.ArrayTagAlwaysDefaults` | src/iqValidator.js:11 | Coercing with the tag 'Array' always yields the default, arrays included. |
| `Validator.NewIqValidator` | src/iqValidator.js:9-12 | `mainRule` keeps a string argument and becomes `''` otherwise. `config` is always `[]`. |
| `Validator.StubSanitise` | src/iqValidator.js:14-20 | Returns a string argument unchanged and `''` for any other argument, `undefined` included. |
| `Validator.StubSanitiseIgnoresValidator` | src/iqValidator.js:16-19 | The stub's result does not depend on `mainRule`. |
| `Sanitiser.NewSanitisingValidator` | test/iqValidator.spec.js:5-43 | Construction fails exactly when the rule set cannot be built, with its error. Otherwise it keeps the main pattern and one rule per declaration, in order: the rule at each position is the rule built from the declaration at that position. |
| `Sanitiser.TryRules` | test/iqValidator.spec.js:83-97 | A repair is valid and is the output of one of the candidate rules run on the original string. The result is `null` exactly when every candidate returns a string that is still invalid. A failure means some candidate returned a non-string. |
| `Sanitiser.Sanitise` | test/iqValidator.spec.js:78-82 | A valid input is returned unchanged. Any repair returned passes the main pattern. |
| `Sanitiser.SanitiseFixComesFromMatchingRule` | test/iqValidator.spec.js:83-87 | A repair of an invalid string is the output of a rule that matches the original string, run on the original string. |
| `Sanitiser.SanitiseNoFix` | test/iqValidator.spec.js:88-97 | The result is `null` exactly when the input is invalid and every matching rule returns a string that is still invalid. |
| `Sanitiser.SanitiseNoMatchingRule` | test/iqValidator.spec.js:88-92 | An invalid input that no rule matches gets `null`, for an empty rule set too. |
| `Sanitiser.IsValidIffUnchanged` | test/iqValidator.spec.js:100-111 | `isValid` accepts exactly the strings that `sanitise` returns unchanged. |
| `Sanitiser.OneRuleRepairs` | test/iqValidator.spec.js:83-87 | One rule that matches "aa22dd" and returns the valid "abbbbbC" repairs "aa22dd" to "abbbbbC". |
| `Sanitiser.OneRuleCannotRepair` | test/iqValidator.spec.js:93-97 | One rule that matches "aa00gg" and returns the invalid "notValidated" gives `null`. |

`Matches` and `IsValid` are each a single call to the host's `test` and
carry no contract. The rows for `MatchesDeclaredPattern` and
`IsValidIffUnchanged` state their properties.

## Left out

- The regular-expression engine: compiling and testing are parameters of
  `Runtime.Host`, not modelled.
- `SingleRule.MatchesDeclaredPattern`: `matches` is a pure predicate here.
  With the `g` flag, `RegExp.prototype.test` advances the pattern's
  `lastIndex`. In JavaScript, repeated `matches` calls on the same rule can
  then differ. The model does not capture that state.
- The transforms' bodies: a function value is an identity, and the host
  gives the value it returns for a string. A transform that throws is not
  modelled; in JavaScript its exception would abort `runSanitise` and
  `sanitise`. Neither is a transform whose result depends on state or on
  `this`.
- Node's `assert` module and the error classes (`AssertionError`,
  `TypeError`, `SyntaxError`): a thrown error is a `Failure` or `Fail`
  carrying a `RuleError`. `RuleError.Message` gives its text. The
  SyntaxError's message comes from the host's `compileError`. The
  TypeError's text is fixed to V8's message; other engines word it
  differently.
- JavaScript numbers are integers here. The library only asks their
  `typeof` and truthiness, so `NaN` and fractions are not represented.
- `hasOwnProperty` is modelled only for the three rule field names.
- The model's arrays are dense and carry no named properties. An array
  given `regex` and `sanitiseFunction` properties, which `validateRule`
  accepts and the constructor builds into a rule, is not represented.
  Neither are arrays with holes. `forEach` skips holes, so in JavaScript
  `[ , decl]` builds one rule from two slots and passes the cursor check,
  and `next()` then returns `false` on the hole.
- `CursorConfig.SanitiserConfig.Next`: the configuration is treated as
  unchanged after construction. In JavaScript the constructor keeps a
  reference to the caller's array. If the caller later changes it, `next()`
  sees the change: it may return `false` early at a falsy element, or an
  element that was never checked. The shared array is not modelled.
- `Validator.StubSanitise`: the optional argument is modelled by passing
  `undefined`. The same holds for both constructor arguments of
  `Validator.NewIqValidator`.
- The test-described validator's argument checks (`'mainRegex'` and
  `'str'` errors in test/iqValidator.spec.js:59-77): no source for them is
  available. `Sanitise` takes a string, and the main pattern is an
  already-compiled `RegExp`.
- `Sanitiser.Sanitise`: when several matching rules would each give a valid
  result, the model takes the first matching rule, in declaration order,
  whose output passes the main pattern. No test pins that choice, so no
  lemma states it.
- The constructor-error expectations in test/index.js:15-27 do not hold for
  `src/iqValidator.js` as written, so they are not modelled.
