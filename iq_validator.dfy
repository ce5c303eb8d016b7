/**
 * The validator as src/iqValidator.js defines it: argument coercion by
 * `validOrDefault`, and a `sanitise` that does not yet repair anything.
 */
module Validator {
  import opened JsValues

  /** `validOrDefault`: `value` when its `typeof` tag is `tag`, else `default`. */
  function ValidOrDefault(value: JsValue, tag: string, default: JsValue): (r: JsValue)
    ensures TypeOf(value) == tag ==> r == value
    ensures TypeOf(value) != tag ==> r == default
  {
    if TypeOf(value) != tag then default else value
  }

  /**
   * `typeof` never yields "Array", so coercing with that tag always gives
   * the default, whatever the value, arrays included.
   */
  lemma ArrayTagAlwaysDefaults(value: JsValue, default: JsValue)
    ensures ValidOrDefault(value, "Array", default) == default
  {
  }

  /** An instance of `IqValidator`: its two fields. */
  datatype IqValidator = IqValidator(mainRule: JsValue, config: JsValue)

  /**
   * The constructor. An argument passed as `undefined` takes its default
   * (`''` and `[]`) before coercion. `mainRule` becomes a string, `''` when
   * it was not one; `config` is always `[]`.
   */
  function NewIqValidator(mainRule: JsValue, config: JsValue): (r: IqValidator)
    ensures r.mainRule == (if mainRule.Str? then mainRule else Str(""))
    ensures r.config == Arr([])
  {
    var m := if mainRule.Undefined? then Str("") else mainRule;
    var c := if config.Undefined? then Arr([]) else config;
    IqValidator(ValidOrDefault(m, "string", Str("")), ValidOrDefault(c, "Array", Arr([])))
  }

  /**
   * `sanitise` as written: a string argument comes back unchanged, and any
   * other argument (`undefined` included) comes back as `''`. Both branches
   * on `mainRule` return the same value.
   */
  function StubSanitise(validator: IqValidator, str: JsValue): (r: JsValue)
    ensures r.Str?
    ensures str.Str? ==> r == str
    ensures !str.Str? ==> r == Str("")
  {
    var localStr := ValidOrDefault(if str.Undefined? then Str("") else str, "string", Str(""));
    if validator.mainRule == Str("") then localStr else localStr
  }

  /** The stub's result does not depend on the validator it is called on. */
  lemma StubSanitiseIgnoresValidator(v1: IqValidator, v2: IqValidator, str: JsValue)
    ensures StubSanitise(v1, str) == StubSanitise(v2, str)
  {
  }
}
