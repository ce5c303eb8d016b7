/**
 * The primitives the library calls but does not define: the `RegExp`
 * constructor and its `test` method, and the user-supplied transform
 * functions. They are parameters of the model, so every property proved
 * holds whatever regular-expression engine and whatever transforms are used.
 */
module Runtime {
  import opened Wrappers
  import opened JsValues

  /** A compiled regular expression: its source text and its flags. */
  datatype RegExp = RegExp(source: string, flags: string)

  /**
   * The host's behaviour:
   * - `compileError(source, flags)` is `None` when `new RegExp(source, flags)`
   *   succeeds and `Some(message)` when it throws a `SyntaxError`;
   * - `test(re, s)` is `re.test(s)`;
   * - `call(id, s)` is the value returned by the function value `Fn(id)`
   *   when called with the single argument `s`.
   */
  datatype Host = Host(
    compileError: (string, string) -> Option<string>,
    test: (RegExp, string) -> bool,
    call: (nat, string) -> JsValue)
}
