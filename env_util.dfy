/**
 * `EnvUtil.getEnv`: a configuration lookup over the process environment,
 * passed in as a map. A value counts as present when it has a character
 * other than white space (JavaScript's `trim` set); a present value is
 * returned as it is, untrimmed.
 */
module EnvUtil {
  import opened Wrappers

  /** The characters `String.prototype.trim` removes: white space and line terminators. */
  predicate IsJsWhitespace(c: char) {
    c == '\t' || c == '\n' || c == '\U{B}' || c == '\U{C}' || c == '\r' || c == ' '
    || c == '\U{A0}' || c == '\U{1680}' || ('\U{2000}' <= c <= '\U{200A}')
    || c == '\U{2028}' || c == '\U{2029}' || c == '\U{202F}' || c == '\U{205F}'
    || c == '\U{3000}' || c == '\U{FEFF}'
  }

  /** `s` has a character that is not white space. */
  predicate HasContent(s: string) {
    exists k :: 0 <= k < |s| && !IsJsWhitespace(s[k])
  }

  /** `s` without its leading white space. */
  function TrimStart(s: string): (r: string)
    ensures |r| <= |s| && r == s[|s| - |r|..]
    ensures |r| > 0 ==> !IsJsWhitespace(r[0])
    ensures forall k :: 0 <= k < |s| - |r| ==> IsJsWhitespace(s[k])
  {
    if |s| > 0 && IsJsWhitespace(s[0]) then TrimStart(s[1..]) else s
  }

  /** `s` without its trailing white space. */
  function TrimEnd(s: string): (r: string)
    ensures |r| <= |s| && r == s[..|r|]
    ensures |r| > 0 ==> !IsJsWhitespace(r[|r| - 1])
    ensures forall k :: |r| <= k < |s| ==> IsJsWhitespace(s[k])
  {
    if |s| > 0 && IsJsWhitespace(s[|s| - 1]) then TrimEnd(s[..|s| - 1]) else s
  }

  /** `s.trim()` */
  function Trim(s: string): string {
    TrimEnd(TrimStart(s))
  }

  /** Trimming leaves something exactly when the text has a character other than white space. */
  lemma TrimEmptyIffBlank(s: string)
    ensures |Trim(s)| > 0 <==> HasContent(s)
  {
    var t := TrimStart(s);
    if HasContent(s) {
      var k :| 0 <= k < |s| && !IsJsWhitespace(s[k]);
      assert |t| > 0;
    }
    if |Trim(s)| > 0 {
      assert !IsJsWhitespace(t[0]);
      assert s[|s| - |t|] == t[0];
    }
  }

  function RequiredMessage(key: string): string {
    "Not found env for key \"" + key + "\""
  }

  function MissingMessage(key: string): string {
    "Not found value or default value for key \"" + key + "\""
  }

  /**
   * `getEnv(key, isRequired, defaultValue)`: a present value wins, untrimmed;
   * an absent one is an error when required, even with a default; otherwise
   * a non-empty default is returned, and with an empty default it is an
   * error. An empty string is never returned.
   */
  function GetEnv(env: map<string, string>, key: string, isRequired: bool, defaultValue: string): (r: Result<string, string>)
    ensures key in env && HasContent(env[key]) ==> r == Success(env[key])
    ensures !(key in env && HasContent(env[key])) && isRequired ==> r == Failure(RequiredMessage(key))
    ensures !(key in env && HasContent(env[key])) && !isRequired ==>
      r == if defaultValue != "" then Success(defaultValue) else Failure(MissingMessage(key))
    ensures r.Success? ==> r.value != ""
  {
    var value := if key in env then Some(env[key]) else None;
    TrimEmptyIffBlank(value.GetOr(""));
    if value.Some? && value.value != "" && |Trim(value.value)| > 0 then Success(value.value)
    else if isRequired then Failure(RequiredMessage(key))
    else if defaultValue != "" then Success(defaultValue)
    else Failure(MissingMessage(key))
  }
}
