/**
 * The pieces of `resolveTrackerVariable` that do not depend on the draft: what the host
 * platform reports, script variables, the custom-event property lookup, the route of a
 * navigation history, and the decimal text of the view duration.
 */
module Variables {
  import opened Common
  import opened JsText
  import opened Schemas

  /**
   * What the host platform answers: `DeviceInfo`, `AppState.currentState` (`None` when
   * null) and `eval` of a script (`None` when it throws or yields null or undefined).
   */
  datatype Host = Host(
    deviceId: string,
    deviceName: string,
    ipAddress: string,
    currentAppState: Option<string>,
    evaluate: string -> Option<string>)

  /** `resolveJavascriptVariable`: the script's value, or "" when it fails or the option holds no script. */
  function ScriptValue(option: VariableOption, host: Host): string {
    match option
    case Script(code) => (match host.evaluate(code) case Some(v) => v case None => "")
    case _ => ""
  }

  /** `x || ""` for a string that may be null or undefined. */
  function OrEmpty(s: Option<string>): string {
    match s
    case Some(v) => v
    case None => ""
  }

  // ---------------------------------------------------------------- customEventProperty

  /** The payload is present, the option names a non-empty property, and the payload owns it. */
  predicate Owns(custom: Option<map<string, string>>, option: VariableOption) {
    custom.Some? && option.Property? && |option.property| > 0 && option.property in custom.value
  }

  /** The `customEventProperty` branch of `resolveTrackerVariable`. */
  function CustomProperty(custom: Option<map<string, string>>, option: VariableOption): string {
    if Owns(custom, option) then custom.value[option.property] else ""
  }

  /** The lookup answers the payload's entry when it owns the property, and "" otherwise. */
  lemma CustomPropertyCases(custom: Option<map<string, string>>, option: VariableOption)
    ensures custom.None? ==> CustomProperty(custom, option) == ""
    ensures !option.Property? || option.property == "" ==> CustomProperty(custom, option) == ""
    ensures custom.Some? && option.Property? && option.property != "" ==>
      CustomProperty(custom, option) == if option.property in custom.value then custom.value[option.property] else ""
  {
  }

  /** Entries of the payload other than the named property never matter. */
  lemma CustomPropertyIgnoresOtherKeys(payload: map<string, string>, key: string, value: string, option: VariableOption)
    requires !option.Property? || key != option.property
    ensures CustomProperty(Some(payload[key := value]), option) == CustomProperty(Some(payload), option)
  {
  }

  // ---------------------------------------------------------------- route

  /**
   * `resolveRouteVariable` of the older draft over the keys of the navigation history
   * (`None` when the firing carries no history array): the last key up to its first `-`.
   * An empty history array makes `history[history.length - 1].key` throw.
   */
  function RouteOf(history: Option<seq<string>>): Result<string> {
    match history
    case None => Ok("")
    case Some(keys) => if |keys| == 0 then Thrown else Ok(Before(keys[|keys| - 1], '-'))
  }

  /**
   * Without a history the route is ""; with one, it is the prefix of the last key before
   * its first `-`, which contains no `-` and is the whole key when the key has none.
   */
  lemma RouteOfShape(history: Option<seq<string>>)
    ensures history.None? ==> RouteOf(history) == Ok("")
    ensures history == Some([]) ==> RouteOf(history).Thrown?
    ensures history.Some? && |history.value| > 0 ==>
      var key := history.value[|history.value| - 1];
      var r := RouteOf(history);
      r.Ok? && StartsWith(key, r.value) && '-' !in r.value &&
      (|r.value| < |key| ==> key[|r.value|] == '-') &&
      ('-' !in key ==> r.value == key)
  {
    if history.Some? && |history.value| > 0 {
      var key := history.value[|history.value| - 1];
      if '-' !in key {
        BeforeWithoutSeparator(key, '-');
      }
    }
  }

  /** A navigation key `name-suffix`, with no `-` in the name, gives back the route name. */
  lemma {:induction false} RouteOfKey(earlier: seq<string>, name: string, suffix: string)
    requires '-' !in name
    ensures RouteOf(Some(earlier + [name + "-" + suffix])) == Ok(name)
    decreases |name|
  {
    var keys := earlier + [name + "-" + suffix];
    assert keys[|keys| - 1] == name + ("-" + suffix);
    BeforeKeepsPrefix(name, "-" + suffix, '-');
    assert Before("-" + suffix, '-') == [];
  }

  /** Cutting `p + t` at a separator absent from `p` keeps `p` and cuts `t`. */
  lemma {:induction false} BeforeKeepsPrefix(p: string, t: string, sep: char)
    requires sep !in p
    ensures Before(p + t, sep) == p + Before(t, sep)
    decreases |p|
  {
    if |p| > 0 {
      assert (p + t)[0] == p[0] && (p + t)[1..] == p[1..] + t;
      BeforeKeepsPrefix(p[1..], t, sep);
      assert [p[0]] + p[1..] == p;
    } else {
      assert p + t == t;
    }
  }

  // ---------------------------------------------------------------- viewDuration

  predicate IsDigit(c: char) {
    '0' <= c <= '9'
  }

  function DigitChar(d: nat): char
    requires d < 10
  {
    ('0' as int + d) as char
  }

  /** The decimal text JavaScript gives a non-negative integer. */
  function Decimal(n: nat): string
    decreases n
  {
    if n < 10 then [DigitChar(n)] else Decimal(n / 10) + [DigitChar(n % 10)]
  }

  /** The number a string of decimal digits denotes. */
  function DigitsValue(s: string): nat
    requires forall i :: 0 <= i < |s| ==> IsDigit(s[i])
    decreases |s|
  {
    if |s| == 0 then 0
    else
      assert IsDigit(s[|s| - 1]);
      DigitsValue(s[..|s| - 1]) * 10 + (s[|s| - 1] as int - '0' as int)
  }

  /** The decimal text is a non-empty string of digits, without a leading zero, that reads back as the number. */
  lemma {:induction false} DecimalRoundTrip(n: nat)
    ensures |Decimal(n)| > 0 && forall i :: 0 <= i < |Decimal(n)| ==> IsDigit(Decimal(n)[i])
    ensures Decimal(n)[0] == '0' ==> n == 0
    ensures DigitsValue(Decimal(n)) == n
    decreases n
  {
    if n >= 10 {
      DecimalRoundTrip(n / 10);
      var s := Decimal(n / 10) + [DigitChar(n % 10)];
      assert s[..|s| - 1] == Decimal(n / 10);
    }
  }

  /** Different durations give different texts. */
  lemma DecimalInjective(m: nat, n: nat)
    requires Decimal(m) == Decimal(n)
    ensures m == n
  {
    DecimalRoundTrip(m);
    DecimalRoundTrip(n);
  }
}
