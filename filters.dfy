/**
 * The filter evaluator shared, character for character, by both drafts of the tracker:
 * `calculateFilter` (one filter, a closed switch over 24 operators) and `validate`
 * (the filters of a trigger, ANDed).
 */
module Filters {
  import opened Common
  import opened JsText

  datatype Operator =
    | IsEquals | IsEqualsIgnoreCase | NotEquals | NotEqualsIgnoreCase
    | IsContains | IsContainsIgnoreCase | NotContains | NotContainsIgnoreCase
    | IsStartsWith | IsStartsWithIgnoreCase | NotStartsWith | NotStartsWithIgnoreCase
    | IsEndsWith | IsEndsWithIgnoreCase | NotEndsWith | NotEndsWithIgnoreCase
    | IsRegexMatch | IsRegexMatchIgnoreCase | NotRegexMatch | NotRegexMatchIgnoreCase
    | LessThan | LessThanOrEquals | GreaterThan | GreaterThanOrEquals
    | Unrecognised(text: string)  // any other operator text; configurations are read through `OperatorOf`

  /** A filter of a trigger: a variable name, an operator and a literal. */
  datatype Filter = Filter(left: string, op: Operator, right: string)

  /**
   * What the JavaScript runtime contributes and the model does not interpret:
   * `regexTest(pattern, subject)` is `new RegExp(pattern, "g").exec(subject) != null`,
   * `None` when the pattern does not compile; `parseFloat` is `Number.parseFloat`,
   * `None` for NaN.
   */
  datatype Runtime = Runtime(regexTest: (string, string) -> Option<bool>, parseFloat: string -> Option<real>)

  /** The operator's text in a tracker configuration. */
  function NameOf(op: Operator): string {
    match op
    case IsEquals => "isEquals"
    case IsEqualsIgnoreCase => "isEqualsIgnoreCase"
    case NotEquals => "notEquals"
    case NotEqualsIgnoreCase => "notEqualsIgnoreCase"
    case IsContains => "isContains"
    case IsContainsIgnoreCase => "isContainsIgnoreCase"
    case NotContains => "notContains"
    case NotContainsIgnoreCase => "notContainsIgnoreCase"
    case IsStartsWith => "isStartsWith"
    case IsStartsWithIgnoreCase => "isStartsWithIgnoreCase"
    case NotStartsWith => "notStartsWith"
    case NotStartsWithIgnoreCase => "notStartsWithIgnoreCase"
    case IsEndsWith => "isEndsWith"
    case IsEndsWithIgnoreCase => "isEndsWithIgnoreCase"
    case NotEndsWith => "notEndsWith"
    case NotEndsWithIgnoreCase => "notEndsWithIgnoreCase"
    case IsRegexMatch => "isRegexMatch"
    case IsRegexMatchIgnoreCase => "isRegexMatchIgnoreCase"
    case NotRegexMatch => "notRegexMatch"
    case NotRegexMatchIgnoreCase => "notRegexMatchIgnoreCase"
    case LessThan => "lessThan"
    case LessThanOrEquals => "lessThanOrEquals"
    case GreaterThan => "greaterThan"
    case GreaterThanOrEquals => "greaterThanOrEquals"
    case Unrecognised(text) => text
  }

  /** The switch of `calculateFilter` reads an operator text as one of the 24 cases or as none of them. */
  function OperatorOf(name: string): (op: Operator)
    ensures NameOf(op) == name
  {
    match name
    case "isEquals" => IsEquals
    case "isEqualsIgnoreCase" => IsEqualsIgnoreCase
    case "notEquals" => NotEquals
    case "notEqualsIgnoreCase" => NotEqualsIgnoreCase
    case "isContains" => IsContains
    case "isContainsIgnoreCase" => IsContainsIgnoreCase
    case "notContains" => NotContains
    case "notContainsIgnoreCase" => NotContainsIgnoreCase
    case "isStartsWith" => IsStartsWith
    case "isStartsWithIgnoreCase" => IsStartsWithIgnoreCase
    case "notStartsWith" => NotStartsWith
    case "notStartsWithIgnoreCase" => NotStartsWithIgnoreCase
    case "isEndsWith" => IsEndsWith
    case "isEndsWithIgnoreCase" => IsEndsWithIgnoreCase
    case "notEndsWith" => NotEndsWith
    case "notEndsWithIgnoreCase" => NotEndsWithIgnoreCase
    case "isRegexMatch" => IsRegexMatch
    case "isRegexMatchIgnoreCase" => IsRegexMatchIgnoreCase
    case "notRegexMatch" => NotRegexMatch
    case "notRegexMatchIgnoreCase" => NotRegexMatchIgnoreCase
    case "lessThan" => LessThan
    case "lessThanOrEquals" => LessThanOrEquals
    case "greaterThan" => GreaterThan
    case "greaterThanOrEquals" => GreaterThanOrEquals
    case _ => Unrecognised(name)
  }

  /** Every one of the 24 operators is read back from its own text: no two share a text. */
  lemma OperatorNamesDistinct(op: Operator)
    requires !op.Unrecognised?
    ensures OperatorOf(NameOf(op)) == op
  {
  }

  function Negate(r: Result<bool>): Result<bool> {
    match r
    case Ok(b) => Ok(!b)
    case Thrown => Thrown
  }

  /** `new RegExp(pattern, "g").exec(subject)` found a match; a pattern that does not compile throws. */
  function RegexExec(rt: Runtime, pattern: string, subject: string): Result<bool> {
    match rt.regexTest(pattern, subject)
    case None => Thrown
    case Some(found) => Ok(found)
  }

  /** A comparison of two `parseFloat` results; NaN on either side makes it false. */
  function NumericCompare(op: Operator, a: Option<real>, b: Option<real>): bool
    requires op in {LessThan, LessThanOrEquals, GreaterThan, GreaterThanOrEquals}
  {
    if a.None? || b.None? then false
    else match op
      case LessThan => a.value < b.value
      case LessThanOrEquals => a.value <= b.value
      case GreaterThan => a.value > b.value
      case GreaterThanOrEquals => a.value >= b.value
  }

  /** One filter operator applied to a left value that is a string. */
  function Apply(op: Operator, left: string, right: string, rt: Runtime): Result<bool> {
    match op
    case IsEquals => Ok(left == right)
    case IsEqualsIgnoreCase => Ok(Lower(left) == Lower(right))
    case NotEquals => Ok(left != right)
    case NotEqualsIgnoreCase => Ok(Lower(left) != Lower(right))
    case IsContains => Ok(Includes(left, right))
    case IsContainsIgnoreCase => Ok(Includes(Lower(left), Lower(right)))
    case NotContains => Ok(!Includes(left, right))
    case NotContainsIgnoreCase => Ok(!Includes(Lower(left), Lower(right)))
    case IsStartsWith => Ok(StartsWith(left, right))
    case IsStartsWithIgnoreCase => Ok(StartsWith(Lower(left), Lower(right)))
    case NotStartsWith => Ok(!StartsWith(left, right))
    case NotStartsWithIgnoreCase => Ok(!StartsWith(Lower(left), Lower(right)))
    case IsEndsWith => Ok(EndsWith(left, right))
    case IsEndsWithIgnoreCase => Ok(EndsWith(Lower(left), Lower(right)))
    case NotEndsWith => Ok(!EndsWith(left, right))
    case NotEndsWithIgnoreCase => Ok(!EndsWith(Lower(left), Lower(right)))
    case LessThan | LessThanOrEquals | GreaterThan | GreaterThanOrEquals =>
      Ok(NumericCompare(op, rt.parseFloat(left), rt.parseFloat(right)))
    case IsRegexMatch => RegexExec(rt, right, left)
    case IsRegexMatchIgnoreCase => RegexExec(rt, right, Lower(left))
    case NotRegexMatch => Negate(RegexExec(rt, right, left))
    case NotRegexMatchIgnoreCase => Negate(RegexExec(rt, right, Lower(left)))
    case Unrecognised(_) => Ok(false)
  }

  /**
   * One filter operator applied when the left variable was not resolved, so that the
   * left value is `undefined`: loose equality with a string is false, a string method
   * called on it throws, `parseFloat` gives NaN, and `exec` reads it as the text "undefined".
   */
  function ApplyUndefined(op: Operator, right: string, rt: Runtime): Result<bool> {
    match op
    case IsEquals => Ok(false)
    case NotEquals => Ok(true)
    case LessThan | LessThanOrEquals | GreaterThan | GreaterThanOrEquals => Ok(false)
    case IsRegexMatch => RegexExec(rt, right, "undefined")
    case NotRegexMatch => Negate(RegexExec(rt, right, "undefined"))
    case Unrecognised(_) => Ok(false)
    case _ => Thrown
  }

  /** `calculateFilter(filter, variables)`. */
  function Calculate(f: Filter, vars: map<string, string>, rt: Runtime): Result<bool> {
    if f.left in vars then Apply(f.op, vars[f.left], f.right, rt)
    else ApplyUndefined(f.op, f.right, rt)
  }

  /** `filters.every(calculateFilter)`: stops at the first filter that fails or throws. */
  function Every(filters: seq<Filter>, vars: map<string, string>, rt: Runtime): Result<bool> {
    if |filters| == 0 then Ok(true)
    else match Calculate(filters[0], vars, rt)
      case Thrown => Thrown
      case Ok(false) => Ok(false)
      case Ok(true) => Every(filters[1..], vars, rt)
  }

  /** `validate(triggerSchema, variables)`. */
  function Validate(filters: seq<Filter>, vars: map<string, string>, rt: Runtime): Result<bool> {
    if |filters| == 0 then Ok(true) else Every(filters, vars, rt)
  }

  // ---------------------------------------------------------------- properties

  /** The "not" sibling of each positive string or regex operator. */
  function Negation(op: Operator): Option<Operator> {
    match op
    case IsEquals => Some(NotEquals)
    case IsEqualsIgnoreCase => Some(NotEqualsIgnoreCase)
    case IsContains => Some(NotContains)
    case IsContainsIgnoreCase => Some(NotContainsIgnoreCase)
    case IsStartsWith => Some(NotStartsWith)
    case IsStartsWithIgnoreCase => Some(NotStartsWithIgnoreCase)
    case IsEndsWith => Some(NotEndsWith)
    case IsEndsWithIgnoreCase => Some(NotEndsWithIgnoreCase)
    case IsRegexMatch => Some(NotRegexMatch)
    case IsRegexMatchIgnoreCase => Some(NotRegexMatchIgnoreCase)
    case _ => None
  }

  /** Each "not" operator returns exactly the negation of its positive sibling, and throws exactly when it throws. */
  lemma NegationPair(op: Operator, left: string, right: string, vars: map<string, string>, rt: Runtime)
    requires Negation(op).Some?
    ensures Calculate(Filter(left, Negation(op).value, right), vars, rt) == Negate(Calculate(Filter(left, op, right), vars, rt))
  {
  }

  /** The case-sensitive sibling of each IgnoreCase operator. */
  function CaseSensitive(op: Operator): Option<Operator> {
    match op
    case IsEqualsIgnoreCase => Some(IsEquals)
    case NotEqualsIgnoreCase => Some(NotEquals)
    case IsContainsIgnoreCase => Some(IsContains)
    case NotContainsIgnoreCase => Some(NotContains)
    case IsStartsWithIgnoreCase => Some(IsStartsWith)
    case NotStartsWithIgnoreCase => Some(NotStartsWith)
    case IsEndsWithIgnoreCase => Some(IsEndsWith)
    case NotEndsWithIgnoreCase => Some(NotEndsWith)
    case IsRegexMatchIgnoreCase => Some(IsRegexMatch)
    case NotRegexMatchIgnoreCase => Some(NotRegexMatch)
    case _ => None
  }

  predicate IsRegex(op: Operator) {
    op in {IsRegexMatch, IsRegexMatchIgnoreCase, NotRegexMatch, NotRegexMatchIgnoreCase}
  }

  /**
   * An IgnoreCase string operator is its plain sibling on both operands lowered; an
   * IgnoreCase regex operator lowers the subject only, never the pattern.
   */
  lemma IgnoreCaseIsLowered(op: Operator, left: string, right: string, rt: Runtime)
    requires CaseSensitive(op).Some?
    ensures !IsRegex(op) ==> Apply(op, left, right, rt) == Apply(CaseSensitive(op).value, Lower(left), Lower(right), rt)
    ensures IsRegex(op) ==> Apply(op, left, right, rt) == Apply(CaseSensitive(op).value, Lower(left), right, rt)
  {
  }

  /**
   * The result of an IgnoreCase string operator does not change when either operand's
   * case changes; that of an IgnoreCase regex operator does not change with the subject's case.
   */
  lemma IgnoreCaseInvariant(op: Operator, l1: string, l2: string, r1: string, r2: string, rt: Runtime)
    requires CaseSensitive(op).Some?
    requires Lower(l1) == Lower(l2)
    requires if IsRegex(op) then r1 == r2 else Lower(r1) == Lower(r2)
    ensures Apply(op, l1, r1, rt) == Apply(op, l2, r2, rt)
  {
  }

  /** The plain operators do see case: "A" does not equal "a", while isEqualsIgnoreCase accepts them. */
  lemma PlainIsCaseSensitive(rt: Runtime)
    ensures Apply(IsEquals, "A", "a", rt) == Ok(false)
    ensures Apply(IsEqualsIgnoreCase, "A", "a", rt) == Ok(true)
  {
    assert Lower("A") == [LowerChar('A')] + Lower([]);
  }

  /** A numeric operator with an operand `parseFloat` cannot read is false, whichever operator it is. */
  lemma NumericNaNIsFalse(op: Operator, left: string, right: string, rt: Runtime)
    requires op in {LessThan, LessThanOrEquals, GreaterThan, GreaterThanOrEquals}
    requires rt.parseFloat(left).None? || rt.parseFloat(right).None?
    ensures Apply(op, left, right, rt) == Ok(false)
  {
  }

  /** An operator text outside the 24 makes its filter fail, whatever the operands. */
  lemma UnrecognisedFails(text: string, left: string, right: string, vars: map<string, string>, rt: Runtime)
    requires OperatorOf(text) == Unrecognised(text)
    ensures Calculate(Filter(left, OperatorOf(text), right), vars, rt) == Ok(false)
  {
  }

  /** A trigger's filters pass exactly when every one of them passes; no filters always pass. */
  lemma {:induction false} EveryPassesIff(filters: seq<Filter>, vars: map<string, string>, rt: Runtime)
    ensures Every(filters, vars, rt) == Ok(true) <==> forall i :: 0 <= i < |filters| ==> Calculate(filters[i], vars, rt) == Ok(true)
  {
    if |filters| > 0 {
      EveryPassesIff(filters[1..], vars, rt);
      assert forall i :: 1 <= i < |filters| ==> filters[i] == filters[1..][i - 1];
    }
  }

  lemma ValidatePassesIff(filters: seq<Filter>, vars: map<string, string>, rt: Runtime)
    ensures Validate(filters, vars, rt) == Ok(true) <==> forall i :: 0 <= i < |filters| ==> Calculate(filters[i], vars, rt) == Ok(true)
  {
    EveryPassesIff(filters, vars, rt);
  }

  /** The filters fail (without throwing) exactly when some filter fails after all before it passed. */
  lemma {:induction false} EveryFailsIff(filters: seq<Filter>, vars: map<string, string>, rt: Runtime)
    ensures Every(filters, vars, rt) == Ok(false) <==>
      exists k :: 0 <= k < |filters| && Calculate(filters[k], vars, rt) == Ok(false) &&
        forall i :: 0 <= i < k ==> Calculate(filters[i], vars, rt) == Ok(true)
  {
    if |filters| > 0 {
      EveryFailsIff(filters[1..], vars, rt);
      var c := Calculate(filters[0], vars, rt);
      if c == Ok(true) {
        if Every(filters, vars, rt) == Ok(false) {
          var k :| 0 <= k < |filters| - 1 && Calculate(filters[1..][k], vars, rt) == Ok(false) &&
            forall i :: 0 <= i < k ==> Calculate(filters[1..][i], vars, rt) == Ok(true);
          assert forall i :: 1 <= i < k + 1 ==> filters[i] == filters[1..][i - 1];
          assert Calculate(filters[k + 1], vars, rt) == Ok(false);
        }
        if exists k :: 0 <= k < |filters| && Calculate(filters[k], vars, rt) == Ok(false) &&
             forall i :: 0 <= i < k ==> Calculate(filters[i], vars, rt) == Ok(true) {
          var k :| 0 <= k < |filters| && Calculate(filters[k], vars, rt) == Ok(false) &&
             forall i :: 0 <= i < k ==> Calculate(filters[i], vars, rt) == Ok(true);
          assert k > 0;
          assert forall i :: 0 <= i < k - 1 ==> filters[1..][i] == filters[i + 1];
          assert Calculate(filters[1..][k - 1], vars, rt) == Ok(false);
        }
      } else if c == Ok(false) {
        assert Calculate(filters[0], vars, rt) == Ok(false);
      }
    }
  }

  /** When every left variable is resolved and no regex operator is used, validation never throws. */
  lemma {:induction false} EveryTotal(filters: seq<Filter>, vars: map<string, string>, rt: Runtime)
    requires forall i :: 0 <= i < |filters| ==> filters[i].left in vars && !IsRegex(filters[i].op)
    ensures Every(filters, vars, rt).Ok?
  {
    if |filters| > 0 {
      EveryTotal(filters[1..], vars, rt);
    }
  }

  /** With `appState` resolved to "active", the filter `appState isEquals "active"` passes. */
  lemma AppStateActivePasses(rt: Runtime)
    ensures Validate([Filter("appState", OperatorOf("isEquals"), "active")], map["appState" := "active"], rt) == Ok(true)
  {
    var f := Filter("appState", OperatorOf("isEquals"), "active");
    assert f.op == IsEquals;
    assert Calculate(f, map["appState" := "active"], rt) == Ok(true);
    assert [f][1..] == [];
    assert Every([f][1..], map["appState" := "active"], rt) == Ok(true);
    assert Every([f], map["appState" := "active"], rt) == Ok(true);
  }

  /** `isRegexMatchIgnoreCase` with subject "V12" hands the lowered subject "v12" to the regex engine, pattern untouched. */
  lemma RegexIgnoreCaseLowersSubject(rt: Runtime)
    ensures Calculate(Filter("version", IsRegexMatchIgnoreCase, "^v[0-9]+$"), map["version" := "V12"], rt)
         == RegexExec(rt, "^v[0-9]+$", "v12")
  {
    assert Lower("2") == ['2'] + Lower([]) == "2";
    assert Lower("12") == ['1'] + Lower("2") == "12";
    assert Lower("V12") == [LowerChar('V')] + Lower("12") == "v12";
  }
}
