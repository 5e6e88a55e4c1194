/**
 The draft state of the strategy-authoring page: a strategy draft holds a
 name, a description and an ordered sequence of rules; a rule holds an
 action, an amount, a priority and an ordered sequence of conditions; a
 condition compares indicator A (with a parameter map) against either a
 literal value or indicator B (with its own parameter map).

 The string-typed fields of the page are kept as strings: `indicatorBValue`
 is a numeric literal under `indicatorBType == "VALUE"` and an indicator
 name under `indicatorBType == "INDICATOR"`.
 */
module StrategyTypes {

  /** An indicator parameter map, e.g. `map["period" := 14]`. */
  type Params = map<string, int>

  datatype Condition = Condition(
    indicatorA: string,
    indicatorAParams: Params,
    operator: string,
    indicatorBType: string,
    indicatorBValue: string,
    indicatorBParams: Params)

  datatype Rule = Rule(
    action: string,
    actionAmountPercent: int,
    priority: int,
    conditions: seq<Condition>)

  datatype Draft = Draft(name: string, description: string, rules: seq<Rule>)

  /** The string fields of a condition that the page edits by name. */
  datatype ConditionField = IndicatorA | Operator | IndicatorBType | IndicatorBValue

  /** The side of a condition a parameter edit addresses. */
  datatype Side = A | B

  /** The two top-level text inputs of the draft. */
  datatype DraftField = Name | Description

  /** A rule-level field replacement together with its new value. */
  datatype RuleEdit = SetAction(action: string) | SetAmount(amount: int) | SetPriority(priority: int)

  /** Why an edit addressed at a missing rule or condition has no draft to return. */
  datatype EditError = RuleIndexOutOfRange | ConditionIndexOutOfRange

  datatype EditResult = Ok(draft: Draft) | Err(error: EditError)

  /** Reads a named string field of a condition. */
  function FieldValue(c: Condition, f: ConditionField): string {
    match f
    case IndicatorA => c.indicatorA
    case Operator => c.operator
    case IndicatorBType => c.indicatorBType
    case IndicatorBValue => c.indicatorBValue
  }

  /** A copy of `c` with one named field replaced. */
  function WithField(c: Condition, f: ConditionField, v: string): (r: Condition)
    ensures FieldValue(r, f) == v
    ensures forall g :: g != f ==> FieldValue(r, g) == FieldValue(c, g)
    ensures r.indicatorAParams == c.indicatorAParams && r.indicatorBParams == c.indicatorBParams
  {
    match f
    case IndicatorA => c.(indicatorA := v)
    case Operator => c.(operator := v)
    case IndicatorBType => c.(indicatorBType := v)
    case IndicatorBValue => c.(indicatorBValue := v)
  }

  /** The parameter map on one side of a condition. */
  function ParamsOn(c: Condition, s: Side): Params {
    match s
    case A => c.indicatorAParams
    case B => c.indicatorBParams
  }

  /** Two conditions agree on every field except the parameter maps. */
  predicate SameFields(c: Condition, d: Condition) {
    && c.indicatorA == d.indicatorA
    && c.operator == d.operator
    && c.indicatorBType == d.indicatorBType
    && c.indicatorBValue == d.indicatorBValue
  }

  /** Two rules agree on action, amount and priority. */
  predicate SameHeader(r: Rule, s: Rule) {
    r.action == s.action && r.actionAmountPercent == s.actionAmountPercent && r.priority == s.priority
  }
}
