/** The items the page creates: a new condition, a new rule, the opening draft. */
module Defaults {
  import opened StrategyTypes
  import opened ParamSchema

  /**
   A new condition: PRICE > 70 (a literal). Both parameter maps are
   pre-filled (period 14 on side A, period 50 on side B) although neither
   side's selection uses them.
   */
  function NewCondition(): (c: Condition)
    ensures c.indicatorA == "PRICE" && c.operator == "GREATER_THAN"
    ensures c.indicatorBType == "VALUE" && c.indicatorBValue == "70"
    ensures c.indicatorAParams == map[PeriodKey := 14] && c.indicatorBParams == map[PeriodKey := 50]
    ensures !NeedsParams(c.indicatorA) && c.indicatorAParams.Keys == {PeriodKey}
    ensures c.indicatorBParams.Keys == {PeriodKey}
  {
    Condition("PRICE", map[PeriodKey := 14], "GREATER_THAN", "VALUE", "70", map[PeriodKey := 50])
  }

  /** A new rule: BUY 100% at priority 1 with one new condition. */
  function NewRule(): (r: Rule)
    ensures r.action == "BUY" && r.actionAmountPercent == 100 && r.priority == 1
    ensures |r.conditions| == 1 && r.conditions[0] == NewCondition()
  {
    Rule("BUY", 100, 1, [NewCondition()])
  }

  /** The draft the page opens with: empty name and description, one new rule. */
  function InitialDraft(): (d: Draft)
    ensures d.name == "" && d.description == ""
    ensures d.rules == [NewRule()]
  {
    Draft("", "", [NewRule()])
  }
}
