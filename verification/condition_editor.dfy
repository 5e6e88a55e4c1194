/**
 Edits of a single condition: replacing one named field (with the parameter
 resets an indicator selection triggers) and merging one parameter key into
 one side's parameter map.
 */
module ConditionEditor {
  import opened StrategyTypes
  import opened ParamSchema

  /**
   Replaces `field` with `value`. Selecting indicator A resets the A map to
   the selection's defaults; selecting indicator B does the same to the B map,
   but only while the B side is typed INDICATOR; retyping B as VALUE empties
   the B map. Every other change is a plain replacement.
   */
  function ChangeField(c: Condition, field: ConditionField, value: string): (r: Condition)
    ensures FieldValue(r, field) == value
    ensures forall g :: g != field ==> FieldValue(r, g) == FieldValue(c, g)
    ensures field == IndicatorA ==> r.indicatorAParams == DefaultParams(value)
    ensures field != IndicatorA ==> r.indicatorAParams == c.indicatorAParams
    ensures field == IndicatorBValue && c.indicatorBType == "INDICATOR" ==>
              r.indicatorBParams == DefaultParams(value)
    ensures field == IndicatorBType && value == "VALUE" ==> r.indicatorBParams == map[]
    ensures !(field == IndicatorBValue && c.indicatorBType == "INDICATOR")
            && !(field == IndicatorBType && value == "VALUE") ==>
              r.indicatorBParams == c.indicatorBParams
  {
    var spread := WithField(c, field, value);
    var reset :=
      if field == IndicatorA then spread.(indicatorAParams := DefaultParams(value))
      else if field == IndicatorBValue && spread.indicatorBType == "INDICATOR" then
        spread.(indicatorBParams := DefaultParams(value))
      else spread;
    if field == IndicatorBType && value == "VALUE" then reset.(indicatorBParams := map[]) else reset
  }

  /**
   Merges one key into the addressed side's map: `key` now maps to `value`,
   every other key keeps its value, and nothing else changes.
   */
  function ChangeParam(c: Condition, side: Side, key: string, value: int): (r: Condition)
    ensures SameFields(r, c)
    ensures ParamsOn(r, side).Keys == ParamsOn(c, side).Keys + {key}
    ensures ParamsOn(r, side)[key] == value
    ensures forall k :: k in ParamsOn(c, side) && k != key ==> ParamsOn(r, side)[k] == ParamsOn(c, side)[k]
    ensures side == A ==> r.indicatorBParams == c.indicatorBParams
    ensures side == B ==> r.indicatorAParams == c.indicatorAParams
  {
    match side
    case A => c.(indicatorAParams := c.indicatorAParams[key := value])
    case B => c.(indicatorBParams := c.indicatorBParams[key := value])
  }

  /** Selecting an indicator leaves its map with exactly the keys the indicator declares. */
  lemma SelectionConformsToSchema(c: Condition, field: ConditionField, value: string)
    ensures field == IndicatorA ==> ConformsTo(ChangeField(c, field, value).indicatorAParams, value)
    ensures field == IndicatorBValue && c.indicatorBType == "INDICATOR" ==>
              ConformsTo(ChangeField(c, field, value).indicatorBParams, value)
  {
  }

  /** Selecting RSI for indicator A gives it `{period: 14}`. */
  lemma SelectRsiGivesDefaultPeriod(c: Condition)
    ensures ChangeField(c, IndicatorA, "RSI").indicatorAParams == map["period" := 14]
  {
  }

  /** On a map holding `{period: 14}`, setting period to 21 gives exactly `{period: 21}`. */
  lemma SetPeriodOnDefault(c: Condition)
    requires c.indicatorAParams == map["period" := 14]
    ensures ChangeParam(c, A, "period", 21).indicatorAParams == map["period" := 21]
  {
  }

  /** Selecting the same indicator twice is the same as selecting it once. */
  lemma ChangeFieldIdempotent(c: Condition, field: ConditionField, value: string)
    ensures ChangeField(ChangeField(c, field, value), field, value) == ChangeField(c, field, value)
  {
  }

  /**
   Retyping B as VALUE and back as INDICATOR keeps the indicator name but
   not its parameters: an SMA, EMA or RSI comparison comes back with an empty
   map, which no longer carries the key its indicator declares.
   */
  lemma RetypeRoundTripDropsParams(c: Condition)
    requires c.indicatorBType == "INDICATOR" && NeedsParams(c.indicatorBValue)
    ensures
      var back := ChangeField(ChangeField(c, IndicatorBType, "VALUE"), IndicatorBType, "INDICATOR");
      && back.indicatorBType == "INDICATOR"
      && back.indicatorBValue == c.indicatorBValue
      && back.indicatorBParams == map[]
      && !ConformsTo(back.indicatorBParams, back.indicatorBValue)
  {
  }
}
