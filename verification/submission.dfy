/**
 The cleanup pass applied to the draft before it is submitted: every
 condition loses the parameter maps its final indicator selection does not
 use, and nothing else in the draft changes.
 */
module Submission {
  import opened StrategyTypes
  import opened ParamSchema
  import opened Defaults
  import ConditionEditor

  /** Side A compares the raw price, which takes no parameters. */
  predicate AParamsUnused(c: Condition) {
    c.indicatorA == "PRICE"
  }

  /** Side B is a literal, or the raw price. */
  predicate BParamsUnused(c: Condition) {
    c.indicatorBType == "VALUE" || (c.indicatorBType == "INDICATOR" && c.indicatorBValue == "PRICE")
  }

  /** A condition carries no parameter map on a side that does not use one. */
  predicate ParamsClean(c: Condition) {
    (AParamsUnused(c) ==> c.indicatorAParams == map[]) && (BParamsUnused(c) ==> c.indicatorBParams == map[])
  }

  /** Every condition of every rule is clean: the draft may be submitted as it is. */
  ghost predicate Submittable(d: Draft) {
    forall i, k :: 0 <= i < |d.rules| && 0 <= k < |d.rules[i].conditions| ==> ParamsClean(d.rules[i].conditions[k])
  }

  /** `d` and `e` agree everywhere except possibly in parameter maps. */
  ghost predicate SameSkeleton(d: Draft, e: Draft) {
    && d.name == e.name
    && d.description == e.description
    && |d.rules| == |e.rules|
    && forall i :: 0 <= i < |d.rules| ==> SameRuleSkeleton(d.rules[i], e.rules[i])
  }

  ghost predicate SameRuleSkeleton(r: Rule, s: Rule) {
    && SameHeader(r, s)
    && |r.conditions| == |s.conditions|
    && forall k :: 0 <= k < |r.conditions| ==> SameFields(r.conditions[k], s.conditions[k])
  }

  /**
   One condition of the cleanup pass: empty the A map under PRICE; empty
   the B map under VALUE, or else under INDICATOR with PRICE selected; keep
   everything else as edited.
   */
  function CleanupCondition(c: Condition): (r: Condition)
    ensures SameFields(r, c)
    ensures ParamsClean(r)
    ensures !AParamsUnused(c) ==> r.indicatorAParams == c.indicatorAParams
    ensures !BParamsUnused(c) ==> r.indicatorBParams == c.indicatorBParams
  {
    var afterA := if c.indicatorA == "PRICE" then c.(indicatorAParams := map[]) else c;
    if afterA.indicatorBType == "VALUE" then afterA.(indicatorBParams := map[])
    else if afterA.indicatorBType == "INDICATOR" && afterA.indicatorBValue == "PRICE" then
      afterA.(indicatorBParams := map[])
    else afterA
  }

  /** Cleans a condition list: same length, same order, each condition cleaned. */
  function CleanupConditions(cs: seq<Condition>): (r: seq<Condition>)
    ensures |r| == |cs|
    ensures forall k :: 0 <= k < |cs| ==> r[k] == CleanupCondition(cs[k])
    decreases |cs|
  {
    if |cs| == 0 then [] else CleanupConditions(cs[..|cs| - 1]) + [CleanupCondition(cs[|cs| - 1])]
  }

  /** A rule whose conditions are cleaned and whose other fields are kept. */
  function CleanupRule(r: Rule): (s: Rule)
    ensures SameRuleSkeleton(r, s)
    ensures forall k :: 0 <= k < |s.conditions| ==> ParamsClean(s.conditions[k])
    ensures forall k :: 0 <= k < |s.conditions| ==> s.conditions[k] == CleanupCondition(r.conditions[k])
  {
    r.(conditions := CleanupConditions(r.conditions))
  }

  /** Cleans the rule list: same length, same order, each rule cleaned. */
  function CleanupRules(rs: seq<Rule>): (r: seq<Rule>)
    ensures |r| == |rs|
    ensures forall i :: 0 <= i < |rs| ==> r[i] == CleanupRule(rs[i])
    decreases |rs|
  {
    if |rs| == 0 then [] else CleanupRules(rs[..|rs| - 1]) + [CleanupRule(rs[|rs| - 1])]
  }

  /** The payload submitted for draft `d`. */
  function Cleanup(d: Draft): (r: Draft)
    ensures SameSkeleton(d, r)
    ensures Submittable(r)
  {
    d.(rules := CleanupRules(d.rules))
  }

  /**
   In the payload, a side that does not use its map has an empty one, and a
   side that uses it carries it exactly as edited.
   */
  lemma CleanupParamsAt(d: Draft, i: nat, k: nat)
    requires i < |d.rules| && k < |d.rules[i].conditions|
    ensures
      var c := d.rules[i].conditions[k];
      var p := Cleanup(d).rules[i].conditions[k];
      && (AParamsUnused(c) ==> p.indicatorAParams == map[])
      && (!AParamsUnused(c) ==> p.indicatorAParams == c.indicatorAParams)
      && (BParamsUnused(c) ==> p.indicatorBParams == map[])
      && (!BParamsUnused(c) ==> p.indicatorBParams == c.indicatorBParams)
  {
  }

  /** A clean condition is left as it is by the cleanup of one condition. */
  lemma CleanupConditionFixesClean(c: Condition)
    ensures CleanupCondition(c) == c <==> ParamsClean(c)
  {
  }

  /** The cleanup leaves a draft unchanged exactly when the draft may already be submitted. */
  lemma {:induction false} CleanupFixedPoints(d: Draft)
    ensures Cleanup(d) == d <==> Submittable(d)
  {
    if Submittable(d) {
      var r := Cleanup(d);
      forall i | 0 <= i < |d.rules|
        ensures r.rules[i] == d.rules[i]
      {
        var rule := d.rules[i];
        forall k | 0 <= k < |rule.conditions|
          ensures r.rules[i].conditions[k] == rule.conditions[k]
        {
          CleanupConditionFixesClean(rule.conditions[k]);
        }
        assert r.rules[i].conditions == rule.conditions;
      }
      assert r.rules == d.rules;
    }
  }

  /** Cleaning a payload a second time changes nothing. */
  lemma {:induction false} CleanupIdempotent(d: Draft)
    ensures Cleanup(Cleanup(d)) == Cleanup(d)
  {
    CleanupFixedPoints(Cleanup(d));
  }

  /** A new condition, cleaned, carries no parameters on either side. */
  lemma CleanupNewCondition()
    ensures NewCondition().indicatorAParams != map[] && NewCondition().indicatorBParams != map[]
    ensures CleanupCondition(NewCondition()).indicatorAParams == map[]
    ensures CleanupCondition(NewCondition()).indicatorBParams == map[]
  {
    assert PeriodKey in NewCondition().indicatorAParams;
    assert PeriodKey in NewCondition().indicatorBParams;
  }

  /**
   A comparison against the raw price that still carries `{period: 50}` from
   an earlier selection is submitted with an empty B map.
   */
  lemma CleanupDropsStalePriceParams(d: Draft, i: nat, k: nat)
    requires i < |d.rules| && k < |d.rules[i].conditions|
    requires d.rules[i].conditions[k].indicatorBType == "INDICATOR"
    requires d.rules[i].conditions[k].indicatorBValue == "PRICE"
    requires d.rules[i].conditions[k].indicatorBParams == map["period" := 50]
    ensures Cleanup(d).rules[i].conditions[k].indicatorBParams == map[]
  {
  }

  /** Editing the parameters of a side that does not use them does not change the payload. */
  lemma UnusedParamEditInvisible(c: Condition, side: Side, key: string, value: int)
    requires side == A ==> AParamsUnused(c)
    requires side == B ==> BParamsUnused(c)
    ensures CleanupCondition(ConditionEditor.ChangeParam(c, side, key, value)) == CleanupCondition(c)
  {
  }

  /**
   Selecting an indicator for a side leaves that side already clean, so the
   cleanup only ever acts on maps left behind by earlier selections.
   */
  lemma SelectionLeavesSideClean(c: Condition, field: ConditionField, value: string)
    ensures field == IndicatorA ==>
      var r := ConditionEditor.ChangeField(c, field, value);
      AParamsUnused(r) ==> r.indicatorAParams == map[]
    ensures field == IndicatorBType && value == "VALUE" ==>
      var r := ConditionEditor.ChangeField(c, field, value);
      BParamsUnused(r) && r.indicatorBParams == map[]
  {
  }

  /**
   After retyping an SMA, EMA or RSI comparison to VALUE and back, the
   submitted condition still names that indicator but carries an empty B map,
   so the payload lacks the `period` key the indicator declares.
   */
  lemma RetypeRoundTripSubmitsNoPeriod(c: Condition)
    requires c.indicatorBType == "INDICATOR" && NeedsParams(c.indicatorBValue)
    ensures
      var back := ConditionEditor.ChangeField(ConditionEditor.ChangeField(c, IndicatorBType, "VALUE"), IndicatorBType, "INDICATOR");
      var sent := CleanupCondition(back);
      && sent.indicatorBType == "INDICATOR"
      && sent.indicatorBValue == c.indicatorBValue
      && sent.indicatorBParams == map[]
      && !ConformsTo(sent.indicatorBParams, sent.indicatorBValue)
  {
    ConditionEditor.RetypeRoundTripDropsParams(c);
  }
}
