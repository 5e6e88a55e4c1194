/**
 The edits the authoring page applies to its draft. Each one rebuilds only
 the addressed branch: the addressed rule (and, below it, the addressed
 condition) is replaced, and every sibling keeps its value and position.
 An edit addressed at a rule that does not exist, or that would fill a
 missing condition slot with a partial record, yields an `EditError`.
 */
module DraftEditor {
  import opened StrategyTypes
  import opened Defaults
  import opened SeqEdit
  import ConditionEditor

  /** `d` and `e` differ at most in rule `i`. */
  ghost predicate OnlyRuleChanged(d: Draft, e: Draft, i: nat) {
    && e.name == d.name
    && e.description == d.description
    && AgreeExcept(d.rules, e.rules, i)
  }

  /** `d` and `e` differ at most in condition `c` of rule `i`. */
  ghost predicate OnlyConditionChanged(d: Draft, e: Draft, i: nat, c: nat) {
    && OnlyRuleChanged(d, e, i)
    && i < |d.rules|
    && SameHeader(d.rules[i], e.rules[i])
    && AgreeExcept(d.rules[i].conditions, e.rules[i].conditions, c)
  }

  /** The condition at (`i`, `c`) exists. */
  predicate ValidCondition(d: Draft, i: nat, c: nat) {
    i < |d.rules| && c < |d.rules[i].conditions|
  }

  /** The error an edit of condition (`i`, `c`) reports when that slot is missing. */
  function MissingConditionError(d: Draft, i: nat): EditError {
    if i < |d.rules| then ConditionIndexOutOfRange else RuleIndexOutOfRange
  }

  /** Replaces the name or the description of the draft. */
  function SetField(d: Draft, f: DraftField, value: string): (r: Draft)
    ensures r.rules == d.rules
    ensures f == Name ==> r.name == value && r.description == d.description
    ensures f == Description ==> r.description == value && r.name == d.name
  {
    match f
    case Name => d.(name := value)
    case Description => d.(description := value)
  }

  /** Replaces one field of rule `i`; its conditions and every other rule are kept. */
  function ChangeRule(d: Draft, i: nat, edit: RuleEdit): (r: EditResult)
    ensures r.Err? <==> i >= |d.rules|
    ensures r.Err? ==> r.error == RuleIndexOutOfRange
    ensures r.Ok? ==> OnlyRuleChanged(d, r.draft, i)
    ensures r.Ok? ==> r.draft.rules[i].conditions == d.rules[i].conditions
    ensures r.Ok? ==> match edit
      case SetAction(a) =>
        var n := r.draft.rules[i]; var o := d.rules[i];
        n.action == a && n.actionAmountPercent == o.actionAmountPercent && n.priority == o.priority
      case SetAmount(m) =>
        var n := r.draft.rules[i]; var o := d.rules[i];
        n.action == o.action && n.actionAmountPercent == m && n.priority == o.priority
      case SetPriority(p) =>
        var n := r.draft.rules[i]; var o := d.rules[i];
        n.action == o.action && n.actionAmountPercent == o.actionAmountPercent && n.priority == p
  {
    if i >= |d.rules| then Err(RuleIndexOutOfRange)
    else
      var rule := d.rules[i];
      var updated := match edit
        case SetAction(a) => rule.(action := a)
        case SetAmount(m) => rule.(actionAmountPercent := m)
        case SetPriority(p) => rule.(priority := p);
      Ok(d.(rules := d.rules[i := updated]))
  }

  /** Puts `cond` at (`i`, `c`), rebuilding the rule and rule list around it. */
  function ReplaceCondition(d: Draft, i: nat, c: nat, cond: Condition): (r: Draft)
    requires ValidCondition(d, i, c)
    ensures OnlyConditionChanged(d, r, i, c)
    ensures ValidCondition(r, i, c) && r.rules[i].conditions[c] == cond
  {
    var rule := d.rules[i];
    d.(rules := d.rules[i := rule.(conditions := rule.conditions[c := cond])])
  }

  /** Changes one named field of condition (`i`, `c`), with the resets of `ConditionEditor.ChangeField`. */
  function ChangeCondition(d: Draft, i: nat, c: nat, field: ConditionField, value: string): (r: EditResult)
    ensures r.Err? <==> !ValidCondition(d, i, c)
    ensures r.Err? ==> r.error == MissingConditionError(d, i)
    ensures r.Ok? ==> OnlyConditionChanged(d, r.draft, i, c)
    ensures r.Ok? ==> ValidCondition(r.draft, i, c)
    ensures r.Ok? ==>
      r.draft.rules[i].conditions[c] == ConditionEditor.ChangeField(d.rules[i].conditions[c], field, value)
  {
    if !ValidCondition(d, i, c) then Err(MissingConditionError(d, i))
    else Ok(ReplaceCondition(d, i, c, ConditionEditor.ChangeField(d.rules[i].conditions[c], field, value)))
  }

  /** Merges `key := value` into one side's parameter map of condition (`i`, `c`). */
  function ChangeConditionParam(d: Draft, i: nat, c: nat, side: Side, key: string, value: int): (r: EditResult)
    ensures r.Err? <==> !ValidCondition(d, i, c)
    ensures r.Err? ==> r.error == MissingConditionError(d, i)
    ensures r.Ok? ==> OnlyConditionChanged(d, r.draft, i, c)
    ensures r.Ok? ==> ValidCondition(r.draft, i, c)
    ensures r.Ok? ==>
      r.draft.rules[i].conditions[c] == ConditionEditor.ChangeParam(d.rules[i].conditions[c], side, key, value)
  {
    if !ValidCondition(d, i, c) then Err(MissingConditionError(d, i))
    else Ok(ReplaceCondition(d, i, c, ConditionEditor.ChangeParam(d.rules[i].conditions[c], side, key, value)))
  }

  /** Appends a new rule after the existing ones. */
  function AddRule(d: Draft): (r: Draft)
    ensures r.name == d.name && r.description == d.description
    ensures |r.rules| == |d.rules| + 1 && r.rules[..|d.rules|] == d.rules
    ensures r.rules[|d.rules|] == NewRule()
  {
    d.(rules := d.rules + [NewRule()])
  }

  /** Drops rule `i`; an index past the end leaves the draft as it is. */
  function RemoveRule(d: Draft, i: nat): (r: Draft)
    ensures r.name == d.name && r.description == d.description
    ensures i < |d.rules| ==> r.rules == d.rules[..i] + d.rules[i + 1..]
    ensures i >= |d.rules| ==> r == d
  {
    d.(rules := DropIndex(d.rules, i))
  }

  /** Appends a new condition to rule `i`. */
  function AddCondition(d: Draft, i: nat): (r: EditResult)
    ensures r.Err? <==> i >= |d.rules|
    ensures r.Err? ==> r.error == RuleIndexOutOfRange
    ensures r.Ok? ==> OnlyRuleChanged(d, r.draft, i) && SameHeader(d.rules[i], r.draft.rules[i])
    ensures r.Ok? ==> r.draft.rules[i].conditions == d.rules[i].conditions + [NewCondition()]
  {
    if i >= |d.rules| then Err(RuleIndexOutOfRange)
    else
      var rule := d.rules[i];
      Ok(d.(rules := d.rules[i := rule.(conditions := rule.conditions + [NewCondition()])]))
  }

  /** Drops condition `c` of rule `i`; a condition index past the end changes nothing. */
  function RemoveCondition(d: Draft, i: nat, c: nat): (r: EditResult)
    ensures r.Err? <==> i >= |d.rules|
    ensures r.Err? ==> r.error == RuleIndexOutOfRange
    ensures r.Ok? ==> OnlyRuleChanged(d, r.draft, i) && SameHeader(d.rules[i], r.draft.rules[i])
    ensures r.Ok? && c < |d.rules[i].conditions| ==>
              r.draft.rules[i].conditions == d.rules[i].conditions[..c] + d.rules[i].conditions[c + 1..]
    ensures r.Ok? && c >= |d.rules[i].conditions| ==> r.draft == d
  {
    if i >= |d.rules| then Err(RuleIndexOutOfRange)
    else
      var rule := d.rules[i];
      Ok(d.(rules := d.rules[i := rule.(conditions := DropIndex(rule.conditions, c))]))
  }

  /** Adding a rule and then removing it at its index gives back the original draft. */
  lemma AddThenRemoveRule(d: Draft)
    ensures RemoveRule(AddRule(d), |d.rules|) == d
  {
    DropAppended(d.rules, NewRule());
  }

  /** Adding a condition to rule `i` and then removing it at its index gives back the original draft. */
  lemma AddThenRemoveCondition(d: Draft, i: nat)
    requires i < |d.rules|
    ensures AddCondition(d, i).Ok?
    ensures RemoveCondition(AddCondition(d, i).draft, i, |d.rules[i].conditions|) == Ok(d)
  {
    var rule := d.rules[i];
    DropAppended(rule.conditions, NewCondition());
    assert d.rules[i := rule] == d.rules;
  }

  /** Removing the first of two conditions leaves the second, unchanged, as the only one. */
  lemma RemoveFirstOfTwo(d: Draft, x: Condition, y: Condition)
    requires |d.rules| == 1 && d.rules[0].conditions == [x, y]
    ensures RemoveCondition(d, 0, 0).Ok?
    ensures RemoveCondition(d, 0, 0).draft.rules[0].conditions == [y]
  {
  }

  /** Setting a text field twice keeps only the second value. */
  lemma SetFieldLastWins(d: Draft, f: DraftField, v1: string, v2: string)
    ensures SetField(SetField(d, f, v1), f, v2) == SetField(d, f, v2)
  {
  }

  /** Selecting RSI for indicator A of an existing condition leaves `{period: 14}` there. */
  lemma SelectRsiInDraft(d: Draft, i: nat, c: nat)
    requires ValidCondition(d, i, c)
    ensures ChangeCondition(d, i, c, IndicatorA, "RSI").Ok?
    ensures ChangeCondition(d, i, c, IndicatorA, "RSI").draft.rules[i].conditions[c].indicatorAParams
            == map["period" := 14]
  {
    ConditionEditor.SelectRsiGivesDefaultPeriod(d.rules[i].conditions[c]);
  }
}
