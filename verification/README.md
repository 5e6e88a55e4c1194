# Strategy-authoring engine

A Dafny model of the draft editor behind the "Create New Strategy" page of a
trading-strategy client. The page keeps a draft strategy: a name, a
description and an ordered list of rules. Each rule has an action, an amount
percentage, a priority and an ordered list of conditions. A condition
compares indicator A against either a literal value or indicator B, and each
side carries a parameter map such as `{period: 14}`.

The model has three parts.

- **Defaults.** These are the new condition (`PRICE > 70`, with pre-filled
  maps `{period: 14}` and `{period: 50}`), the new rule (BUY, 100%, priority
  1, one new condition) and the opening draft.
- **Edits.** These are text-field changes, rule-field changes, condition-field
  changes with their parameter resets, parameter merges, and adding or
  removing rules and conditions. Each edit replaces only the addressed branch
  of the tree. The frame predicates `DraftEditor.OnlyRuleChanged` and
  `DraftEditor.OnlyConditionChanged` state this.
- **Submission cleanup.** This pass empties every parameter map that the
  final indicator selection does not use. It leaves the rest of the draft
  untouched.

Modules, one file each:

- `StrategyTypes` (`types.dfy`): the records, field selectors and edit results.
- `ParamSchema` (`schema.dfy`): which indicators take a `period` and the map a
  selection resets to.
- `Defaults` (`defaults.dfy`): the items the page creates.
- `SeqEdit` (`seqedit.dfy`): removal by index, written as the filter the page uses.
- `ConditionEditor` (`condition_editor.dfy`): edits of one condition.
- `DraftEditor` (`draft_editor.dfy`): the page's edit handlers on the whole draft.
- `Submission` (`submission.dfy`): the cleanup pass, its postconditions, its
  frame, idempotence and fixed points.

Modelling choices:

- Fields that are strings in the page stay strings. `indicatorBValue` is a
  numeric literal under `VALUE` and an indicator name under `INDICATOR`.
- Parameter maps are `map<string, int>`.
- Field names passed to the generic handlers are closed enumerations:
  `DraftField`, `ConditionField` and `RuleEdit`. `DraftField` and
  `ConditionField` list exactly the names the page's call sites pass.
  `RuleEdit` lists the two rule fields the page edits, action and amount
  (page.tsx:321, 333). It also lists `SetPriority`, an edit the page never
  makes: the page has no priority input, so every rule keeps priority 1 from
  the new-rule default. The rule handler would accept the `priority` name,
  and the model keeps that edit so the handler's frame covers all three
  rule fields.
- Indices are `nat`, because every call site passes a position taken from
  the list being rendered.
- Some out-of-range indices have no draft to return, so the edit yields an
  `EditError`. There are two such cases:
  - A condition handler (change, parameter change, add, remove) gets a rule
    index that names no rule. The page then reads `.conditions` of
    `undefined` and throws.
  - The page would write a partial record (a rule or condition missing its
    other fields) at an index past the end. This happens in the rule-field
    handler when the rule index names no rule (it does not throw), and in
    the condition-field and parameter handlers when the condition index
    names no condition.
- Removing a rule or a condition at a position past the end changes nothing.
  This matches the filter the page uses.

## Model

| member | source | states |
|---|---|---|
| StrategyTypes.WithField | src/app/strategies/new/page.tsx:120 | copying a condition with one named field replaced stores the value in the named field and leaves every other field and both parameter maps as they were |
| ParamSchema.DefaultParams | src/app/strategies/new/page.tsx:124-132 | the map a selection resets to has exactly the schema keys of the indicator, `period` is 14 when the indicator is SMA, EMA or RSI, and the map is empty exactly when the indicator needs no parameters |
| Defaults.NewCondition | src/app/strategies/new/page.tsx:36-43 | a new condition is PRICE GREATER_THAN the VALUE literal "70", with A map `{period: 14}` and B map `{period: 50}`; PRICE needs no parameters, yet both maps carry a `period` key |
| Defaults.NewRule | src/app/strategies/new/page.tsx:45-50 | a new rule is BUY 100% at priority 1 holding exactly one new condition |
| Defaults.InitialDraft | src/app/strategies/new/page.tsx:82-86 | the opening draft has an empty name and description and holds exactly one new rule |
| SeqEdit.DropIndex | src/app/strategies/new/page.tsx:177 | filtering out position i equals the prefix before i joined with the suffix after i; an index past the end keeps the whole list |
| SeqEdit.DropIndexPositions | src/app/strategies/new/page.tsx:189-191 | after removing position i the list is one shorter, earlier items keep their positions and later items move down by one |
| SeqEdit.DropAppended | src/app/strategies/new/page.tsx:170-177 | appending an item and filtering out its position gives back the original list |
| ConditionEditor.ChangeField | src/app/strategies/new/page.tsx:120-138 | the named field takes the value and the other fields keep theirs; selecting indicator A resets the A map to the selection's defaults, otherwise the A map is kept; selecting indicator B resets the B map only under INDICATOR; retyping B as VALUE empties the B map; in every other case the B map is kept |
| ConditionEditor.ChangeParam | src/app/strategies/new/page.tsx:154-160 | the addressed side's map gains the key with the new value, keeps every other key and value, and gains no other key; the other side's map and all fields are unchanged |
| ConditionEditor.SelectionConformsToSchema | src/app/strategies/new/page.tsx:122-132 | after an indicator selection, the reset map has exactly the keys the selected indicator declares |
| ConditionEditor.SelectRsiGivesDefaultPeriod | src/app/strategies/new/page.tsx:124-129 | selecting RSI for indicator A gives the A map `{period: 14}` |
| ConditionEditor.SetPeriodOnDefault | src/app/strategies/new/page.tsx:157 | setting period to 21 on `{period: 14}` gives exactly `{period: 21}`, with no key gained or lost |
| ConditionEditor.ChangeFieldIdempotent | src/app/strategies/new/page.tsx:120-138 | repeating the same field change has no further effect |
| ConditionEditor.RetypeRoundTripDropsParams | src/app/strategies/new/page.tsx:123-138 | retyping an SMA, EMA or RSI comparison to VALUE and back to INDICATOR keeps the indicator name but leaves its B map empty, so the map lacks the indicator's `period` key |
| DraftEditor.SetField | src/app/strategies/new/page.tsx:93-98 | changing the name or description replaces only that text and keeps the rules |
| DraftEditor.SetFieldLastWins | src/app/strategies/new/page.tsx:93-98 | setting the same text field twice keeps only the second value |
| DraftEditor.ChangeRule | src/app/strategies/new/page.tsx:100-110 | fails exactly when the rule is missing; otherwise only the addressed rule changes, it receives the new action, amount or priority and keeps its other two fields and its conditions |
| DraftEditor.ReplaceCondition | src/app/strategies/new/page.tsx:140-142 | writing a condition back into its slot rebuilds only the path to it: the addressed slot holds the new condition, the rule keeps its header, and every other condition and rule is unchanged |
| DraftEditor.ChangeCondition | src/app/strategies/new/page.tsx:112-143 | fails exactly when the condition slot is missing, with the rule or condition error as appropriate; otherwise only the addressed condition of the addressed rule changes, to the single-condition edit of it, and the rule keeps its header |
| DraftEditor.SelectRsiInDraft | src/app/strategies/new/page.tsx:112-143 | selecting RSI for indicator A of an existing condition leaves `{period: 14}` in that condition of the draft |
| DraftEditor.ChangeConditionParam | src/app/strategies/new/page.tsx:145-165 | fails exactly when the condition slot is missing; otherwise only the addressed condition changes, by merging the single parameter key into it |
| DraftEditor.AddRule | src/app/strategies/new/page.tsx:167-172 | the rules grow by one; the existing rules keep their order and values, and a new rule sits at the end |
| DraftEditor.RemoveRule | src/app/strategies/new/page.tsx:174-179 | the rule at the index is dropped and the others keep their order; an index past the end leaves the draft unchanged |
| DraftEditor.AddThenRemoveRule | src/app/strategies/new/page.tsx:167-179 | adding a rule and then removing it at its index restores the original draft |
| DraftEditor.AddCondition | src/app/strategies/new/page.tsx:181-185 | fails exactly when the rule is missing; otherwise only that rule changes, keeping its header, and its conditions gain a new condition at the end |
| DraftEditor.RemoveCondition | src/app/strategies/new/page.tsx:187-193 | fails exactly when the rule is missing; otherwise only that rule changes, it loses the condition at the index with the others kept in order, and an index past the end changes nothing |
| DraftEditor.AddThenRemoveCondition | src/app/strategies/new/page.tsx:181-193 | adding a condition to a rule and then removing it at its index restores the original draft |
| DraftEditor.RemoveFirstOfTwo | src/app/strategies/new/page.tsx:187-193 | removing the first of conditions `[X, Y]` leaves exactly `[Y]`, with Y unchanged |
| Submission.CleanupCondition | src/app/strategies/new/page.tsx:213-224 | a cleaned condition keeps all its fields and has no map on a side that does not use one; a side that uses its map keeps it exactly as edited |
| Submission.CleanupConditions | src/app/strategies/new/page.tsx:213 | cleaning a condition list keeps its length and order and cleans each condition |
| Submission.CleanupRule | src/app/strategies/new/page.tsx:211-225 | a cleaned rule keeps its action, amount, priority and condition fields, and every one of its conditions is clean |
| Submission.CleanupRules | src/app/strategies/new/page.tsx:211 | cleaning the rule list keeps its length and order and cleans each rule |
| Submission.Cleanup | src/app/strategies/new/page.tsx:209-226 | the payload has the draft's name, description, rule and condition counts and order, and every non-parameter field; every condition in it is clean |
| Submission.CleanupParamsAt | src/app/strategies/new/page.tsx:215-222 | in the payload, the A map is empty under PRICE and otherwise as edited; the B map is empty under VALUE or under INDICATOR with PRICE, and otherwise as edited |
| Submission.CleanupConditionFixesClean | src/app/strategies/new/page.tsx:214-223 | cleaning leaves a condition unchanged exactly when that condition is already clean |
| Submission.CleanupFixedPoints | src/app/strategies/new/page.tsx:209-226 | cleaning leaves a draft unchanged exactly when every condition in it is already clean |
| Submission.CleanupIdempotent | src/app/strategies/new/page.tsx:209-226 | cleaning twice gives the same payload as cleaning once |
| Submission.CleanupNewCondition | src/app/strategies/new/page.tsx:36-43 | a new condition starts with non-empty maps on both sides, and cleaning it empties both |
| Submission.CleanupDropsStalePriceParams | src/app/strategies/new/page.tsx:220-221 | a PRICE comparison that still carries `{period: 50}` is submitted with an empty B map |
| Submission.UnusedParamEditInvisible | src/app/strategies/new/page.tsx:154-160 | a parameter edit on a side that does not use its map does not change the submitted condition |
| Submission.RetypeRoundTripSubmitsNoPeriod | src/app/strategies/new/page.tsx:136-137 | after retyping an SMA, EMA or RSI comparison to VALUE and back, the payload still names that indicator but its B map is empty, so it lacks the indicator's `period` key |
| Submission.SelectionLeavesSideClean | src/app/strategies/new/page.tsx:122-138 | after selecting indicator A, side A is clean if PRICE was selected; after retyping B as VALUE, side B is clean |

## Stale indicator-B parameters

One behaviour of the page departs from the intended shape of a condition.
A parameter map for SMA, EMA or RSI is meant to carry exactly the `period`
key. Retyping side B to VALUE empties its map (page.tsx:136-137). Retyping
it back to INDICATOR restores neither the map nor the period. The indicator
name survives the round trip, because the page never clears it. So an SMA,
EMA or RSI comparison comes back with an empty B map.

Two lemmas state this. `ConditionEditor.RetypeRoundTripDropsParams` covers
the edit, and `Submission.RetypeRoundTripSubmitsNoPeriod` shows that the
cleanup submits the empty map unchanged. The parameter input appears only
when the map already has a `period` key (page.tsx:61). So after the round
trip the page offers no way to enter the period, short of choosing another
indicator and then the original one again. The model keeps the page's
behaviour. It does not correct it.

## Left out

- Submission I/O (page.tsx:196-206, 228-252) is not modelled. This covers the
  login-token check, the POST request, reading the error body, the redirect,
  the loading and error state, and the console log. Only the cleanup pass
  that builds the payload is modelled.
- Rendering is not modelled (page.tsx:53-73, 256-452). This includes the
  parameter input component and the dropdown option lists (page.tsx:31-33).
  So is browser number parsing: `parseInt(...) || 0` for parameters and
  `parseFloat(...) || 0` for the amount. The amount and parameter values are
  plain integers that edits only ever replace.
- React state identity and aliasing are not modelled. At page.tsx:141, 163,
  183 and 189 the page mutates a rule object that the previous state shares.
  The model uses value semantics, so that sharing cannot be seen, and change
  detection by identity cannot be stated.
- Field names outside the enumerations are not modelled. The generic handlers
  accept any field name, but the page only passes the names in `DraftField`,
  `ConditionField` and `RuleEdit`.
- DraftEditor.ChangeRule, DraftEditor.ChangeCondition and
  DraftEditor.ChangeConditionParam: for every index at or past the end of
  the list, the page writes a partial record at that index. One past the end,
  this appends a record that lacks its other fields. Further out, it leaves
  the list sparse, with empty slots before the new record. The model returns
  `EditError` for all of these, because neither a partial record nor an
  empty slot is a value of the model's types.
- Negative indices are not modelled, because no call site can produce one.
- The dashboard, registration, strategy-list and layout pages, the
  configuration file and the realtime notification context are not part of
  this model.
