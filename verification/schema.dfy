/**
 Which indicators take parameters, and the parameter map an indicator
 selection resets to. PRICE (and any name outside SMA/EMA/RSI) takes none;
 SMA, EMA and RSI take a single `period`, reset to 14.
 */
module ParamSchema {
  import opened StrategyTypes

  const PeriodKey: string := "period"
  const DefaultPeriod: int := 14

  /** The "needs params" test of the page: membership in {SMA, EMA, RSI}. */
  predicate NeedsParams(indicator: string) {
    indicator in ["SMA", "EMA", "RSI"]
  }

  /** The keys a parameter map for `indicator` is meant to carry. */
  function SchemaKeys(indicator: string): set<string> {
    if NeedsParams(indicator) then {PeriodKey} else {}
  }

  /** The map a freshly selected indicator gets. */
  function DefaultParams(indicator: string): (p: Params)
    ensures p.Keys == SchemaKeys(indicator)
    ensures NeedsParams(indicator) ==> p[PeriodKey] == DefaultPeriod
    ensures !NeedsParams(indicator) <==> p == map[]
  {
    if NeedsParams(indicator) then map[PeriodKey := DefaultPeriod] else map[]
  }

  /** A parameter map carries exactly the keys its indicator declares. */
  predicate ConformsTo(p: Params, indicator: string) {
    p.Keys == SchemaKeys(indicator)
  }
}
