/** The finding that every check emits and every later stage of the pipeline consumes. */
module Insights {

  datatype Insight = Insight(
    level: string,
    check: string,
    message: string,
    hints: seq<string>,
    unverified: bool,
    needsRoot: bool,
    unverifiedReason: string)

  /** The severity order that analysis, capture and rendering share: unknown levels rank with OK. */
  function Rank(level: string): (r: nat)
    ensures r <= 3
    ensures r == 3 <==> level == "CRIT"
    ensures r == 2 <==> level == "WARN"
    ensures r == 1 <==> level == "INFO"
  {
    if level == "CRIT" then 3
    else if level == "WARN" then 2
    else if level == "INFO" then 1
    else 0
  }
}
