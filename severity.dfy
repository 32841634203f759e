/** Classification of an incident status into a message colour. */
module Severity {

  const GoodStatus: seq<string> := ["operational", "completed", "resolved"]
  const WarnStatus: seq<string> := ["partial_outage", "scheduled"]

  /** The colour of a status: "good" for the good statuses, "warn" for the
      warning statuses, "danger" for every other string. */
  function Symbol(status: string): (symbol: string)
    ensures symbol == "good" <==> status == "operational" || status == "completed" || status == "resolved"
    ensures symbol == "warn" <==> status == "partial_outage" || status == "scheduled"
    ensures symbol == "danger" <==> status !in GoodStatus && status !in WarnStatus
    ensures symbol == "good" || symbol == "warn" || symbol == "danger"
  {
    if status in GoodStatus then "good"
    else if status in WarnStatus then "warn"
    else "danger"
  }

}
