/** Resolution of the series/event flags into the resource kind of a URL. */
module Scope {
  import opened Results

  const SeriesScope: string := "series"
  const EventsScope: string := "events"

  /** Exactly one of the two flags must be set; it picks "series" or "events". */
  function SeriesEventChecker(series: bool, event: bool): (r: Result<string, Error>)
    ensures r.Ok? <==> series != event
    ensures !series && !event ==> r == Err(NoScopeSelected)
    ensures series && event ==> r == Err(BothScopesSelected)
    ensures series && !event ==> r == Ok("series")
    ensures !series && event ==> r == Ok("events")
  {
    if !(series || event) then Err(NoScopeSelected)
    else if series && event then Err(BothScopesSelected)
    else if series then Ok(SeriesScope)
    else Ok(EventsScope)
  }
}
