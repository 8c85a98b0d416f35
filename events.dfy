/** The listing of a series' events and the filter on publication status. */
module Events {

  /** An event as the listing reports it: its identifier and the channels it is published on. */
  datatype EventRecord = EventRecord(identifier: string, publicationStatus: seq<string>)

  /** The public player channel. */
  const EngagePlayer: string := "engage-player"

  /** The page size the listing query asks for. */
  const PageLimit: nat := 100

  /** An event is published when the public player is one of its channels. */
  predicate IsPublished(e: EventRecord)
  {
    EngagePlayer in e.publicationStatus
  }

  /** The server answers a listing query with at most the first `PageLimit` events. */
  function FirstPage(events: seq<EventRecord>): (r: seq<EventRecord>)
    ensures |r| <= PageLimit && |r| <= |events|
    ensures |events| <= PageLimit ==> r == events
    ensures |events| > PageLimit ==> |r| == PageLimit
    ensures r == events[..|r|]
  {
    if |events| <= PageLimit then events else events[..PageLimit]
  }

  /** The identifiers the listing loop collects, in listing order: all of them, or only those
      of published events. Defined on the last event, as the loop appends. */
  function Selected(events: seq<EventRecord>, allEvents: bool): seq<string>
  {
    if events == [] then []
    else
      var last := events[|events| - 1];
      Selected(events[..|events| - 1], allEvents) +
        (if allEvents || IsPublished(last) then [last.identifier] else [])
  }

  /** With `allEvents`, every identifier of the listing comes back, in listing order. */
  lemma {:induction false} SelectedAllIsEveryId(events: seq<EventRecord>)
    ensures |Selected(events, true)| == |events|
    ensures forall k :: 0 <= k < |events| ==> Selected(events, true)[k] == events[k].identifier
  {
    if events != [] {
      SelectedAllIsEveryId(events[..|events| - 1]);
    }
  }

  /** The positions, in increasing order, of the published events of a listing. */
  function PublishedPositions(events: seq<EventRecord>): seq<nat>
  {
    if events == [] then []
    else
      PublishedPositions(events[..|events| - 1]) +
        (if IsPublished(events[|events| - 1]) then [|events| - 1] else [])
  }

  /** `p` picks, by strictly increasing positions, the elements of `sub` out of `full`. */
  ghost predicate PicksInOrder<T>(sub: seq<T>, full: seq<T>, p: seq<nat>)
  {
    |p| == |sub| &&
    (forall j :: 0 <= j < |p| ==> p[j] < |full| && sub[j] == full[p[j]]) &&
    (forall i, j :: 0 <= i < j < |p| ==> p[i] < p[j])
  }

  /** Without `allEvents` the result is exactly the identifiers of the published events, in
      listing order: they are picked at increasing positions, and a position is picked if and
      only if the event there is published. */
  lemma {:induction false} SelectedPublishedIsExact(events: seq<EventRecord>)
    ensures PicksInOrder(Selected(events, false), Selected(events, true), PublishedPositions(events))
    ensures forall k :: 0 <= k < |events| ==> (IsPublished(events[k]) <==> k in PublishedPositions(events))
  {
    SelectedAllIsEveryId(events);
    if events != [] {
      var n := |events| - 1;
      var init := events[..n];
      SelectedPublishedIsExact(init);
      SelectedAllIsEveryId(init);
      assert forall k :: 0 <= k < n ==> init[k] == events[k];
      PositionsBelow(init);
    }
  }

  /** Every recorded position lies inside the listing. */
  lemma {:induction false} PositionsBelow(events: seq<EventRecord>)
    ensures forall j :: 0 <= j < |PublishedPositions(events)| ==> PublishedPositions(events)[j] < |events|
  {
    if events != [] {
      PositionsBelow(events[..|events| - 1]);
    }
  }

  /** The published identifiers are never more than all identifiers. */
  lemma {:induction false} PublishedNoLonger(events: seq<EventRecord>)
    ensures |Selected(events, false)| <= |Selected(events, true)|
  {
    if events != [] {
      PublishedNoLonger(events[..|events| - 1]);
    }
  }

  /** A series with 101 events yields only the first 100 identifiers: the listing is never
      paged further. */
  lemma TruncatedAtPageLimit(events: seq<EventRecord>)
    requires |events| == PageLimit + 1
    ensures Selected(FirstPage(events), true) == Selected(events[..PageLimit], true)
    ensures |Selected(FirstPage(events), true)| == PageLimit
  {
    SelectedAllIsEveryId(FirstPage(events));
  }
}
