/** The remote lecture-capture platform as an in-memory store, the accessors the script
    builds on, and the mirror run itself. */
module Mirror {
  import opened Results
  import opened Acl
  import opened Scope
  import opened Description
  import opened Events

  /** The form body of a workflow start request. */
  datatype WorkflowRequest = WorkflowRequest(eventIdentifier: string, workflowDefinitionIdentifier: string)

  const RepublishMetadataWorkflow: string := "republish-metadata"

  /** What a completed mirror run reports. */
  datatype WorkDone = WorkDone(aclChanges: nat, republished: nat)

  /** How often `id` occurs in `ids`. */
  function Count(ids: seq<string>, id: string): nat
  {
    if ids == [] then 0
    else Count(ids[..|ids| - 1], id) + (if ids[|ids| - 1] == id then 1 else 0)
  }

  /** `n` copies of `g`, one after the other. */
  function Repeat(g: AclList, n: nat): AclList
  {
    if n == 0 then [] else Repeat(g, n - 1) + g
  }

  /** No identifier occurs twice. */
  ghost predicate Distinct(ids: seq<string>)
  {
    forall i, j :: 0 <= i < j < |ids| ==> ids[i] != ids[j]
  }

  /** The event ACLs after `g` was merged into the ACL of each event once per time that event
      occurs in `ids`; events that do not occur keep their ACL. */
  function Granted(acls: map<string, AclList>, ids: seq<string>, g: AclList): (r: map<string, AclList>)
    ensures r.Keys == acls.Keys
  {
    map e | e in acls :: acls[e] + Repeat(g, Count(ids, e))
  }

  /** Before any event is processed every ACL is as it was. */
  lemma GrantedNone(acls: map<string, AclList>, g: AclList)
    ensures Granted(acls, [], g) == acls
  {
    forall e | e in acls
      ensures Granted(acls, [], g)[e] == acls[e]
    {
      assert acls[e] + [] == acls[e];
    }
  }

  /** Processing one more listed event merges `g` into that event's ACL and nothing else. */
  lemma GrantedStep(acls: map<string, AclList>, ids: seq<string>, x: string, g: AclList)
    requires x in acls
    ensures Granted(acls, ids + [x], g) == Granted(acls, ids, g)[x := Granted(acls, ids, g)[x] + g]
  {
    assert (ids + [x])[..|ids|] == ids;
    var before, after := Granted(acls, ids, g), Granted(acls, ids + [x], g);
    forall e | e in acls
      ensures after[e] == before[x := before[x] + g][e]
    {
      if e == x {
        assert Repeat(g, Count(ids, x) + 1) == Repeat(g, Count(ids, x)) + g;
        assert acls[x] + Repeat(g, Count(ids, x)) + g == acls[x] + (Repeat(g, Count(ids, x)) + g);
      }
    }
  }

  /** `GrantedStep` for the prefix of a listing that ends at position `i`. */
  lemma GrantedStepAt(acls: map<string, AclList>, ids: seq<string>, i: nat, g: AclList)
    requires i < |ids| && ids[i] in acls
    ensures Granted(acls, ids[..i + 1], g) == Granted(acls, ids[..i], g)[ids[i] := Granted(acls, ids[..i], g)[ids[i]] + g]
  {
    assert ids[..i + 1] == ids[..i] + [ids[i]];
    GrantedStep(acls, ids[..i], ids[i], g);
  }

  /** In a list without repetitions an identifier occurs once if it occurs at all. */
  lemma {:induction false} CountDistinct(ids: seq<string>, id: string)
    requires Distinct(ids)
    ensures Count(ids, id) == if id in ids then 1 else 0
  {
    if ids != [] {
      var init := ids[..|ids| - 1];
      assert Distinct(init);
      CountDistinct(init, id);
      assert ids == init + [ids[|ids| - 1]];
      if ids[|ids| - 1] == id {
        assert id !in init;
      }
    }
  }

  /** An identifier that does not occur is counted zero times. */
  lemma {:induction false} CountAbsent(ids: seq<string>, id: string)
    requires id !in ids
    ensures Count(ids, id) == 0
  {
    if ids != [] {
      var init := ids[..|ids| - 1];
      assert forall x :: x in init ==> x in ids;
      CountAbsent(init, id);
    }
  }

  /** Whatever the listing, an event it does not name keeps its ACL. */
  lemma UnlistedAclKept(acls: map<string, AclList>, ids: seq<string>, g: AclList)
    ensures forall e :: e in acls && e !in ids ==> Granted(acls, ids, g)[e] == acls[e]
  {
    forall e | e in acls && e !in ids
      ensures Granted(acls, ids, g)[e] == acls[e]
    {
      CountAbsent(ids, e);
      assert acls[e] + [] == acls[e];
    }
  }

  /** When the listing names each event once, every listed event's ACL becomes its old ACL
      followed by the grants. */
  lemma GrantedOncePerDistinctId(acls: map<string, AclList>, ids: seq<string>, g: AclList)
    requires Distinct(ids)
    ensures forall e :: e in acls && e in ids ==> Granted(acls, ids, g)[e] == acls[e] + g
  {
    forall e | e in acls && e in ids
      ensures Granted(acls, ids, g)[e] == acls[e] + g
    {
      CountDistinct(ids, e);
      assert Repeat(g, 1) == g;
    }
  }

  /** The workflow requests that republish the metadata of the given events, in order. */
  function RepublishRequests(ids: seq<string>): (r: seq<WorkflowRequest>)
    ensures |r| == |ids|
    ensures forall k :: 0 <= k < |ids| ==> r[k] == WorkflowRequest(ids[k], "republish-metadata")
  {
    seq(|ids|, k requires 0 <= k < |ids| => WorkflowRequest(ids[k], RepublishMetadataWorkflow))
  }

  /** The server's state that the script reads and writes. */
  class Store {
    var seriesAcl: map<string, AclList>
    var eventAcl: map<string, AclList>
    /** The metadata catalogs of each series and event, first catalog first. */
    var seriesMetadata: map<string, seq<Catalog>>
    var eventMetadata: map<string, seq<Catalog>>
    /** The events of each series, in the order the server sorts them (title, descending). */
    var listing: map<string, seq<EventRecord>>
    /** Every workflow start request the script has issued, oldest first. */
    var workflows: seq<WorkflowRequest>

    constructor (seriesAcl: map<string, AclList>, eventAcl: map<string, AclList>,
                 seriesMetadata: map<string, seq<Catalog>>, eventMetadata: map<string, seq<Catalog>>,
                 listing: map<string, seq<EventRecord>>)
      ensures this.seriesAcl == seriesAcl && this.eventAcl == eventAcl
      ensures this.seriesMetadata == seriesMetadata && this.eventMetadata == eventMetadata
      ensures this.listing == listing && workflows == []
    {
      this.seriesAcl := seriesAcl;
      this.eventAcl := eventAcl;
      this.seriesMetadata := seriesMetadata;
      this.eventMetadata := eventMetadata;
      this.listing := listing;
      workflows := [];
    }

    /** Every event that the listing of a series shows has an ACL of its own. */
    ghost predicate Consistent()
      reads this`listing, this`eventAcl
    {
      forall s, k :: s in listing && 0 <= k < |FirstPage(listing[s])| ==>
        FirstPage(listing[s])[k].identifier in eventAcl
    }

    /** The events the server lists for a series: the first page of those that are part of it. */
    function Listing(seriesId: string): seq<EventRecord>
      reads this`listing
    {
      FirstPage(if seriesId in listing then listing[seriesId] else [])
    }

    /** The role name a mirror run derives from the description of a destination series. */
    ghost function DestinationRole(idTo: string): Option<string>
      reads this`seriesMetadata
    {
      if idTo in seriesMetadata && seriesMetadata[idTo] != [] then
        DescriptionOf(seriesMetadata[idTo][0].fields)
      else None
    }

    /** GET {scope}/{id}/acl: the stored ACL of a series or an event. */
    function GetAcl(id: string, series: bool, event: bool): (r: Result<AclList, Error>)
      reads this`seriesAcl, this`eventAcl
      ensures series == event ==> r == Err(if series then BothScopesSelected else NoScopeSelected)
      ensures series && !event ==>
        r == if id in seriesAcl then Ok(seriesAcl[id]) else Err(AclNotFound("series", id))
      ensures !series && event ==>
        r == if id in eventAcl then Ok(eventAcl[id]) else Err(AclNotFound("events", id))
    {
      match SeriesEventChecker(series, event)
      case Err(e) => Err(e)
      case Ok(scope) =>
        var acls := if scope == SeriesScope then seriesAcl else eventAcl;
        if id in acls then Ok(acls[id]) else Err(AclNotFound(scope, id))
    }

    /** PUT {scope}/{id}/acl: overwrite the ACL of a series or an event. The server ignores a
        write to a resource it does not have, and the script does not look at its answer. */
    method SetAcl(id: string, acl: AclList, series: bool, event: bool) returns (r: Result<(), Error>)
      modifies this`seriesAcl, this`eventAcl
      ensures r.Ok? <==> series != event
      ensures seriesAcl == if series && !event && id in old(seriesAcl) then old(seriesAcl)[id := acl] else old(seriesAcl)
      ensures eventAcl == if !series && event && id in old(eventAcl) then old(eventAcl)[id := acl] else old(eventAcl)
    {
      var scope := SeriesEventChecker(series, event);
      if scope.Err? {
        return Err(scope.error);
      }
      if scope.value == SeriesScope {
        if id in seriesAcl {
          seriesAcl := seriesAcl[id := acl];
        }
      } else if id in eventAcl {
        eventAcl := eventAcl[id := acl];
      }
      return Ok(());
    }

    /** GET {scope}/{id}/metadata, then the description in the first catalog's fields. */
    method GetDescription(id: string, series: bool, event: bool) returns (r: Result<Option<string>, Error>)
      ensures series == event ==> r == Err(if series then BothScopesSelected else NoScopeSelected)
      ensures series != event ==>
        var md := if series then seriesMetadata else eventMetadata;
        r == if id !in md then Err(MetadataNotFound(if series then "series" else "events", id))
             else if md[id] == [] then Err(NoMetadataCatalog(id))
             else Ok(DescriptionOf(md[id][0].fields))
    {
      var scope := SeriesEventChecker(series, event);
      if scope.Err? {
        return Err(scope.error);
      }
      var md: map<string, seq<Catalog>> := if scope.value == SeriesScope then seriesMetadata else eventMetadata;
      if id !in md {
        return Err(MetadataNotFound(scope.value, id));
      }
      if md[id] == [] {
        return Err(NoMetadataCatalog(id));
      }
      var description := ScanDescription(md[id][0].fields);
      return Ok(description);
    }

    /** The identifiers of a series' events in listing order: all of them, or only the
        published ones. */
    method GetPublishedSeriesEvents(seriesId: string, allEvents: bool) returns (ids: seq<string>)
      ensures ids == Selected(Listing(seriesId), allEvents)
    {
      var page := Listing(seriesId);
      ids := [];
      var i := 0;
      while i < |page|
        invariant 0 <= i <= |page|
        invariant ids == Selected(page[..i], allEvents)
      {
        assert page[..i + 1][..i] == page[..i];
        if allEvents {
          ids := ids + [page[i].identifier];
        } else if EngagePlayer in page[i].publicationStatus {
          ids := ids + [page[i].identifier];
        }
        i := i + 1;
      }
      assert page[..|page|] == page;
    }

    /** POST workflows: start the metadata republish workflow for one event. */
    method RepublishSingleMetadata(eventId: string)
      modifies this`workflows
      ensures workflows == old(workflows) + [WorkflowRequest(eventId, RepublishMetadataWorkflow)]
    {
      workflows := workflows + [WorkflowRequest(eventId, RepublishMetadataWorkflow)];
    }

    /** Start the republish workflow for each event, one after the other. */
    method RepublishMetadata(ids: seq<string>)
      modifies this`workflows
      ensures workflows == old(workflows) + RepublishRequests(ids)
    {
      for i := 0 to |ids|
        invariant workflows == old(workflows) + RepublishRequests(ids[..i])
      {
        assert RepublishRequests(ids[..i + 1]) == RepublishRequests(ids[..i]) + [WorkflowRequest(ids[i], RepublishMetadataWorkflow)];
        RepublishSingleMetadata(ids[i]);
      }
      assert ids[..|ids|] == ids;
    }

    /** In a consistent store every event listed under a series has an ACL. */
    lemma ListedEventsHaveAcls(seriesId: string)
      requires Consistent()
      ensures forall e :: e in AllIds(seriesId) ==> e in eventAcl
    {
      var page := Listing(seriesId);
      SelectedAllIsEveryId(page);
      forall e | e in AllIds(seriesId)
        ensures e in eventAcl
      {
        var k :| 0 <= k < |page| && AllIds(seriesId)[k] == e;
        assert seriesId in listing;
      }
    }

    /** The identifiers of all events listed under a series. */
    ghost function AllIds(seriesId: string): seq<string>
      reads this`listing
    {
      Selected(Listing(seriesId), true)
    }

    /** The identifiers of the published events listed under a series. */
    ghost function PublishedIds(seriesId: string): seq<string>
      reads this`listing
    {
      Selected(Listing(seriesId), false)
    }

    /** The loop over a series' events: fetch each event's ACL, merge the grants into it and
        write it back, stopping at the first event that has no ACL. */
    method MergeIntoEventAcls(eventIds: seq<string>, aclLearner: AclList, aclInstructor: AclList)
      returns (r: Result<(), Error>)
      modifies this`seriesAcl, this`eventAcl
      ensures seriesAcl == old(seriesAcl)
      ensures eventAcl.Keys == old(eventAcl).Keys
      ensures r.Ok? <==> forall e :: e in eventIds ==> e in old(eventAcl)
      ensures r.Ok? ==> eventAcl == Granted(old(eventAcl), eventIds, aclLearner + aclInstructor)
      ensures r.Err? ==>
        exists k :: 0 <= k < |eventIds| && eventIds[k] !in old(eventAcl) &&
          (forall j :: 0 <= j < k ==> eventIds[j] in old(eventAcl)) &&
          r == Err(AclNotFound("events", eventIds[k])) &&
          eventAcl == Granted(old(eventAcl), eventIds[..k], aclLearner + aclInstructor)
    {
      ghost var grants := aclLearner + aclInstructor;
      GrantedNone(old(eventAcl), grants);
      var i := 0;
      while i < |eventIds|
        invariant 0 <= i <= |eventIds|
        invariant seriesAcl == old(seriesAcl)
        invariant forall j :: 0 <= j < i ==> eventIds[j] in old(eventAcl)
        invariant eventAcl == Granted(old(eventAcl), eventIds[..i], grants)
      {
        var eventId := eventIds[i];
        var eventAclNow := GetAcl(eventId, false, true);
        if eventAclNow.Err? {
          return Err(eventAclNow.error);
        }
        GrantedStepAt(old(eventAcl), eventIds, i, grants);
        MergeAppendsBlock(eventAclNow.value, aclLearner, aclInstructor);
        var _ := SetAcl(eventId, Merge(eventAclNow.value, aclLearner, aclInstructor), false, true);
        i := i + 1;
      }
      assert eventIds[..i] == eventIds;
      return Ok(());
    }

    /** The second half of a mirror run: merge the grants into the ACL of every event listed
        under the series, then republish the published ones and report the counts. */
    method MirrorEvents(seriesId: string, aclLearner: AclList, aclInstructor: AclList)
      returns (r: Result<WorkDone, Error>)
      modifies this`seriesAcl, this`eventAcl, this`workflows
      ensures seriesAcl == old(seriesAcl)
      ensures eventAcl.Keys == old(eventAcl).Keys
      ensures r.Ok? <==> forall e :: e in AllIds(seriesId) ==> e in old(eventAcl)
      ensures r.Ok? ==> eventAcl == Granted(old(eventAcl), AllIds(seriesId), aclLearner + aclInstructor)
      ensures r.Ok? ==> workflows == old(workflows) + RepublishRequests(PublishedIds(seriesId))
      ensures r.Ok? ==> r.value == WorkDone(|AllIds(seriesId)|, |PublishedIds(seriesId)|)
      ensures r.Ok? ==> r.value.republished <= r.value.aclChanges
      ensures r.Err? ==> workflows == old(workflows)
      ensures r.Err? ==>
        exists k :: 0 <= k < |AllIds(seriesId)| && AllIds(seriesId)[k] !in old(eventAcl) &&
          (forall j :: 0 <= j < k ==> AllIds(seriesId)[j] in old(eventAcl)) &&
          r == Err(AclNotFound("events", AllIds(seriesId)[k])) &&
          eventAcl == Granted(old(eventAcl), AllIds(seriesId)[..k], aclLearner + aclInstructor)
    {
      var eventIdsFrom := GetPublishedSeriesEvents(seriesId, true);
      var nAll := |eventIdsFrom|;
      var merged := MergeIntoEventAcls(eventIdsFrom, aclLearner, aclInstructor);
      if merged.Err? {
        return Err(merged.error);
      }
      var published := GetPublishedSeriesEvents(seriesId, false);
      var nRepublish := |published|;
      PublishedNoLonger(Listing(seriesId));
      RepublishMetadata(published);
      return Ok(WorkDone(nAll, nRepublish));
    }

    /** Merge the grants of the destination's role name into the ACL of the source series and
        of each of its events, then republish the published events. */
    method MirrorSeries(idFrom: string, idTo: string) returns (r: Result<WorkDone, Error>)
      modifies this`seriesAcl, this`eventAcl, this`workflows
      ensures seriesAcl.Keys == old(seriesAcl).Keys && eventAcl.Keys == old(eventAcl).Keys
      // when the run succeeds
      ensures r.Ok? <==> idFrom in old(seriesAcl) && DestinationRole(idTo).Some? &&
                         forall e :: e in AllIds(idFrom) ==> e in old(eventAcl)
      ensures old(Consistent()) ==> Consistent()
      ensures old(Consistent()) ==> (r.Ok? <==> idFrom in old(seriesAcl) && DestinationRole(idTo).Some?)
      // why it fails, in the order the script finds out
      ensures idFrom !in old(seriesAcl) ==> r == Err(AclNotFound("series", idFrom))
      ensures idFrom in old(seriesAcl) && idTo !in seriesMetadata ==> r == Err(MetadataNotFound("series", idTo))
      ensures idFrom in old(seriesAcl) && idTo in seriesMetadata && seriesMetadata[idTo] == [] ==>
        r == Err(NoMetadataCatalog(idTo))
      ensures (idFrom in old(seriesAcl) && idTo in seriesMetadata && seriesMetadata[idTo] != [] &&
               DescriptionOf(seriesMetadata[idTo][0].fields).None?) ==> r == Err(NoDescription(idTo))
      // no ACL is written before the role name is known
      ensures idFrom !in old(seriesAcl) || DestinationRole(idTo).None? ==>
        seriesAcl == old(seriesAcl) && eventAcl == old(eventAcl)
      // the source series' ACL gets the three grants; no other series ACL is written
      ensures idFrom in old(seriesAcl) && DestinationRole(idTo).Some? ==>
        seriesAcl == old(seriesAcl)[idFrom := old(seriesAcl)[idFrom] + Grants(DestinationRole(idTo).value)]
      ensures idTo != idFrom && idTo in old(seriesAcl) ==> seriesAcl[idTo] == old(seriesAcl)[idTo]
      // each listed event's ACL gets the three grants, up to the first event without an ACL
      ensures r.Ok? ==> eventAcl == Granted(old(eventAcl), AllIds(idFrom), Grants(DestinationRole(idTo).value))
      ensures r.Err? && idFrom in old(seriesAcl) && DestinationRole(idTo).Some? ==>
        exists k :: 0 <= k < |AllIds(idFrom)| && AllIds(idFrom)[k] !in old(eventAcl) &&
          (forall j :: 0 <= j < k ==> AllIds(idFrom)[j] in old(eventAcl)) &&
          r == Err(AclNotFound("events", AllIds(idFrom)[k])) &&
          eventAcl == Granted(old(eventAcl), AllIds(idFrom)[..k], Grants(DestinationRole(idTo).value))
      // the published events are republished, in listing order, only by a completed run
      ensures r.Ok? ==> workflows == old(workflows) + RepublishRequests(PublishedIds(idFrom))
      ensures r.Err? ==> workflows == old(workflows)
      ensures r.Ok? ==> r.value == WorkDone(|AllIds(idFrom)|, |PublishedIds(idFrom)|)
      ensures r.Ok? ==> r.value.republished <= r.value.aclChanges
    {
      var aclFrom := GetAcl(idFrom, true, false);
      if aclFrom.Err? {
        return Err(aclFrom.error);
      }
      var desc := GetDescription(idTo, true, false);
      if desc.Err? {
        r := Err(desc.error);
      } else if desc.value.None? {
        // the script fails here, concatenating the missing role name
        r := Err(NoDescription(idTo));
      } else {
        var role := desc.value.value;
        assert DestinationRole(idTo) == Some(role);
        var aclLearner := LearnerEntries(role);
        var aclInstructor := InstructorEntries(role);
        MergeAddsThreeGrants(aclFrom.value, role);
        var _ := SetAcl(idFrom, Merge(aclFrom.value, aclLearner, aclInstructor), true, false);
        if old(Consistent()) {
          ListedEventsHaveAcls(idFrom);
        }
        r := MirrorEvents(idFrom, aclLearner, aclInstructor);
      }
    }
  }
}
