/** A client of the store: one source series with one published event, mirrored against a
    destination whose description is a role name. Only the contracts of the store are used. */
module Scenario {
  import opened Results
  import opened Acl
  import opened Description
  import opened Events
  import opened Mirror

  /** The three grants for the role name "ROLE_B". */
  lemma GrantsOfRoleB()
    ensures Grants("ROLE_B") == [AclEntry(true, "ROLE_B_Learner", "read"),
                                 AclEntry(true, "ROLE_B_Instructor", "read"),
                                 AclEntry(true, "ROLE_B_Instructor", "write")]
  {
    assert "ROLE_B" + "_Learner" == "ROLE_B_Learner";
    assert "ROLE_B" + "_Instructor" == "ROLE_B_Instructor";
  }

  /** A listing of one published event selects that event both with and without the filter. */
  lemma OnePublishedEventListing(e: EventRecord)
    requires IsPublished(e)
    ensures Selected(FirstPage([e]), true) == [e.identifier]
    ensures Selected(FirstPage([e]), false) == [e.identifier]
  {
  }

  method MirrorOnePublishedEvent()
  {
    var roleA := AclEntry(true, "ROLE_A_Learner", "read");
    var e1 := EventRecord("E1", ["engage-player"]);
    var fields := [Field("title", "Course"), Field("description", "ROLE_B")];
    var store := new Store(map["S1" := [roleA], "S2" := []], map["E1" := []],
                           map["S2" := [Catalog(fields)]], map[], map["S1" := [e1]]);
    OnePublishedEventListing(e1);
    assert store.AllIds("S1") == ["E1"] && store.PublishedIds("S1") == ["E1"];
    assert store.DestinationRole("S2") == Some("ROLE_B");

    var r := store.MirrorSeries("S1", "S2");
    assert r == Ok(WorkDone(1, 1));
    GrantsOfRoleB();
    assert store.seriesAcl["S1"] == [roleA] + Grants("ROLE_B");
    assert store.seriesAcl["S2"] == [];
    GrantedOncePerDistinctId(map["E1" := []], ["E1"], Grants("ROLE_B"));
    assert store.eventAcl["E1"] == [] + Grants("ROLE_B");
    assert store.workflows == [WorkflowRequest("E1", "republish-metadata")];
  }
}
