/** The metadata of a series or event, and the scan for its "description" field. */
module Description {
  import opened Results

  /** One metadata field: its identifier and its value. */
  datatype Field = Field(id: string, value: string)

  /** One metadata catalog of a resource, holding its fields in the server's order. */
  datatype Catalog = Catalog(fields: seq<Field>)

  const DescriptionId: string := "description"

  /** The value of the first field named "description", or nothing if there is none. */
  function DescriptionOf(fields: seq<Field>): Option<string>
  {
    if fields == [] then None
    else if fields[0].id == DescriptionId then Some(fields[0].value)
    else DescriptionOf(fields[1..])
  }

  /** `DescriptionOf` finds a value exactly when some field is named "description", and then
      it is the value of the first such field. */
  lemma {:induction false} DescriptionOfIsFirstMatch(fields: seq<Field>)
    ensures DescriptionOf(fields).None? <==> forall k :: 0 <= k < |fields| ==> fields[k].id != "description"
    ensures DescriptionOf(fields).Some? ==>
      exists k :: 0 <= k < |fields| && fields[k].id == "description" &&
        fields[k].value == DescriptionOf(fields).value &&
        forall j :: 0 <= j < k ==> fields[j].id != "description"
  {
    if fields != [] && fields[0].id != DescriptionId {
      var rest := fields[1..];
      DescriptionOfIsFirstMatch(rest);
      assert forall k :: 1 <= k < |fields| ==> fields[k] == rest[k - 1];
      if DescriptionOf(rest).Some? {
        var k :| 0 <= k < |rest| && rest[k].id == "description" &&
          rest[k].value == DescriptionOf(rest).value &&
          forall j :: 0 <= j < k ==> rest[j].id != "description";
        assert fields[k + 1] == rest[k];
      }
    }
  }

  /** The early-return loop over the fields of the first catalog. */
  method ScanDescription(fields: seq<Field>) returns (r: Option<string>)
    ensures r == DescriptionOf(fields)
  {
    var i := 0;
    while i < |fields|
      invariant 0 <= i <= |fields|
      invariant DescriptionOf(fields[i..]) == DescriptionOf(fields)
    {
      assert fields[i..][1..] == fields[i + 1..];
      if fields[i].id == DescriptionId {
        return Some(fields[i].value);
      }
      i := i + 1;
    }
    return None;
  }
}
