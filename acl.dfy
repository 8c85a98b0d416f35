/** ACL entries, the role grants derived from a role name, and the merge of ACLs. */
module Acl {

  /** One grant of an access-control list. */
  datatype AclEntry = AclEntry(allow: bool, role: string, action: string)

  /** An ACL is an ordered list of grants; duplicates are kept. */
  type AclList = seq<AclEntry>

  const LearnerSuffix: string := "_Learner"
  const InstructorSuffix: string := "_Instructor"
  const ReadAction: string := "read"
  const WriteAction: string := "write"

  /** A one-element ACL holding the given grant. */
  function Entry(allow: bool, role: string, action: string): (r: AclList)
    ensures |r| == 1
    ensures r[0].allow == allow && r[0].role == role && r[0].action == action
  {
    [AclEntry(allow, role, action)]
  }

  /** The learner grant: read access for `role` + "_Learner". */
  function LearnerEntries(role: string): (r: AclList)
    ensures |r| == 1
    ensures r[0].allow && r[0].role == role + "_Learner" && r[0].action == "read"
  {
    Entry(true, role + LearnerSuffix, ReadAction)
  }

  /** The instructor grants: read, then write, for `role` + "_Instructor". */
  function InstructorEntries(role: string): (r: AclList)
    ensures |r| == 2
    ensures r[0].allow && r[0].role == role + "_Instructor" && r[0].action == "read"
    ensures r[1].allow && r[1].role == role + "_Instructor" && r[1].action == "write"
  {
    var instructor := role + InstructorSuffix;
    var aclRead := Entry(true, instructor, ReadAction)[0];
    var aclWrite := Entry(true, instructor, WriteAction)[0];
    [aclRead, aclWrite]
  }

  /** Merging is plain concatenation: no entry is removed, reordered or deduplicated. */
  function Merge(base: AclList, learner: AclList, instructor: AclList): (r: AclList)
    ensures |r| == |base| + |learner| + |instructor|
    ensures r[..|base|] == base
    ensures r[|base|..|base| + |learner|] == learner
    ensures r[|base| + |learner|..] == instructor
  {
    base + learner + instructor
  }

  /** Merging appends the learner and the instructor entries as one block. */
  lemma MergeAppendsBlock(base: AclList, learner: AclList, instructor: AclList)
    ensures Merge(base, learner, instructor) == base + (learner + instructor)
  {
  }

  /** The three grants that a mirror run adds to every ACL it touches. */
  function Grants(role: string): AclList
  {
    LearnerEntries(role) + InstructorEntries(role)
  }

  /** Merging the grants of `role` into any ACL keeps that ACL as a prefix and adds exactly
      three entries: one learner read, one instructor read and one instructor write. */
  lemma MergeAddsThreeGrants(base: AclList, role: string)
    ensures Merge(base, LearnerEntries(role), InstructorEntries(role)) == base + Grants(role)
    ensures |base + Grants(role)| == |base| + 3
    ensures (base + Grants(role))[|base|] == AclEntry(true, role + "_Learner", "read")
    ensures (base + Grants(role))[|base| + 1] == AclEntry(true, role + "_Instructor", "read")
    ensures (base + Grants(role))[|base| + 2] == AclEntry(true, role + "_Instructor", "write")
  {
  }

  /** A learner role name never equals an instructor role name, whatever the two base roles:
      the write grant added by a mirror run can never land on a learner role. */
  lemma LearnerNeverInstructor(r1: string, r2: string)
    ensures r1 + LearnerSuffix != r2 + InstructorSuffix
  {
    var a, b := r1 + LearnerSuffix, r2 + InstructorSuffix;
    if |a| == |b| {
      // eight characters from the end: '_' in "_Learner", 's' in "_Instructor"
      assert a[|a| - 8] == LearnerSuffix[0] == '_';
      assert b[|b| - 8] == InstructorSuffix[3] == 's';
    }
  }

  /** Of the grants for a role, exactly the instructor's may write, and every grant allows. */
  lemma OnlyInstructorWrites(role: string)
    ensures forall k :: 0 <= k < |Grants(role)| ==> Grants(role)[k].allow
    ensures forall k :: 0 <= k < |Grants(role)| ==>
      (Grants(role)[k].action == WriteAction ==> Grants(role)[k].role == role + InstructorSuffix)
    ensures forall k :: 0 <= k < |Grants(role)| && Grants(role)[k].role == role + LearnerSuffix ==>
      Grants(role)[k].action == ReadAction
  {
  }
}
