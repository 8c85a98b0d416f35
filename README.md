# Opencast ACL mirroring: a verified model

This project models the script `main.py`, which merges role grants into the access-control
lists (ACLs) of a series and its recordings on an Opencast server. A series' ACL is read. The
description of a second series is read as a role name. Three grants for that role are
appended: a learner read, an instructor read and an instructor write. The merged ACL is
written back, and the same is done to the ACL of every recording ("event") listed under the
first series. Finally the metadata republish workflow is started for each event that is
published in the public player ("engage-player"). The run reports both counts.

The server is replaced by the class `Mirror.Store`. Its fields are:

- the series ACLs and the event ACLs;
- the metadata catalogs of series and events;
- each series' event listing;
- the log of workflow start requests.

A GET becomes a read of those fields, a PUT an update, and a POST an append to the log. Each
failure the model keeps becomes an `Err` of `Results.Error`; the listing GET and the workflow
POST never fail in the model (see "## Left out").

Modules, one per part of `main.py`:

- `Results`: `Option`, `Result` and the error kinds.
- `Acl`: `ACLEntry`, `ACLEntryLearner`, `ACLEntryInstructor` and the ACL merge, which is concatenation.
- `Scope`: `seriesEventChecker`.
- `Description`: the scan of the metadata fields for `"description"`.
- `Events`: event records, the first-page limit and the `engage-player` filter.
- `Mirror`: the store, `getACL`, `setACL`, `getDescription`, `getPublishedSeriesEvents`,
  `republishSingleMetadata`, `republishMetadata` and `mirrorSeries`.
- `Scenario`: a client that runs one mirror on a one-event series and checks the outcome from
  the contracts alone.

`getSeriesACL`, `getEventACL` and `getSeriesDescription` are `GetAcl` and `GetDescription`
with the flags fixed. They have no members of their own.

Behaviour worth noting:

- The merged ACL is written back to the SOURCE series (`idFrom`) and its events. The role name
  comes from the DESTINATION series (`idTo`), and `idTo`'s own ACL is never written. The model
  keeps this direction.
- A missing description stops the run. `getDescription` returns `None`, and the next
  line of `mirrorSeries` (`None + "_Learner"`) raises. So the run stops after reading the
  source ACL and before any write. This is `Err(NoDescription(idTo))`.
- If an event appears twice in a listing, it gets the grants twice: the loop has no
  deduplication. `Granted` counts occurrences. `GrantedOncePerDistinctId` gives the usual
  "old ACL followed by the three grants" when every event appears once. `UnlistedAclKept`
  shows that an event the listing does not name keeps its ACL, whatever the listing holds.

## Model

| member | source | states |
|---|---|---|
| Acl.Entry | main.py:42-43 | a one-element ACL holding exactly the given allow flag, role and action |
| Acl.LearnerEntries | main.py:46-49 | exactly one entry: allow, role `r + "_Learner"`, action `read` |
| Acl.InstructorEntries | main.py:52-59 | exactly two entries for role `r + "_Instructor"`, both allow; the first reads, the second writes |
| Acl.Merge | main.py:135 | the merged ACL keeps the base ACL as its prefix, then the learner entries, then the instructor entries; its length is the sum (no deduplication) |
| Acl.MergeAddsThreeGrants | main.py:133-135 | merging a role's grants into any ACL keeps that ACL and adds exactly three entries: learner read, instructor read, instructor write |
| Acl.LearnerNeverInstructor | main.py:47 | a learner role name never equals an instructor role name, for any two base roles |
| Acl.OnlyInstructorWrites | main.py:46-59 | every grant allows; only the instructor role gets `write`; the learner role only reads |
| Scope.SeriesEventChecker | main.py:181-192 | fails when neither flag is set and when both are; otherwise gives `series` for the series flag and `events` for the event flag |
| Description.DescriptionOfIsFirstMatch | main.py:82-84 | a description is found exactly when some field has id `description`, and it is the value of the first such field |
| Description.ScanDescription | main.py:82-84 | the early-return loop returns the value of the first `description` field, or nothing |
| Events.FirstPage | main.py:111 | the server's answer holds at most the first 100 events of the listing, in order |
| Events.SelectedAllIsEveryId | main.py:115-117 | with `allEvents`, every identifier of the listing is returned, in listing order |
| Events.SelectedPublishedIsExact | main.py:115-122 | without `allEvents`, the result picks from the unfiltered result at strictly increasing positions, and picks a position if and only if that event's status contains `engage-player` |
| Events.PublishedNoLonger | main.py:140-149 | the published identifiers are never more than all identifiers |
| Events.TruncatedAtPageLimit | main.py:111 | a series with 101 events yields only the first 100 identifiers |
| Mirror.GrantedStep | main.py:142-146 | handling one more listed event appends the grants to that event's ACL and changes no other ACL |
| Mirror.GrantedOncePerDistinctId | main.py:142-146 | when each event appears once in the listing, a listed event's ACL becomes its old ACL followed by the grants |
| Mirror.CountAbsent | main.py:142 | an event the listing does not name is visited zero times by the loop |
| Mirror.UnlistedAclKept | main.py:142-146 | for any listing, repeated entries included, an event it does not name keeps its ACL |
| Mirror.RepublishRequests | main.py:94 | one request per event, in order, naming the event and the `republish-metadata` workflow |
| Mirror.Store.GetAcl | main.py:26-31 | the scope flags choose the series or the event ACLs; the stored ACL is returned, or the run fails on an unknown id or on a bad flag combination |
| Mirror.Store.SetAcl | main.py:34-39 | overwrites only the ACL of the chosen id in the chosen scope, and fails only on a bad flag combination |
| Mirror.Store.GetDescription | main.py:74-84 | fails on bad flags, on unknown metadata and on an empty catalog list; otherwise gives the description of the first catalog, or nothing |
| Mirror.Store.GetPublishedSeriesEvents | main.py:109-122 | the loop returns exactly the selected identifiers of the series' listing, in listing order |
| Mirror.Store.RepublishSingleMetadata | main.py:91-97 | logs exactly one `republish-metadata` request for the event |
| Mirror.Store.RepublishMetadata | main.py:100-102 | logs one request per given event, in order, after the earlier ones |
| Mirror.Store.ListedEventsHaveAcls | main.py:139-146 | in a consistent store every event listed under a series has an ACL, so the event loop cannot fail |
| Mirror.Store.MergeIntoEventAcls | main.py:142-146 | succeeds if and only if every listed event has an ACL; then each has the grants appended once per listing entry; otherwise it stops at the first event without an ACL and keeps the writes made before it |
| Mirror.Store.MirrorEvents | main.py:139-152 | merges into every listed event's ACL; on success, republishes exactly the published events in listing order and reports both counts, with republished <= aclChanges |
| Mirror.Store.MirrorSeries | main.py:129-152 | succeeds if and only if the source ACL, the destination's role name and every listed event's ACL exist. The source series' ACL gains exactly the three grants and `idTo`'s ACL is not written. Event ACLs gain the grants. The published events are republished in order. The counts are the listing sizes. Each failure has its error and its partial state, and consistency is preserved |
| Scenario.GrantsOfRoleB | main.py:46-59 | support for the end-to-end client `Scenario.MirrorOnePublishedEvent`: the grants for `ROLE_B` are `ROLE_B_Learner` read, `ROLE_B_Instructor` read and write |
| Scenario.OnePublishedEventListing | main.py:115-122 | support for the end-to-end client `Scenario.MirrorOnePublishedEvent`: a listing of one published event yields that event with and without the filter |

## Left out

- HTTP, credentials and URL building (main.py:10-11, 28-30, 36-38, 95, 195-199): these are network I/O. GETs, PUTs and POSTs are reads and writes of the store.
- JSON encoding and decoding of responses and of the `acl` form field (main.py:96, 136, 145, 197-198): this is library serialisation. The store holds ACL lists directly.
- Mirror.Store.SetAcl: the server's answer to a PUT for an unknown id is not modelled. The model assumes it stores nothing, and the script ignores the answer. The caller only writes ids it has just read.
- Mirror.Store.RepublishSingleMetadata: the workflow's server-side effect and its JSON answer are not modelled. Only the request is logged.
- Events.FirstPage: the limit of 100 is an assumption about the server's answer to `limit=100`. It is not code the script runs. Sorting by title is taken as the listing order the store is given.
- Failures inside server answers (non-JSON bodies, missing `identifier`, `publication_status`, `fields`, `id` or `value` keys): every record is modelled as well-formed.
- `seriesSearch`, `seriesSearchFrom`, `seriesSearchTo` and `main` (main.py:154-179, 206-223): interactive input, printing and command-line handling.
- `getEventDescription` (main.py:70-71): no caller in the script uses it. `GetDescription` covers it with the event flag.
