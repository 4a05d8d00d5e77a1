/**
 * The group service: domain groups with case-insensitively unique names,
 * partial updates, deletion that detaches the group's domains, assignment of
 * a domain to a group, and the integer counts of a group's statistics.
 */
module GroupService {
  import opened Common
  import opened Text
  import opened Queries
  import opened Entities
  import opened Store
  import DomainService

  datatype CreateGroupRequest = CreateGroupRequest(
    name: string,
    description: Option<string>,
    color: Option<string>,
    icon: Option<string>,
    enabled: bool)

  /** Every field optional: `None` leaves the stored value as it is. */
  datatype UpdateGroupRequest = UpdateGroupRequest(
    name: Option<string>,
    description: Option<string>,
    color: Option<string>,
    icon: Option<string>,
    enabled: Option<bool>)

  datatype GroupDto = GroupDto(
    id: Id,
    name: string,
    description: Option<string>,
    color: Option<string>,
    icon: Option<string>,
    enabled: bool,
    domainCount: nat,
    createdAt: Instant,
    updatedAt: Instant)

  /** The outcome of a create: the new group, or the name-exists exception. */
  datatype CreateResult = Created(group: GroupDto) | NameExists

  /** The outcome of an update: `true`, `false` (no such group), or the name-exists exception. */
  datatype UpdateResult = Updated | GroupNotFound | NameConflict

  // Keys and names.

  predicate UniqueGroupIds(gs: seq<DomainGroup>) {
    forall i, j :: 0 <= i < |gs| && 0 <= j < |gs| && gs[i].id == gs[j].id ==> i == j
  }

  /** No two groups have names that are equal ignoring case. */
  predicate UniqueNames(gs: seq<DomainGroup>) {
    forall i, j :: 0 <= i < |gs| && 0 <= j < |gs| && ToLower(gs[i].name) == ToLower(gs[j].name) ==> i == j
  }

  predicate ValidGroups(gs: seq<DomainGroup>) {
    UniqueGroupIds(gs) && UniqueNames(gs)
  }

  predicate HasGroup(gs: seq<DomainGroup>, id: Id) {
    exists i :: 0 <= i < |gs| && gs[i].id == id
  }

  /** `FindAsync(id)` on the groups table. */
  function FindGroup(gs: seq<DomainGroup>, id: Id): (r: Option<nat>)
    ensures r.None? <==> !HasGroup(gs, id)
    ensures r.Some? ==> r.value < |gs| && gs[r.value].id == id
  {
    if |gs| == 0 then None
    else if gs[0].id == id then Some(0)
    else
      var rest := FindGroup(gs[1..], id);
      if rest.None? then
        assert forall i :: 1 <= i < |gs| ==> gs[i] == gs[1..][i - 1];
        None
      else Some(rest.value + 1)
  }

  /** `s?.Trim()`. */
  function TrimOpt(s: Option<string>): Option<string> {
    if s.None? then None else Some(Trim(s.value))
  }

  function DtoOf(g: DomainGroup, domainCount: nat): GroupDto {
    GroupDto(g.id, g.name, g.description, g.color, g.icon, g.enabled, domainCount, g.createdAt, g.updatedAt)
  }

  /** The new row of `CreateGroupAsync`: the name trimmed, the optional texts trimmed when given. */
  function NewGroup(request: CreateGroupRequest, id: Id, now: Instant): DomainGroup {
    DomainGroup(id, Trim(request.name), TrimOpt(request.description), TrimOpt(request.color),
                TrimOpt(request.icon), request.enabled, now, now)
  }

  // Creation, as written: the existing-name query compares the request name
  // lower-cased but not trimmed, while the stored name is trimmed.

  /** The existing-name query of `CreateGroupAsync` as written. */
  predicate NameExistsAsWritten(gs: seq<DomainGroup>, name: string) {
    exists g :: g in gs && ToLower(g.name) == ToLower(name)
  }

  /** The groups table after `CreateGroupAsync` as written; `None` for the exception. */
  function CreateAsWritten(gs: seq<DomainGroup>, request: CreateGroupRequest, id: Id, now: Instant)
    : (r: Option<seq<DomainGroup>>)
    ensures r.None? <==> NameExistsAsWritten(gs, request.name)
    ensures r.Some? ==> r.value == gs + [NewGroup(request, id, now)]
  {
    if NameExistsAsWritten(gs, request.name) then None else Some(gs + [NewGroup(request, id, now)])
  }

  /** With a group "ops", a request for "OPS " passes the check as written and
      stores "OPS", so two names equal ignoring case coexist. */
  lemma UntrimmedCheckAdmitsDuplicate(existing: DomainGroup, request: CreateGroupRequest, id: Id, now: Instant)
    requires existing.name == "ops" && request.name == "OPS " && id != existing.id
    ensures CreateAsWritten([existing], request, id, now).Some?
    ensures !UniqueNames(CreateAsWritten([existing], request, id, now).value)
  {
    var gs := [existing];
    assert ToLower(request.name)[3] == ' ';
    assert ToLower(existing.name) == "ops";
    assert !NameExistsAsWritten(gs, request.name) by {
      forall g | g in gs ensures ToLower(g.name) != ToLower(request.name) {
        assert |ToLower(g.name)| == 3;
      }
    }
    var r := gs + [NewGroup(request, id, now)];
    TrimOfOpsSpace(request.name);
    assert r[1].name == "OPS";
    assert ToLower(r[1].name) == "ops";
    assert ToLower(r[0].name) == ToLower(r[1].name);
  }

  lemma TrimOfOpsSpace(s: string)
    requires s == "OPS "
    ensures Trim(s) == "OPS"
  {
    assert IsTrimmed("OPS");
    assert TrimEnd(s) == TrimEnd(s[..3]);
    TrimOfTrimmed("OPS");
  }

  // Creation, corrected: the check compares the name that will be stored.

  /** Whether a group with the trimmed name, ignoring case, exists. */
  predicate NameTaken(gs: seq<DomainGroup>, name: string) {
    exists g :: g in gs && ToLower(g.name) == ToLower(Trim(name))
  }

  /** A create that passes the corrected check keeps ids and names unique. */
  lemma CreateKeepsValid(gs: seq<DomainGroup>, request: CreateGroupRequest, id: Id, now: Instant)
    requires ValidGroups(gs) && !HasGroup(gs, id) && !NameTaken(gs, request.name)
    ensures ValidGroups(gs + [NewGroup(request, id, now)])
  {
    var g := NewGroup(request, id, now);
    forall k | 0 <= k < |gs| ensures ToLower(gs[k].name) != ToLower(g.name) && gs[k].id != g.id {
      assert gs[k] in gs;
    }
    AppendKeepsValid(gs, g);
  }

  /** Appending a group whose id and name are new keeps ids and names unique. */
  lemma AppendKeepsValid(gs: seq<DomainGroup>, g: DomainGroup)
    requires ValidGroups(gs)
    requires forall k :: 0 <= k < |gs| ==> ToLower(gs[k].name) != ToLower(g.name) && gs[k].id != g.id
    ensures ValidGroups(gs + [g])
  {
    var r := gs + [g];
    forall i, j | 0 <= i < |r| && 0 <= j < |r| && ToLower(r[i].name) == ToLower(r[j].name) ensures i == j {
      assert r[i] == if i < |gs| then gs[i] else g;
      assert r[j] == if j < |gs| then gs[j] else g;
    }
    forall i, j | 0 <= i < |r| && 0 <= j < |r| && r[i].id == r[j].id ensures i == j {
      assert r[i] == if i < |gs| then gs[i] else g;
      assert r[j] == if j < |gs| then gs[j] else g;
    }
  }

  /** `CreateGroupAsync` with the corrected existing-name check; `id` is the
      store-generated key, new to the table. */
  method CreateGroup(db: Database, request: CreateGroupRequest, id: Id, now: Instant) returns (r: CreateResult)
    requires !HasGroup(db.groups, id)
    modifies db
    ensures NameTaken(old(db.groups), request.name) ==> r == NameExists && db.groups == old(db.groups)
    ensures !NameTaken(old(db.groups), request.name) ==>
      && db.groups == old(db.groups) + [NewGroup(request, id, now)]
      && r == Created(DtoOf(NewGroup(request, id, now), 0))
    ensures db.domains == old(db.domains) && db.checks == old(db.checks) && db.probeRuns == old(db.probeRuns)
    ensures db.incidents == old(db.incidents) && db.notifications == old(db.notifications)
    ensures db.attempts == old(db.attempts)
  {
    if NameTaken(db.groups, request.name) {
      return NameExists;
    }
    var group := DomainGroup(id, Trim(request.name), TrimOpt(request.description), TrimOpt(request.color),
                             TrimOpt(request.icon), request.enabled, now, now);
    db.groups := db.groups + [group];
    return Created(DtoOf(group, 0));
  }

  // Update.

  /** A nullable text field of an update: null keeps, empty clears, anything else is trimmed. */
  function Patch(current: Option<string>, requested: Option<string>): (r: Option<string>)
    ensures requested.None? ==> r == current
    ensures requested == Some("") ==> r.None?
    ensures requested.Some? && requested.value != "" ==> r == Some(Trim(requested.value))
  {
    match requested
    case None => current
    case Some(v) => if v == "" then None else Some(Trim(v))
  }

  /** Whether the update names a new name (`!string.IsNullOrEmpty(request.Name)`). */
  predicate RenameRequested(request: UpdateGroupRequest) {
    request.name.Some? && request.name.value != ""
  }

  /** The row after the update's field assignments. */
  function Patched(g: DomainGroup, request: UpdateGroupRequest, now: Instant): DomainGroup {
    g.(name := if RenameRequested(request) then Trim(request.name.value) else g.name,
       description := Patch(g.description, request.description),
       color := Patch(g.color, request.color),
       icon := Patch(g.icon, request.icon),
       enabled := if request.enabled.Some? then request.enabled.value else g.enabled,
       updatedAt := now)
  }

  /** The rename conflicts: the new name differs from the group's own, ignoring
      case, and another group already has it. */
  predicate RenameConflicts(gs: seq<DomainGroup>, g: DomainGroup, request: UpdateGroupRequest) {
    && RenameRequested(request)
    && ToLower(Trim(request.name.value)) != ToLower(g.name)
    && exists h :: h in gs && ToLower(h.name) == ToLower(Trim(request.name.value)) && h.id != g.id
  }

  /** The outcome and the groups table after `UpdateGroupAsync`. */
  function UpdateOutcome(gs: seq<DomainGroup>, id: Id, request: UpdateGroupRequest, now: Instant)
    : (r: (UpdateResult, seq<DomainGroup>))
    ensures r.0 == GroupNotFound <==> !HasGroup(gs, id)
    ensures HasGroup(gs, id) ==>
      (r.0 == NameConflict <==> RenameConflicts(gs, gs[FindGroup(gs, id).value], request))
    ensures r.0 != Updated ==> r.1 == gs
    ensures r.0 == Updated ==> var i := FindGroup(gs, id).value; r.1 == gs[i := Patched(gs[i], request, now)]
  {
    match FindGroup(gs, id)
    case None => (GroupNotFound, gs)
    case Some(i) =>
      if RenameConflicts(gs, gs[i], request) then (NameConflict, gs)
      else (Updated, gs[i := Patched(gs[i], request, now)])
  }

  /** An update keeps ids and names unique. */
  lemma UpdateKeepsValid(gs: seq<DomainGroup>, id: Id, request: UpdateGroupRequest, now: Instant)
    requires ValidGroups(gs)
    ensures ValidGroups(UpdateOutcome(gs, id, request, now).1)
  {
    var out := UpdateOutcome(gs, id, request, now);
    if out.0 == Updated {
      var i := FindGroup(gs, id).value;
      var r := out.1;
      PatchedNameIsFree(gs, i, request, now);
      forall a, b | 0 <= a < |r| && 0 <= b < |r| && ToLower(r[a].name) == ToLower(r[b].name)
        ensures a == b
      {
        assert a != i ==> r[a] == gs[a];
        assert b != i ==> r[b] == gs[b];
      }
    }
  }

  /** The name an update that passes the conflict check stores clashes with no other group. */
  lemma PatchedNameIsFree(gs: seq<DomainGroup>, i: nat, request: UpdateGroupRequest, now: Instant)
    requires ValidGroups(gs) && i < |gs| && !RenameConflicts(gs, gs[i], request)
    ensures forall k :: 0 <= k < |gs| && k != i ==> ToLower(Patched(gs[i], request, now).name) != ToLower(gs[k].name)
  {
    forall k | 0 <= k < |gs| && k != i
      ensures ToLower(Patched(gs[i], request, now).name) != ToLower(gs[k].name)
    {
      assert gs[k] in gs && gs[k].id != gs[i].id;
    }
  }

  /** A request with every field null touches nothing but `UpdatedAt`. */
  lemma EmptyUpdateTouchesOnlyTimestamp(g: DomainGroup, now: Instant)
    ensures Patched(g, UpdateGroupRequest(None, None, None, None, None), now) == g.(updatedAt := now)
  {
  }

  /** An empty name is ignored; an empty description, colour or icon clears it. */
  lemma EmptyStringsInUpdate(g: DomainGroup, now: Instant)
    ensures var m := Patched(g, UpdateGroupRequest(Some(""), Some(""), Some(""), Some(""), None), now);
      m.name == g.name && m.description.None? && m.color.None? && m.icon.None?
  {
  }

  /** `UpdateGroupAsync`: the outcome of `UpdateOutcome`, with the found row patched field by field. */
  method UpdateGroup(db: Database, id: Id, request: UpdateGroupRequest, now: Instant) returns (r: UpdateResult)
    modifies db
    ensures r == UpdateOutcome(old(db.groups), id, request, now).0
    ensures r != Updated ==> db.groups == old(db.groups)
    ensures r == Updated ==> var i := FindGroup(old(db.groups), id).value;
      db.groups == old(db.groups)[i := Patched(old(db.groups)[i], request, now)]
    ensures db.domains == old(db.domains) && db.checks == old(db.checks) && db.probeRuns == old(db.probeRuns)
    ensures db.incidents == old(db.incidents) && db.notifications == old(db.notifications)
    ensures db.attempts == old(db.attempts)
  {
    var at := FindGroup(db.groups, id);
    if at.None? {
      return GroupNotFound;
    }
    var i := at.value;
    var group := db.groups[i];
    if RenameConflicts(db.groups, group, request) {
      return NameConflict;
    }
    group := ApplyRequest(group, request, now);
    db.groups := db.groups[i := group];
    return Updated;
  }

  /** The field assignments of `UpdateGroupAsync` on the tracked row. */
  method ApplyRequest(g: DomainGroup, request: UpdateGroupRequest, now: Instant) returns (group: DomainGroup)
    ensures group == Patched(g, request, now)
  {
    group := g;
    if RenameRequested(request) {
      group := group.(name := Trim(request.name.value));
    }
    group := group.(description := Patch(group.description, request.description));
    group := group.(color := Patch(group.color, request.color));
    group := group.(icon := Patch(group.icon, request.icon));
    if request.enabled.Some? {
      group := group.(enabled := request.enabled.value);
    }
    group := group.(updatedAt := now);
  }

  // Delete.

  /** A domain detached from group `id` (its `UpdatedAt` is not touched). */
  function Detached(d: Domain, id: Id): Domain {
    if d.groupId == Some(id) then d.(groupId := None) else d
  }

  /** The domains table after group `id` is gone: no domain refers to it. */
  function DetachAll(ds: seq<Domain>, id: Id): (r: seq<Domain>)
    ensures |r| == |ds|
    ensures forall k :: 0 <= k < |ds| ==> r[k] == Detached(ds[k], id)
  {
    seq(|ds|, k requires 0 <= k < |ds| => Detached(ds[k], id))
  }

  /** Detaching keeps every domain but the group reference, and leaves no reference to the group. */
  lemma DetachAllClears(ds: seq<Domain>, id: Id)
    ensures forall k :: 0 <= k < |ds| ==> DetachAll(ds, id)[k].groupId != Some(id)
    ensures forall k :: 0 <= k < |ds| ==> DetachAll(ds, id)[k] == ds[k].(groupId := DetachAll(ds, id)[k].groupId)
    ensures forall k :: 0 <= k < |ds| && ds[k].groupId != Some(id) ==> DetachAll(ds, id)[k] == ds[k]
    ensures DetachAll(DetachAll(ds, id), id) == DetachAll(ds, id)
  {
  }

  /** `DeleteGroupAsync`: false for an unknown id; otherwise the group is
      removed and its domains are detached, by the loop when `unassignDomains`
      holds and by the foreign key's ON DELETE SET NULL otherwise, so the flag
      does not change the outcome. */
  method DeleteGroup(db: Database, id: Id, unassignDomains: bool) returns (found: bool)
    modifies db
    ensures found <==> HasGroup(old(db.groups), id)
    ensures !found ==> db.groups == old(db.groups) && db.domains == old(db.domains)
    ensures found ==> && db.groups == DomainService.RemoveAt(old(db.groups), FindGroup(old(db.groups), id).value)
                      && db.domains == DetachAll(old(db.domains), id)
    ensures db.checks == old(db.checks) && db.probeRuns == old(db.probeRuns) && db.incidents == old(db.incidents)
    ensures db.notifications == old(db.notifications) && db.attempts == old(db.attempts)
  {
    var at := FindGroup(db.groups, id);
    if at.None? {
      return false;
    }
    var domains := db.domains;
    if unassignDomains {
      for k := 0 to |domains|
        invariant |domains| == |old(db.domains)|
        invariant forall j :: 0 <= j < k ==> domains[j] == Detached(old(db.domains)[j], id)
        invariant forall j :: k <= j < |domains| ==> domains[j] == old(db.domains)[j]
      {
        if domains[k].groupId == Some(id) {
          domains := domains[k := domains[k].(groupId := None)];
        }
      }
      assert domains == DetachAll(old(db.domains), id);
    }
    db.groups := db.groups[..at.value] + db.groups[at.value + 1..];
    // The database's ON DELETE SET NULL on domains.group_id.
    DetachAllClears(old(db.domains), id);
    db.domains := DetachAll(domains, id);
    return true;
  }

  /** Deleting keeps the remaining groups valid and removes the group. */
  lemma DeleteKeepsValid(gs: seq<DomainGroup>, id: Id)
    requires ValidGroups(gs) && HasGroup(gs, id)
    ensures var r := DomainService.RemoveAt(gs, FindGroup(gs, id).value);
      ValidGroups(r) && !HasGroup(r, id)
  {
    var i := FindGroup(gs, id).value;
    var r := DomainService.RemoveAt(gs, i);
    forall a, b | 0 <= a < |r| && 0 <= b < |r| && ToLower(r[a].name) == ToLower(r[b].name) ensures a == b {
      var a', b' := if a < i then a else a + 1, if b < i then b else b + 1;
      assert r[a] == gs[a'] && r[b] == gs[b'];
    }
    forall a, b | 0 <= a < |r| && 0 <= b < |r| && r[a].id == r[b].id ensures a == b {
      var a', b' := if a < i then a else a + 1, if b < i then b else b + 1;
      assert r[a] == gs[a'] && r[b] == gs[b'];
    }
    forall k | 0 <= k < |r| ensures r[k].id != id {
      var k' := if k < i then k else k + 1;
      assert r[k] == gs[k'];
    }
  }

  // Assignment.

  /** The outcome and the domains table after `AssignDomainToGroupAsync`;
      `None` as the group unassigns. */
  function AssignOutcome(ds: seq<Domain>, gs: seq<DomainGroup>, domainId: Id, groupId: Option<Id>, now: Instant)
    : (r: (bool, seq<Domain>))
    ensures r.0 <==> DomainService.HasDomain(ds, domainId) && (groupId.Some? ==> HasGroup(gs, groupId.value))
    ensures !r.0 ==> r.1 == ds
    ensures r.0 ==> var i := DomainService.FindDomain(ds, domainId).value;
      r.1 == ds[i := ds[i].(groupId := groupId, updatedAt := now)]
  {
    match DomainService.FindDomain(ds, domainId)
    case None => (false, ds)
    case Some(i) =>
      if groupId.Some? && FindGroup(gs, groupId.value).None? then (false, ds)
      else (true, ds[i := ds[i].(groupId := groupId, updatedAt := now)])
  }

  /** Every domain's group reference names an existing group. */
  predicate GroupRefsValid(ds: seq<Domain>, gs: seq<DomainGroup>) {
    forall k :: 0 <= k < |ds| && ds[k].groupId.Some? ==> HasGroup(gs, ds[k].groupId.value)
  }

  /** Assignment never creates a dangling group reference. */
  lemma AssignKeepsRefsValid(ds: seq<Domain>, gs: seq<DomainGroup>, domainId: Id, groupId: Option<Id>, now: Instant)
    requires GroupRefsValid(ds, gs)
    ensures GroupRefsValid(AssignOutcome(ds, gs, domainId, groupId, now).1, gs)
  {
  }

  /** Deleting a group never leaves a dangling reference either. */
  lemma DeleteKeepsRefsValid(ds: seq<Domain>, gs: seq<DomainGroup>, id: Id)
    requires GroupRefsValid(ds, gs) && UniqueGroupIds(gs) && HasGroup(gs, id)
    ensures GroupRefsValid(DetachAll(ds, id), DomainService.RemoveAt(gs, FindGroup(gs, id).value))
  {
    var i := FindGroup(gs, id).value;
    var r := DomainService.RemoveAt(gs, i);
    var dd := DetachAll(ds, id);
    forall k | 0 <= k < |dd| && dd[k].groupId.Some?
      ensures HasGroup(r, dd[k].groupId.value)
    {
      var g := dd[k].groupId.value;
      assert g != id && ds[k].groupId == Some(g);
      var j :| 0 <= j < |gs| && gs[j].id == g;
      assert j != i;
      if j < i { assert r[j] == gs[j]; } else { assert r[j - 1] == gs[j]; }
    }
  }

  /** `AssignDomainToGroupAsync`. */
  method AssignDomainToGroup(db: Database, domainId: Id, groupId: Option<Id>, now: Instant) returns (ok: bool)
    modifies db
    ensures (ok, db.domains) == AssignOutcome(old(db.domains), old(db.groups), domainId, groupId, now)
    ensures db.groups == old(db.groups) && db.checks == old(db.checks) && db.probeRuns == old(db.probeRuns)
    ensures db.incidents == old(db.incidents) && db.notifications == old(db.notifications)
    ensures db.attempts == old(db.attempts)
  {
    var at := DomainService.FindDomain(db.domains, domainId);
    if at.None? {
      return false;
    }
    if groupId.Some? {
      var group := FindGroup(db.groups, groupId.value);
      if group.None? {
        return false;
      }
    }
    var i := at.value;
    db.domains := db.domains[i := db.domains[i].(groupId := groupId, updatedAt := now)];
    return true;
  }

  // Statistics.

  /** The integer part of the statistics; `AverageLatency` is not modelled. */
  datatype GroupStatistics = GroupStatistics(
    totalDomains: nat,
    enabledDomains: nat,
    totalProbeRuns: nat,
    successfulRuns: nat,
    failedRuns: int,
    openIncidents: nat,
    lastProbeRun: Option<Instant>)

  /** The statistics of a group without domains: `TotalDomains = 0` and every other field at its default. */
  const NoStatistics: GroupStatistics := GroupStatistics(0, 0, 0, 0, 0, 0, None)

  /** The ids of the group's domains, in table order. */
  function MemberIds(ds: seq<Domain>, groupId: Id): (ids: seq<Id>)
    ensures |ids| <= |ds|
    ensures forall x :: x in ids <==> exists d :: d in ds && d.groupId == Some(groupId) && d.id == x
  {
    if |ds| == 0 then []
    else
      assert forall d :: d in ds <==> d == ds[0] || d in ds[1..];
      var rest := MemberIds(ds[1..], groupId);
      if ds[0].groupId == Some(groupId) then [ds[0].id] + rest else rest
  }

  /** The latest `CompletedAt` of the runs, if there are any. */
  function LatestCompletion(runs: seq<ProbeRun>): (r: Option<Instant>)
    ensures r.None? <==> |runs| == 0
    ensures r.Some? ==> (exists k :: 0 <= k < |runs| && runs[k].completedAt == r.value)
                        && forall k :: 0 <= k < |runs| ==> runs[k].completedAt <= r.value
  {
    if |runs| == 0 then None
    else
      var rest := LatestCompletion(runs[1..]);
      if rest.None? || rest.value <= runs[0].completedAt then Some(runs[0].completedAt)
      else
        assert forall k :: 1 <= k < |runs| ==> runs[k] == runs[1..][k - 1];
        rest
  }

  /** The filters of the statistics queries. */
  function RunOfMembers(ids: seq<Id>): ProbeRun -> bool { (r: ProbeRun) => r.domainId in ids }

  function Succeeded(): ProbeRun -> bool { (r: ProbeRun) => r.success }

  function EnabledMember(groupId: Id): Domain -> bool { (d: Domain) => d.groupId == Some(groupId) && d.enabled }

  function OpenIncidentOfMembers(ids: seq<Id>): Incident -> bool {
    (i: Incident) => i.domainId in ids && i.status == INCIDENT_OPEN
  }

  /** The runs of the group's members, in table order. */
  function GroupRuns(runs: seq<ProbeRun>, ids: seq<Id>): (r: seq<ProbeRun>)
    ensures forall x :: x in r <==> x in runs && x.domainId in ids
  {
    Filter(runs, RunOfMembers(ids))
  }

  /** The counts over the group's members `ids`. */
  function StatisticsOver(ids: seq<Id>, ds: seq<Domain>, runs: seq<ProbeRun>, incidents: seq<Incident>, groupId: Id)
    : GroupStatistics
  {
    var groupRuns := GroupRuns(runs, ids);
    var succeeded := Count(groupRuns, Succeeded());
    GroupStatistics(
      |ids|,
      Count(ds, EnabledMember(groupId)),
      |groupRuns|,
      succeeded,
      |groupRuns| - succeeded,
      Count(incidents, OpenIncidentOfMembers(ids)),
      LatestCompletion(groupRuns))
  }

  /** `GetGroupStatisticsAsync`, without the average latency: the counts are
      over the group's domains and the runs and incidents of those domains,
      and for a group without domains every count is zero. */
  function Statistics(ds: seq<Domain>, runs: seq<ProbeRun>, incidents: seq<Incident>, groupId: Id)
    : (s: GroupStatistics)
    ensures var ids := MemberIds(ds, groupId);
      var groupRuns := GroupRuns(runs, ids);
      && s.totalDomains == |ids|
      && s.enabledDomains == Count(ds, EnabledMember(groupId))
      && s.totalProbeRuns == |groupRuns|
      && s.successfulRuns == Count(groupRuns, Succeeded())
      && s.successfulRuns + s.failedRuns == s.totalProbeRuns
      && s.openIncidents == Count(incidents, OpenIncidentOfMembers(ids))
      && s.lastProbeRun == LatestCompletion(groupRuns)
  {
    var ids := MemberIds(ds, groupId);
    if |ids| == 0 then
      EmptyGroupCounts(ds, runs, incidents, groupId);
      NoStatistics
    else StatisticsOver(ids, ds, runs, incidents, groupId)
  }

  /** The counts agree with each other: failed runs are the runs that did not
      succeed, enabled domains are among the group's domains, and the last run
      time is the latest `CompletedAt` among the runs of the group's domains. */
  lemma StatisticsConsistent(ds: seq<Domain>, runs: seq<ProbeRun>, incidents: seq<Incident>, groupId: Id)
    ensures var s := Statistics(ds, runs, incidents, groupId);
      var ids := MemberIds(ds, groupId);
      && s.successfulRuns + s.failedRuns == s.totalProbeRuns
      && 0 <= s.failedRuns
      && s.enabledDomains <= s.totalDomains
      && (s.lastProbeRun.None? <==> s.totalProbeRuns == 0)
      && s.totalDomains == |ids|
      && (s.lastProbeRun.None? <==> forall x :: x in runs ==> x.domainId !in ids)
      && (s.lastProbeRun.Some? ==>
            && (exists x :: x in runs && x.domainId in ids && x.completedAt == s.lastProbeRun.value)
            && forall x :: x in runs && x.domainId in ids ==> x.completedAt <= s.lastProbeRun.value)
  {
    var ids := MemberIds(ds, groupId);
    var groupRuns := GroupRuns(runs, ids);
    EnabledAmongMembers(ds, groupId);
    assert Count(groupRuns, Succeeded()) <= |groupRuns|;
    var last := LatestCompletion(groupRuns);
    if last.Some? {
      var k :| 0 <= k < |groupRuns| && groupRuns[k].completedAt == last.value;
      assert groupRuns[k] in groupRuns;
      forall x | x in runs && x.domainId in ids ensures x.completedAt <= last.value {
        var j :| 0 <= j < |groupRuns| && groupRuns[j] == x;
      }
    } else {
      assert groupRuns == [];
    }
  }

  /** The enabled members are no more than the members. */
  lemma {:induction false} EnabledAmongMembers(ds: seq<Domain>, groupId: Id)
    ensures Count(ds, EnabledMember(groupId)) <= |MemberIds(ds, groupId)|
  {
    if |ds| > 0 {
      EnabledAmongMembers(ds[1..], groupId);
    }
  }

  /** The early return for an empty group gives what the general counts give,
      and a group without members has no runs and no open incidents. */
  lemma EmptyGroupStatistics(ds: seq<Domain>, runs: seq<ProbeRun>, incidents: seq<Incident>, groupId: Id)
    requires |MemberIds(ds, groupId)| == 0
    ensures StatisticsOver([], ds, runs, incidents, groupId) == NoStatistics
    ensures Statistics(ds, runs, incidents, groupId) == NoStatistics
  {
    EmptyGroupCounts(ds, runs, incidents, groupId);
  }

  lemma EmptyGroupCounts(ds: seq<Domain>, runs: seq<ProbeRun>, incidents: seq<Incident>, groupId: Id)
    requires |MemberIds(ds, groupId)| == 0
    ensures StatisticsOver([], ds, runs, incidents, groupId) == NoStatistics
  {
    NoneMatch(runs, RunOfMembers([]));
    NoneMatch(incidents, OpenIncidentOfMembers([]));
    NoEnabledMembers(ds, groupId);
  }

  lemma {:induction false} NoneMatch<T(!new)>(s: seq<T>, p: T -> bool)
    requires forall x :: !p(x)
    ensures Filter(s, p) == []
  {
    if |s| > 0 {
      NoneMatch(s[1..], p);
    }
  }

  lemma NoEnabledMembers(ds: seq<Domain>, groupId: Id)
    requires |MemberIds(ds, groupId)| == 0
    ensures Filter(ds, EnabledMember(groupId)) == []
  {
  }

  /** Open incidents are counted only for the group's own domains. */
  lemma OpenIncidentsOfMembers(ds: seq<Domain>, runs: seq<ProbeRun>, incidents: seq<Incident>, groupId: Id)
    requires |MemberIds(ds, groupId)| > 0
    ensures var ids := MemberIds(ds, groupId);
      Statistics(ds, runs, incidents, groupId).openIncidents
        == |Filter(incidents, (i: Incident) => i.domainId in ids && i.status == INCIDENT_OPEN)|
    ensures forall i :: i in Filter(incidents, (i: Incident) => i.domainId in MemberIds(ds, groupId)
                                                                && i.status == INCIDENT_OPEN) ==>
      i.status == INCIDENT_OPEN && exists d :: d in ds && d.groupId == Some(groupId) && d.id == i.domainId
  {
  }
}
