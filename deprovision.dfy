// Deprovisioning of team pods: the by-role delete and the delete-all sweep.
// Both resolve the pod's category by the role's name, delete every channel
// of an earlier snapshot parented to it, delete the category and then the
// role.

module Deprovision {
  import opened Text
  import opened Discord
  import opened Lookup
  import opened Status
  import opened Provision

  /** The ids of the channels of `cs` whose parent is `parentId`. */
  function ChildIds(cs: seq<Channel>, parentId: nat): set<nat> {
    if cs == [] then {}
    else ChildIds(cs[..|cs| - 1], parentId) + (if cs[|cs| - 1].parentId == parentId then {cs[|cs| - 1].id} else {})
  }

  /** An id is a child id exactly when some channel with that parent carries it. */
  lemma {:induction false} ChildIdsMembers(cs: seq<Channel>, parentId: nat, id: nat)
    ensures id in ChildIds(cs, parentId) <==> exists c :: c in cs && c.parentId == parentId && c.id == id
    decreases |cs|
  {
    if cs != [] {
      var init := cs[..|cs| - 1];
      ChildIdsMembers(init, parentId, id);
      assert cs == init + [cs[|cs| - 1]];
      if exists c :: c in cs && c.parentId == parentId && c.id == id {
        var c :| c in cs && c.parentId == parentId && c.id == id;
        if c != cs[|cs| - 1] {
          assert c in init;
        }
      }
    }
  }

  /** What deleting the pod under `parentId` removes: its children and itself. */
  function PodIds(cs: seq<Channel>, parentId: nat): set<nat> {
    ChildIds(cs, parentId) + {parentId}
  }

  /** The ids the roles of `rs` carry. */
  function IdsOf(rs: seq<Role>): set<nat> {
    if rs == [] then {} else IdsOf(rs[..|rs| - 1]) + {rs[|rs| - 1].id}
  }

  /** An id is among the ids exactly when some role of the list carries it. */
  lemma {:induction false} IdsOfMembers(rs: seq<Role>, id: nat)
    ensures id in IdsOf(rs) <==> exists r :: r in rs && r.id == id
    decreases |rs|
  {
    if rs != [] {
      var init := rs[..|rs| - 1];
      IdsOfMembers(init, id);
      assert rs == init + [rs[|rs| - 1]];
      if exists r :: r in rs && r.id == id {
        var r :| r in rs && r.id == id;
        if r != rs[|rs| - 1] {
          assert r in init;
        }
      }
    }
  }

  /** Deletes, one call at a time, every channel of the snapshot whose
      parent is `parentId`; channels already gone are skipped by the platform. */
  method DeleteChildren(g: Guild, snapshot: seq<Channel>, parentId: nat)
    requires g.Valid()
    modifies g
    ensures g.Valid()
    ensures g.channels == RemoveChannels(old(g.channels), ChildIds(snapshot, parentId))
    ensures g.roles == old(g.roles) && g.nextId == old(g.nextId)
  {
    RemoveChannelsNone(g.channels, {});
    for k := 0 to |snapshot|
      invariant g.Valid()
      invariant g.channels == RemoveChannels(old(g.channels), ChildIds(snapshot[..k], parentId))
      invariant g.roles == old(g.roles) && g.nextId == old(g.nextId)
    {
      assert snapshot[..k + 1][..k] == snapshot[..k];
      ghost var deleted := ChildIds(snapshot[..k], parentId);
      if snapshot[k].parentId == parentId {
        assert ChildIds(snapshot[..k + 1], parentId) == deleted + {snapshot[k].id};
        RemoveChannelsTwice(old(g.channels), deleted, {snapshot[k].id});
        g.ChannelDelete(snapshot[k].id);
      } else {
        assert ChildIds(snapshot[..k + 1], parentId) == deleted;
      }
    }
    assert snapshot[..|snapshot|] == snapshot;
  }

  /** Deletes a pod's channels: the snapshot's children of `parentId`, then
      the parent itself. */
  method DeletePod(g: Guild, snapshot: seq<Channel>, parentId: nat)
    requires g.Valid()
    modifies g
    ensures g.Valid()
    ensures g.channels == RemoveChannels(old(g.channels), PodIds(snapshot, parentId))
    ensures g.roles == old(g.roles) && g.nextId == old(g.nextId)
  {
    DeleteChildren(g, snapshot, parentId);
    RemoveChannelsTwice(old(g.channels), ChildIds(snapshot, parentId), {parentId});
    g.ChannelDelete(parentId);
  }

  /** Walks a list of roles and deletes the ones carrying `roleId`. */
  method DeleteMatchingRoles(g: Guild, roles: seq<Role>, roleId: nat)
    requires g.Valid()
    modifies g
    ensures g.Valid()
    ensures g.roles == if roleId in IdsOf(roles) then RemoveRoles(old(g.roles), {roleId}) else old(g.roles)
    ensures g.channels == old(g.channels) && g.nextId == old(g.nextId)
  {
    for k := 0 to |roles|
      invariant g.Valid()
      invariant g.roles == if roleId in IdsOf(roles[..k]) then RemoveRoles(old(g.roles), {roleId}) else old(g.roles)
      invariant g.channels == old(g.channels) && g.nextId == old(g.nextId)
    {
      assert roles[..k + 1][..k] == roles[..k];
      assert IdsOf(roles[..k + 1]) == IdsOf(roles[..k]) + {roles[k].id};
      if roles[k].id == roleId {
        if roleId in IdsOf(roles[..k]) {
          RemoveRolesTwice(old(g.roles), {roleId}, {roleId});
          assert {roleId} + {roleId} == {roleId};
        }
        g.RoleDelete(roleId);
      } else {
        assert roleId in IdsOf(roles[..k + 1]) <==> roleId in IdsOf(roles[..k]);
      }
    }
    assert roles[..|roles|] == roles;
  }

  /** Deleting by the ids of a list removes the role when it is listed; an
      unlisted id is carried by no role of the list itself. */
  lemma RemoveMatchingRole(rs: seq<Role>, roleId: nat)
    ensures (if roleId in IdsOf(rs) then RemoveRoles(rs, {roleId}) else rs) == RemoveRoles(rs, {roleId})
  {
    if roleId !in IdsOf(rs) {
      IdsOfMembers(rs, roleId);
      RemoveRolesNone(rs, {roleId});
    }
  }

  /** The by-role delete. A category missing under the role's name makes
      the handler dereference nothing while deleting channels: it stops
      there, with nothing deleted. */
  method DeleteByRole(g: Guild, msg: StatusMessage, role: Role) returns (removed: bool)
    requires g.Valid()
    modifies g, msg
    ensures g.Valid() && g.nextId == old(g.nextId)
    ensures removed <==> LastNamedChannel(old(g.channels), role.name).Some?
    ensures removed ==>
      && g.channels == RemoveChannels(old(g.channels), PodIds(old(g.channels), LastNamedChannel(old(g.channels), role.name).value.id))
      && g.roles == RemoveRoles(old(g.roles), {role.id})
    ensures !removed ==> g.channels == old(g.channels) && g.roles == old(g.roles)
    ensures msg.title == "Deleting pod for " + role.name
    ensures msg.content == SingleRemoveDocument(role.name, if removed then RemovedSuccessfully else DeletingRole)
    ensures msg.shown == old(msg.shown)
                         + [SingleRemoveDocument(role.name, Finding), SingleRemoveDocument(role.name, DeletingRole)]
                         + (if removed then [ SingleRemoveDocument(role.name, DeletingRole),
                                              SingleRemoveDocument(role.name, RemovedSuccessfully) ] else [])
  {
    var title := "Deleting pod for " + role.name;
    msg.Edit(title, SingleRemoveDocument(role.name, Finding));

    var roles := g.roles;
    var channels := g.channels;
    var parent := FindChannelByName(g, role.name);

    msg.Edit(title, SingleRemoveDocument(role.name, DeletingRole));
    if parent.None? {
      return false;
    }
    RemovePodAndRole(g, msg, title, role, roles, channels, parent.value.id);
    removed := true;
  }

  /** The by-role delete once the category is resolved: the pod's channels,
      then the role, each step published. */
  method RemovePodAndRole(g: Guild, msg: StatusMessage, title: string, role: Role,
                          roles: seq<Role>, channels: seq<Channel>, parentId: nat)
    requires g.Valid() && roles == g.roles
    modifies g, msg
    ensures g.Valid() && g.nextId == old(g.nextId)
    ensures g.channels == RemoveChannels(old(g.channels), PodIds(channels, parentId))
    ensures g.roles == RemoveRoles(old(g.roles), {role.id})
    ensures msg.title == title && msg.content == SingleRemoveDocument(role.name, RemovedSuccessfully)
    ensures msg.shown == old(msg.shown) + [ SingleRemoveDocument(role.name, DeletingRole),
                                            SingleRemoveDocument(role.name, RemovedSuccessfully) ]
  {
    DeletePod(g, channels, parentId);

    msg.Edit(title, SingleRemoveDocument(role.name, DeletingRole));
    RemoveMatchingRole(roles, role.id);
    DeleteMatchingRoles(g, roles, role.id);

    msg.Edit(title, SingleRemoveDocument(role.name, RemovedSuccessfully));
  }

  /** The guild's channels after the delete-all sweep has handled `teams`
      in order, each against the live channels of its turn; None when some
      team's category was missing, where the handler stops. */
  function Sweep(cs: seq<Channel>, snapshot: seq<Channel>, teams: seq<Role>): Option<seq<Channel>> {
    if teams == [] then Some(cs)
    else
      match Sweep(cs, snapshot, teams[..|teams| - 1])
      case None => None
      case Some(live) =>
        match LastNamedChannel(live, teams[|teams| - 1].name)
        case None => None
        case Some(parent) => Some(RemoveChannels(live, PodIds(snapshot, parent.id)))
  }

  /** The sweep only ever deletes channels. */
  lemma {:induction false} SweepOnlyRemoves(cs: seq<Channel>, snapshot: seq<Channel>, teams: seq<Role>)
    requires Sweep(cs, snapshot, teams).Some?
    ensures |Sweep(cs, snapshot, teams).value| <= |cs|
    ensures forall c :: c in Sweep(cs, snapshot, teams).value ==> c in cs
    decreases |teams|
  {
    if teams != [] {
      SweepOnlyRemoves(cs, snapshot, teams[..|teams| - 1]);
    }
  }

  /** Extends a successful sweep by one more team whose category exists. */
  lemma SweepStep(cs: seq<Channel>, snapshot: seq<Channel>, teams: seq<Role>, k: nat, live: seq<Channel>, parent: Channel)
    requires k < |teams| && Sweep(cs, snapshot, teams[..k]) == Some(live)
    requires LastNamedChannel(live, teams[k].name) == Some(parent)
    ensures Sweep(cs, snapshot, teams[..k + 1]) == Some(RemoveChannels(live, PodIds(snapshot, parent.id)))
  {
    assert teams[..k + 1][..k] == teams[..k];
  }

  /** The ids a successful sweep deletes: for each team in turn, the pod
      under the category found by the team's name in what is left. */
  function SweptIds(cs: seq<Channel>, snapshot: seq<Channel>, teams: seq<Role>): set<nat> {
    if teams == [] then {}
    else
      match Sweep(cs, snapshot, teams[..|teams| - 1])
      case None => {}
      case Some(live) =>
        match LastNamedChannel(live, teams[|teams| - 1].name)
        case None => {}
        case Some(parent) => SweptIds(cs, snapshot, teams[..|teams| - 1]) + PodIds(snapshot, parent.id)
  }

  /** A successful sweep leaves the original channels, in their order, less
      the union of the pods it handled. */
  lemma {:induction false} SweepRemovesSweptIds(cs: seq<Channel>, snapshot: seq<Channel>, teams: seq<Role>)
    requires Sweep(cs, snapshot, teams).Some?
    ensures Sweep(cs, snapshot, teams).value == RemoveChannels(cs, SweptIds(cs, snapshot, teams))
    decreases |teams|
  {
    if teams == [] {
      RemoveChannelsNone(cs, {});
    } else {
      var prefix := teams[..|teams| - 1];
      SweepRemovesSweptIds(cs, snapshot, prefix);
      var live := Sweep(cs, snapshot, prefix).value;
      var parent := LastNamedChannel(live, teams[|teams| - 1].name).value;
      RemoveChannelsTwice(cs, SweptIds(cs, snapshot, prefix), PodIds(snapshot, parent.id));
    }
  }

  /** Delete-all leaves exactly the protected roles: every unprotected role
      id is deleted, and ids are unique, so no protected role goes with it. */
  lemma DeleteAllKeepsExactlyProtected(rs: seq<Role>, next: nat, r: Role)
    requires RolesWellFormed(rs, next)
    ensures r in RemoveRoles(rs, IdsOf(Unprotected(rs))) <==> r in rs && IsProtected(r.name)
  {
    IdsOfMembers(Unprotected(rs), r.id);
    if r in rs && IsProtected(r.name) && r.id in IdsOf(Unprotected(rs)) {
      var u :| u in Unprotected(rs) && u.id == r.id;
      assert HasRole(rs, u) && HasRole(rs, r);
    }
  }

  /** Names the delete-all statuses after `k` teams removed, with the
      next one stopped at "Deleting role..." when its category is missing. */
  function SweepStatuses(n: nat, k: nat, stopped: bool): (r: seq<string>)
    requires k <= n && (stopped ==> k < n)
    ensures |r| == n
  {
    if stopped then Progress(n, k, RemovedSuccessfully, Finding)[k := DeletingRole]
    else Progress(n, k, RemovedSuccessfully, Finding)
  }

  /** The state of the sweep after its first k teams. */
  ghost predicate SweepAt(g: Guild, statuses: array<string>, roles0: seq<Role>, channels0: seq<Channel>,
                          next0: nat, teams: seq<Role>, k: nat)
    reads g, statuses
  {
    && k <= |teams| == statuses.Length
    && statuses[..] == Progress(|teams|, k, RemovedSuccessfully, Finding)
    && Sweep(channels0, channels0, teams[..k]) == Some(g.channels)
    && g.roles == RemoveRoles(roles0, IdsOf(teams[..k]))
    && g.nextId == next0
  }

  /** Writes every delete-all status as "Finding..." together with the first
      text, whose entries are run together without line breaks. */
  method InitializeRemoveStatuses(statuses: array<string>, teams: seq<Role>) returns (content: string)
    requires statuses.Length == |teams|
    modifies statuses
    ensures statuses[..] == Progress(|teams|, 0, RemovedSuccessfully, Finding)
    ensures content == DeleteAllInitialDocument(teams, statuses[..])
  {
    content := BatchRemoveHeader;
    for index := 0 to statuses.Length
      invariant forall k :: 0 <= k < index ==> statuses[k] == Finding
      invariant content == DeleteAllInitialDocument(teams, statuses[..index])
    {
      statuses[index] := Finding;
      DeleteAllInitialGrows(teams, statuses[..], index);
      assert statuses[..][..index + 1] == statuses[..index + 1] && statuses[..][..index] == statuses[..index];
      content := content + teams[index].name + ": " + statuses[index];
    }
    assert statuses[..statuses.Length] == statuses[..];
    ghost var waiting := Progress(|teams|, 0, RemovedSuccessfully, Finding);
    assert forall k :: 0 <= k < statuses.Length ==> waiting[k] == Finding;
    assert statuses[..] == waiting;
  }

  /** The role half of a sweep step: deletes every listed role carrying the
      id of team `index`, which extends the ids removed so far by that one. */
  method RemoveTeamRole(g: Guild, teams: seq<Role>, index: nat, ghost roles0: seq<Role>)
    requires g.Valid()
    requires index < |teams|
    requires g.roles == RemoveRoles(roles0, IdsOf(teams[..index]))
    modifies g
    ensures g.Valid()
    ensures g.roles == RemoveRoles(roles0, IdsOf(teams[..index + 1]))
    ensures g.channels == old(g.channels) && g.nextId == old(g.nextId)
  {
    var teamRole := teams[index];
    IdsOfMembers(teams, teamRole.id);
    assert teamRole in teams;
    DeleteMatchingRoles(g, teams, teamRole.id);
    RemoveRolesTwice(roles0, IdsOf(teams[..index]), {teamRole.id});
    assert teams[..index + 1][..index] == teams[..index];
    assert IdsOf(teams[..index]) + {teamRole.id} == IdsOf(teams[..index + 1]);
  }

  /** Team `index` of the sweep: find its category in the live guild, delete
      the snapshot's channels under it, the category itself, then the role. */
  method RemoveJob(g: Guild, msg: StatusMessage, title: string, statuses: array<string>, teams: seq<Role>,
                   snapshot: seq<Channel>, index: nat, ghost roles0: seq<Role>, ghost next0: nat)
      returns (done: bool)
    requires g.Valid()
    requires index < |teams|
    requires SweepAt(g, statuses, roles0, snapshot, next0, teams, index)
    modifies g, msg, statuses
    ensures g.Valid()
    ensures done <==> LastNamedChannel(old(g.channels), teams[index].name).Some?
    ensures done ==> SweepAt(g, statuses, roles0, snapshot, next0, teams, index + 1)
    ensures !done ==> && statuses[..] == SweepStatuses(|teams|, index, true)
                      && g.channels == old(g.channels) && g.roles == old(g.roles) && g.nextId == old(g.nextId)
    ensures msg.title == title && msg.content == DeleteAllDocument(teams, statuses[..])
    ensures msg.shown == old(msg.shown) + RemoveJobEdits(teams, index, done)
  {
    var teamRole := teams[index];
    var parent := FindChannelByName(g, teamRole.name);

    MarkDeleting(msg, title, statuses, teams, index);
    ghost var deleting := statuses[..];
    if parent.None? {
      return false;
    }
    ghost var shown := msg.shown;
    RemoveFoundTeam(g, msg, title, statuses, teams, snapshot, index, parent.value, roles0);
    done := true;
    ghost var shownDone := DeleteAllDocument(teams, statuses[..]);
    assert msg.shown == shown + [DeleteAllDocument(teams, deleting)] + [shownDone];
    assert RemoveJobEdits(teams, index, true)
        == [DeleteAllDocument(teams, deleting)] + [DeleteAllDocument(teams, deleting), shownDone];
  }

  /** Marks team `index` "Deleting role..." and publishes the render. */
  method MarkDeleting(msg: StatusMessage, title: string, statuses: array<string>, teams: seq<Role>, index: nat)
    requires index < |teams| == statuses.Length
    modifies msg, statuses
    ensures statuses[..] == old(statuses[..])[index := DeletingRole]
    ensures msg.title == title && msg.content == DeleteAllDocument(teams, statuses[..])
    ensures msg.shown == old(msg.shown) + [DeleteAllDocument(teams, statuses[..])]
  {
    statuses[index] := DeletingRole;
    DeleteAllUpdateEmbed(msg, title, statuses[..], teams);
  }

  /** Team `index` of the sweep once its category is found: the pod's
      channels, then the role, each step published. */
  method RemoveFoundTeam(g: Guild, msg: StatusMessage, title: string, statuses: array<string>, teams: seq<Role>,
                         snapshot: seq<Channel>, index: nat, parent: Channel, ghost roles0: seq<Role>)
    requires g.Valid()
    requires index < |teams| == statuses.Length
    requires statuses[..] == Progress(|teams|, index, RemovedSuccessfully, Finding)[index := DeletingRole]
    requires Sweep(snapshot, snapshot, teams[..index]) == Some(g.channels)
    requires LastNamedChannel(g.channels, teams[index].name) == Some(parent)
    requires g.roles == RemoveRoles(roles0, IdsOf(teams[..index]))
    modifies g, msg, statuses
    ensures g.Valid()
    ensures SweepAt(g, statuses, roles0, snapshot, old(g.nextId), teams, index + 1)
    ensures msg.title == title && msg.content == DeleteAllDocument(teams, statuses[..])
    ensures msg.shown == old(msg.shown) + [DeleteAllDocument(teams, old(statuses[..]))] + [DeleteAllDocument(teams, statuses[..])]
  {
    ghost var before := statuses[..];
    SweepStep(snapshot, snapshot, teams, index, g.channels, parent);
    DeleteFoundPod(g, msg, title, statuses, teams, snapshot, index, parent.id);
    assert statuses[..] == before;
    RemoveTeamRole(g, teams, index, roles0);

    statuses[index] := RemovedSuccessfully;
    DeleteAllUpdateEmbed(msg, title, statuses[..], teams);
    ProgressStep(|teams|, index, RemovedSuccessfully, Finding);
  }

  /** The channel half of a sweep step: the pod's channels go, and the
      team's "Deleting role..." status is published once more. */
  method DeleteFoundPod(g: Guild, msg: StatusMessage, title: string, statuses: array<string>, teams: seq<Role>,
                        snapshot: seq<Channel>, index: nat, parentId: nat)
    requires g.Valid()
    requires index < |teams| == statuses.Length
    requires statuses[index] == DeletingRole
    modifies g, msg, statuses
    ensures g.Valid()
    ensures g.channels == RemoveChannels(old(g.channels), PodIds(snapshot, parentId))
    ensures g.roles == old(g.roles) && g.nextId == old(g.nextId)
    ensures statuses[..] == old(statuses[..])
    ensures msg.title == title && msg.content == DeleteAllDocument(teams, statuses[..])
    ensures msg.shown == old(msg.shown) + [DeleteAllDocument(teams, statuses[..])]
  {
    DeletePod(g, snapshot, parentId);

    ghost var deleting := statuses[..];
    statuses[index] := DeletingRole;
    assert statuses[..] == deleting;
    DeleteAllUpdateEmbed(msg, title, statuses[..], teams);
  }

  /** Runs the sweep's jobs in order from the first, stopping at the first
      team whose category is missing. */
  method SweepTeams(g: Guild, msg: StatusMessage, title: string, statuses: array<string>, teams: seq<Role>,
                    snapshot: seq<Channel>, ghost roles0: seq<Role>)
      returns (removed: nat)
    requires g.Valid()
    requires SweepAt(g, statuses, roles0, snapshot, g.nextId, teams, 0)
    requires msg.title == title && msg.content == DeleteAllInitialDocument(teams, statuses[..])
    modifies g, msg, statuses
    ensures g.Valid() && g.nextId == old(g.nextId)
    ensures removed <= |teams|
    ensures Sweep(snapshot, snapshot, teams[..removed]) == Some(g.channels)
    ensures g.roles == RemoveRoles(roles0, IdsOf(teams[..removed]))
    ensures removed < |teams| ==> LastNamedChannel(g.channels, teams[removed].name).None?
    ensures msg.title == title
    ensures msg.content == if |teams| == 0 then DeleteAllInitialDocument(teams, [])
                           else DeleteAllDocument(teams, SweepStatuses(|teams|, removed, removed < |teams|))
    ensures statuses[..] == SweepStatuses(|teams|, removed, removed < |teams|)
    ensures msg.shown == SweepShown(old(msg.shown), teams, removed)
                         + (if removed < |teams| then RemoveJobEdits(teams, removed, false) else [])
  {
    var index := 0;
    while index < |teams|
      invariant 0 <= index <= |teams|
      invariant g.Valid()
      invariant SweepAt(g, statuses, roles0, snapshot, old(g.nextId), teams, index)
      invariant msg.title == title
      invariant msg.content == if index == 0 then DeleteAllInitialDocument(teams, Progress(|teams|, 0, RemovedSuccessfully, Finding))
                               else DeleteAllDocument(teams, Progress(|teams|, index, RemovedSuccessfully, Finding))
      invariant msg.shown == SweepShown(old(msg.shown), teams, index)
    {
      var done := RemoveJob(g, msg, title, statuses, teams, snapshot, index, roles0, old(g.nextId));
      if !done {
        return index;
      }
      index := index + 1;
    }
    assert teams[..|teams|] == teams;
    removed := |teams|;
  }

  /** The delete-all sweep over every unprotected role, in guild order. It
      stops at the first team whose category cannot be found, after
      marking it "Deleting role...". */
  method DeleteAll(g: Guild, msg: StatusMessage) returns (removed: nat)
    requires g.Valid()
    modifies g, msg
    ensures g.Valid() && g.nextId == old(g.nextId)
    ensures var teams := Unprotected(old(g.roles));
      && removed <= |teams|
      && Sweep(old(g.channels), old(g.channels), teams[..removed]) == Some(g.channels)
      && g.channels == RemoveChannels(old(g.channels), SweptIds(old(g.channels), old(g.channels), teams[..removed]))
      && g.roles == RemoveRoles(old(g.roles), IdsOf(teams[..removed]))
      && (removed < |teams| ==> LastNamedChannel(g.channels, teams[removed].name).None?)
      && msg.title == "Deleting all (" + NatToString(|teams|) + ") pods"
      && msg.content == (if |teams| == 0 then DeleteAllInitialDocument(teams, [])
                         else DeleteAllDocument(teams, SweepStatuses(|teams|, removed, removed < |teams|)))
      && msg.shown == SweepShown(old(msg.shown) + [DeleteAllInitialDocument(teams, Progress(|teams|, 0, RemovedSuccessfully, Finding))],
                                 teams, removed)
                      + (if removed < |teams| then RemoveJobEdits(teams, removed, false) else [])
  {
    var groles := g.roles;
    var channels := g.channels;
    var teams := FilterUnprotected(groles);

    var statuses := new string[|teams|];
    var title := "Deleting all (" + NatToString(|teams|) + ") pods";
    var content := InitializeRemoveStatuses(statuses, teams);
    msg.Edit(title, content);

    RemoveRolesNone(groles, {});
    assert teams[..0] == [];
    removed := SweepTeams(g, msg, title, statuses, teams, channels, groles);
    SweepRemovesSweptIds(channels, channels, teams[..removed]);
  }

  /** The by-name create's category is found again by the team's name:
      its children's names are longer. */
  lemma PodFoundByName(cs: seq<Channel>, categoryId: nat, name: string, overwrites: seq<Overwrite>)
    ensures var pod := PodChannels(categoryId, name, name, overwrites);
      LastNamedChannel(cs + pod, name) == Some(pod[0])
  {
    var pod := PodChannels(categoryId, name, name, overwrites);
    var all := cs + pod;
    assert |pod[3].name| != |name| && |pod[2].name| != |name| && |pod[1].name| != |name|;
    assert all[..|all| - 1] == cs + pod[..3];
    assert (cs + pod[..3])[..|cs| + 2] == cs + pod[..2];
    assert (cs + pod[..2])[..|cs| + 1] == cs + pod[..1];
    assert LastNamedChannel(all, name) == LastNamedChannel(cs + pod[..3], name);
    assert LastNamedChannel(cs + pod[..3], name) == LastNamedChannel(cs + pod[..2], name);
    assert LastNamedChannel(cs + pod[..2], name) == LastNamedChannel(cs + pod[..1], name);
  }

  /** A pod created on fresh ids: its deletion takes all four of its
      channels and none of the channels that were there before. */
  lemma PodIdsOfCreation(cs: seq<Channel>, next: nat, name: string, overwrites: seq<Overwrite>)
    requires ChannelsWellFormed(cs, next)
    ensures var pod := PodChannels(next + 1, name, name, overwrites);
      && (forall c :: c in cs ==> c.id !in PodIds(cs + pod, next + 1))
      && (forall k :: 0 <= k < 4 ==> pod[k].id in PodIds(cs + pod, next + 1))
  {
    var pod := PodChannels(next + 1, name, name, overwrites);
    var all := cs + pod;
    forall c | c in cs ensures c.id !in PodIds(all, next + 1) {
      assert HasChannel(cs, c);
      if c.id in ChildIds(all, next + 1) {
        ChildIdsMembers(all, next + 1, c.id);
        var d :| d in all && d.parentId == next + 1 && d.id == c.id;
        if d in cs {
          assert HasChannel(cs, d);
        }
      }
    }
    forall k | 1 <= k < 4 ensures pod[k].id in ChildIds(all, next + 1) {
      assert pod[k] in all;
      ChildIdsMembers(all, next + 1, pod[k].id);
    }
  }

  /** Deleting the pod found under the team's name after a by-name create
      leaves exactly the channels that were there before. */
  lemma PodRemovalUndoesCreation(cs: seq<Channel>, next: nat, name: string, overwrites: seq<Overwrite>)
    requires ChannelsWellFormed(cs, next)
    ensures var pod := PodChannels(next + 1, name, name, overwrites);
      && LastNamedChannel(cs + pod, name) == Some(pod[0])
      && RemoveChannels(cs + pod, PodIds(cs + pod, next + 1)) == cs
  {
    var pod := PodChannels(next + 1, name, name, overwrites);
    var ids := PodIds(cs + pod, next + 1);
    PodFoundByName(cs, next + 1, name, overwrites);
    PodIdsOfCreation(cs, next, name, overwrites);
    RemoveChannelsNone(cs, ids);
    RemoveChannelsAll(pod, ids);
    RemoveChannelsAppend(cs, pod, ids);
  }

  /** Deleting the team role of a by-name create leaves the roles before it. */
  lemma RoleRemovalUndoesCreation(rs: seq<Role>, next: nat, name: string)
    requires RolesWellFormed(rs, next)
    ensures RemoveRoles(rs + [PodRole(next, name)], {next}) == rs
  {
    forall r | r in rs ensures r.id !in {next} {
      assert HasRole(rs, r);
    }
    RemoveRolesNone(rs, {next});
    RemoveRolesAppend(rs, [PodRole(next, name)], {next});
  }

  /** A by-name create followed by a by-role delete of the new role gives
      the guild back its roles and channels. */
  method CreateThenDelete(g: Guild, msg: StatusMessage, teamName: string) returns (restored: bool)
    requires g.Valid()
    modifies g, msg
    ensures g.Valid()
    ensures restored <==> LastNamedRole(old(g.roles), AdminRoleName).Some?
    ensures restored ==> g.roles == old(g.roles) && g.channels == old(g.channels)
  {
    ghost var roles0, channels0 := g.roles, g.channels;
    var next0 := g.nextId;
    var created := CreateByName(g, msg, teamName);
    if !created {
      return false;
    }
    ghost var adminId := LastNamedRole(roles0, AdminRoleName).value.id;
    PodRemovalUndoesCreation(channels0, next0, teamName, PodOverwrites(g.id, next0, adminId));
    RoleRemovalUndoesCreation(roles0, next0, teamName);
    var removed := DeleteByRole(g, msg, PodRole(next0, teamName));
    restored := true;
  }
}
