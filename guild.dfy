// The chat guild the bot works on, reduced to what the team-pod workflow
// touches: its roles, its channels, and the calls that create, edit and
// delete them. Each platform call is one method on `Guild`; ids are handed
// out from a single counter, as snowflakes are unique across resources.

module Discord {

  /** A lookup that may find nothing (a nil pointer in the Go handler). */
  datatype Option<T> = None | Some(value: T)

  /** Channel types as the platform numbers them. */
  const TextChannel: int := 0
  const VoiceChannel: int := 2
  const CategoryChannel: int := 4

  /** The empty parent id of a channel that sits in no category. */
  const NoParent: nat := 0

  /** Permission flags used in the pods' overwrites (bits 10 and 4). */
  const ViewChannel: nat := 1024
  const ManageChannels: nat := 16

  /** Overwrite target kind 0: the overwrite is for a role. */
  const RoleOverwrite: int := 0

  /** The name the platform gives a role created without parameters. */
  const DefaultRoleName: string := "new role"

  datatype Overwrite = Overwrite(target: nat, kind: int, allow: nat, deny: nat)

  datatype Role = Role(id: nat, name: string, color: int, hoist: bool, permissions: int, mentionable: bool)

  datatype Channel = Channel(id: nat, name: string, kind: int, parentId: nat, overwrites: seq<Overwrite>)

  /** Membership in the guild's lists. The well-formedness conditions below
      quantify over it, so they are only instantiated for the roles and
      channels a proof names explicitly. */
  predicate HasRole(rs: seq<Role>, r: Role) {
    r in rs
  }

  predicate HasChannel(cs: seq<Channel>, c: Channel) {
    c in cs
  }

  /** Ids are positive, below the next fresh id, and name one resource each. */
  ghost predicate RolesWellFormed(rs: seq<Role>, next: nat) {
    && (forall r {:trigger HasRole(rs, r)} :: HasRole(rs, r) ==> 0 < r.id < next)
    && (forall a, b {:trigger HasRole(rs, a), HasRole(rs, b)} :: HasRole(rs, a) && HasRole(rs, b) && a.id == b.id ==> a == b)
  }

  /** As for roles; a parent id is empty or was handed out before. */
  ghost predicate ChannelsWellFormed(cs: seq<Channel>, next: nat) {
    && (forall c {:trigger HasChannel(cs, c)} :: HasChannel(cs, c) ==> 0 < c.id < next && c.parentId < next)
    && (forall a, b {:trigger HasChannel(cs, a), HasChannel(cs, b)} :: HasChannel(cs, a) && HasChannel(cs, b) && a.id == b.id ==> a == b)
  }

  /** The channels whose id is not in `ids`, in their original order. */
  function RemoveChannels(cs: seq<Channel>, ids: set<nat>): (r: seq<Channel>)
    ensures |r| <= |cs|
    ensures forall c :: c in r <==> c in cs && c.id !in ids
  {
    if cs == [] then [] else (if cs[0].id in ids then [] else [cs[0]]) + RemoveChannels(cs[1..], ids)
  }

  /** The roles whose id is not in `ids`, in their original order. */
  function RemoveRoles(rs: seq<Role>, ids: set<nat>): (r: seq<Role>)
    ensures |r| <= |rs|
    ensures forall x :: x in r <==> x in rs && x.id !in ids
  {
    if rs == [] then [] else (if rs[0].id in ids then [] else [rs[0]]) + RemoveRoles(rs[1..], ids)
  }

  /** Removing one id set after another removes their union. */
  lemma {:induction false} RemoveChannelsTwice(cs: seq<Channel>, a: set<nat>, b: set<nat>)
    ensures RemoveChannels(RemoveChannels(cs, a), b) == RemoveChannels(cs, a + b)
    decreases |cs|
  {
    if cs != [] {
      var rest := cs[1..];
      RemoveChannelsTwice(rest, a, b);
      if cs[0].id in a {
        assert RemoveChannels(cs, a) == RemoveChannels(rest, a);
      } else {
        var once := RemoveChannels(cs, a);
        assert once == [cs[0]] + RemoveChannels(rest, a);
        assert once[0] == cs[0] && once[1..] == RemoveChannels(rest, a);
        assert RemoveChannels(once, b) == (if cs[0].id in b then [] else [cs[0]]) + RemoveChannels(rest, a + b);
      }
    }
  }

  lemma {:induction false} RemoveRolesTwice(rs: seq<Role>, a: set<nat>, b: set<nat>)
    ensures RemoveRoles(RemoveRoles(rs, a), b) == RemoveRoles(rs, a + b)
    decreases |rs|
  {
    if rs != [] {
      var rest := rs[1..];
      RemoveRolesTwice(rest, a, b);
      if rs[0].id in a {
        assert RemoveRoles(rs, a) == RemoveRoles(rest, a);
      } else {
        var once := RemoveRoles(rs, a);
        assert once == [rs[0]] + RemoveRoles(rest, a);
        assert once[0] == rs[0] && once[1..] == RemoveRoles(rest, a);
        assert RemoveRoles(once, b) == (if rs[0].id in b then [] else [rs[0]]) + RemoveRoles(rest, a + b);
      }
    }
  }

  /** Removal distributes over concatenation, so it keeps the order. */
  lemma {:induction false} RemoveChannelsAppend(a: seq<Channel>, b: seq<Channel>, ids: set<nat>)
    ensures RemoveChannels(a + b, ids) == RemoveChannels(a, ids) + RemoveChannels(b, ids)
    decreases |a|
  {
    if a != [] {
      assert (a + b)[1..] == a[1..] + b;
      RemoveChannelsAppend(a[1..], b, ids);
    } else {
      assert a + b == b;
    }
  }

  lemma {:induction false} RemoveRolesAppend(a: seq<Role>, b: seq<Role>, ids: set<nat>)
    ensures RemoveRoles(a + b, ids) == RemoveRoles(a, ids) + RemoveRoles(b, ids)
    decreases |a|
  {
    if a != [] {
      assert (a + b)[1..] == a[1..] + b;
      RemoveRolesAppend(a[1..], b, ids);
    } else {
      assert a + b == b;
    }
  }

  /** Removing ids that no channel carries changes nothing. */
  lemma {:induction false} RemoveChannelsNone(cs: seq<Channel>, ids: set<nat>)
    requires forall c :: c in cs ==> c.id !in ids
    ensures RemoveChannels(cs, ids) == cs
    decreases |cs|
  {
    if cs != [] {
      assert cs[0] in cs;
      RemoveChannelsNone(cs[1..], ids);
    }
  }

  /** Removing every id the channels carry leaves none. */
  lemma {:induction false} RemoveChannelsAll(cs: seq<Channel>, ids: set<nat>)
    requires forall c :: c in cs ==> c.id in ids
    ensures RemoveChannels(cs, ids) == []
    decreases |cs|
  {
    if cs != [] {
      assert cs[0] in cs;
      RemoveChannelsAll(cs[1..], ids);
    }
  }

  lemma {:induction false} RemoveRolesNone(rs: seq<Role>, ids: set<nat>)
    requires forall r :: r in rs ==> r.id !in ids
    ensures RemoveRoles(rs, ids) == rs
    decreases |rs|
  {
    if rs != [] {
      assert rs[0] in rs;
      RemoveRolesNone(rs[1..], ids);
    }
  }

  /** `rs` with the role carrying `id` given the new attributes. */
  function EditRole(rs: seq<Role>, id: nat, name: string, color: int, hoist: bool, permissions: int, mentionable: bool): seq<Role> {
    seq(|rs|, i requires 0 <= i < |rs| =>
      if rs[i].id == id then Role(id, name, color, hoist, permissions, mentionable) else rs[i])
  }

  /** Editing a role just appended to roles with other ids changes only it. */
  lemma EditAppendedRole(rs: seq<Role>, r: Role, name: string, color: int, hoist: bool, permissions: int, mentionable: bool)
    requires forall x :: x in rs ==> x.id != r.id
    ensures EditRole(rs + [r], r.id, name, color, hoist, permissions, mentionable)
            == rs + [Role(r.id, name, color, hoist, permissions, mentionable)]
  {
    var edited := EditRole(rs + [r], r.id, name, color, hoist, permissions, mentionable);
    forall i | 0 <= i < |rs| ensures edited[i] == rs[i] {
      assert rs[i] in rs;
    }
  }

  /** Well-formedness survives a larger next id. */
  lemma RolesWellFormedGrow(rs: seq<Role>, next: nat, next': nat)
    requires RolesWellFormed(rs, next) && next <= next'
    ensures RolesWellFormed(rs, next')
  {
    forall r | HasRole(rs, r) ensures 0 < r.id < next' {
      assert HasRole(rs, r);
    }
  }

  lemma ChannelsWellFormedGrow(cs: seq<Channel>, next: nat, next': nat)
    requires ChannelsWellFormed(cs, next) && next <= next'
    ensures ChannelsWellFormed(cs, next')
  {
    forall c | HasChannel(cs, c) ensures 0 < c.id < next' && c.parentId < next' {
      assert HasChannel(cs, c);
    }
  }

  /** A role with the next fresh id can be appended. */
  lemma RolesWellFormedAppend(rs: seq<Role>, r: Role, next: nat)
    requires RolesWellFormed(rs, next) && 0 < r.id == next
    ensures RolesWellFormed(rs + [r], next + 1)
  {
    var rs' := rs + [r];
    forall x | HasRole(rs', x) ensures 0 < x.id < next + 1 {
      if x != r {
        assert HasRole(rs, x);
      }
    }
    forall a, b | HasRole(rs', a) && HasRole(rs', b) && a.id == b.id ensures a == b {
      if a != r {
        assert HasRole(rs, a);
      }
      if b != r {
        assert HasRole(rs, b);
      }
    }
  }

  /** A channel with the next fresh id and an earlier parent can be appended. */
  lemma ChannelsWellFormedAppend(cs: seq<Channel>, c: Channel, next: nat)
    requires ChannelsWellFormed(cs, next) && 0 < c.id == next && c.parentId < next
    ensures ChannelsWellFormed(cs + [c], next + 1)
  {
    var cs' := cs + [c];
    forall x | HasChannel(cs', x) ensures 0 < x.id < next + 1 && x.parentId < next + 1 {
      if x != c {
        assert HasChannel(cs, x);
      }
    }
    forall a, b | HasChannel(cs', a) && HasChannel(cs', b) && a.id == b.id ensures a == b {
      if a != c {
        assert HasChannel(cs, a);
      }
      if b != c {
        assert HasChannel(cs, b);
      }
    }
  }

  /** Deleting roles keeps the rest well formed. */
  lemma RemoveRolesWellFormed(rs: seq<Role>, ids: set<nat>, next: nat)
    requires RolesWellFormed(rs, next)
    ensures RolesWellFormed(RemoveRoles(rs, ids), next)
  {
    var rs' := RemoveRoles(rs, ids);
    forall x | HasRole(rs', x) ensures 0 < x.id < next {
      assert HasRole(rs, x);
    }
    forall a, b | HasRole(rs', a) && HasRole(rs', b) && a.id == b.id ensures a == b {
      assert HasRole(rs, a) && HasRole(rs, b);
    }
  }

  lemma RemoveChannelsWellFormed(cs: seq<Channel>, ids: set<nat>, next: nat)
    requires ChannelsWellFormed(cs, next)
    ensures ChannelsWellFormed(RemoveChannels(cs, ids), next)
  {
    var cs' := RemoveChannels(cs, ids);
    forall x | HasChannel(cs', x) ensures 0 < x.id < next && x.parentId < next {
      assert HasChannel(cs, x);
    }
    forall a, b | HasChannel(cs', a) && HasChannel(cs', b) && a.id == b.id ensures a == b {
      assert HasChannel(cs, a) && HasChannel(cs, b);
    }
  }

  /** Editing a role's attributes keeps every id where it was. */
  lemma EditRoleWellFormed(rs: seq<Role>, id: nat, name: string, color: int, hoist: bool, permissions: int,
                           mentionable: bool, next: nat)
    requires RolesWellFormed(rs, next)
    ensures RolesWellFormed(EditRole(rs, id, name, color, hoist, permissions, mentionable), next)
  {
    var rs' := EditRole(rs, id, name, color, hoist, permissions, mentionable);
    forall x | HasRole(rs', x) ensures 0 < x.id < next {
      var i :| 0 <= i < |rs'| && rs'[i] == x;
      assert HasRole(rs, rs[i]);
    }
    forall a, b | HasRole(rs', a) && HasRole(rs', b) && a.id == b.id ensures a == b {
      var i :| 0 <= i < |rs'| && rs'[i] == a;
      var k :| 0 <= k < |rs'| && rs'[k] == b;
      assert HasRole(rs, rs[i]) && HasRole(rs, rs[k]);
    }
  }

  class Guild {
    /** The guild's own id, which is also the id of its default role. */
    const id: nat
    var roles: seq<Role>
    var channels: seq<Channel>
    /** The id the next created role or channel receives. */
    var nextId: nat

    ghost predicate Valid()
      reads this
    {
      0 < nextId && RolesWellFormed(roles, nextId) && ChannelsWellFormed(channels, nextId)
    }

    /** Role creation with no parameters: a fresh role holding placeholder values that the handler's edit replaces. */
    method RoleCreate() returns (r: Role)
      requires Valid()
      modifies this
      ensures Valid()
      ensures r == Role(old(nextId), DefaultRoleName, 0, false, 0, false)
      ensures roles == old(roles) + [r] && channels == old(channels) && nextId == old(nextId) + 1
    {
      r := Role(nextId, DefaultRoleName, 0, false, 0, false);
      RolesWellFormedAppend(roles, r, nextId);
      ChannelsWellFormedGrow(channels, nextId, nextId + 1);
      roles := roles + [r];
      nextId := nextId + 1;
    }

    /** Sets name, colour, hoist, permissions and mentionable of one role;
        an unknown id is an error the caller discards, so nothing changes. */
    method RoleEdit(roleId: nat, name: string, color: int, hoist: bool, permissions: int, mentionable: bool)
      requires Valid()
      modifies this
      ensures Valid()
      ensures roles == EditRole(old(roles), roleId, name, color, hoist, permissions, mentionable)
      ensures channels == old(channels) && nextId == old(nextId)
    {
      EditRoleWellFormed(roles, roleId, name, color, hoist, permissions, mentionable, nextId);
      roles := EditRole(roles, roleId, name, color, hoist, permissions, mentionable);
    }

    /** Creates a channel of the given type under `parentId` (or none). */
    method ChannelCreateComplex(name: string, kind: int, parentId: nat, overwrites: seq<Overwrite>) returns (c: Channel)
      requires Valid()
      requires parentId < nextId
      modifies this
      ensures Valid()
      ensures c == Channel(old(nextId), name, kind, parentId, overwrites)
      ensures channels == old(channels) + [c] && roles == old(roles) && nextId == old(nextId) + 1
    {
      c := Channel(nextId, name, kind, parentId, overwrites);
      ChannelsWellFormedAppend(channels, c, nextId);
      RolesWellFormedGrow(roles, nextId, nextId + 1);
      channels := channels + [c];
      nextId := nextId + 1;
    }

    /** Deletes the channel with this id; an unknown id deletes nothing. */
    method ChannelDelete(channelId: nat)
      requires Valid()
      modifies this
      ensures Valid()
      ensures channels == RemoveChannels(old(channels), {channelId})
      ensures roles == old(roles) && nextId == old(nextId)
    {
      RemoveChannelsWellFormed(channels, {channelId}, nextId);
      channels := RemoveChannels(channels, {channelId});
    }

    /** Deletes the role with this id; an unknown id deletes nothing. */
    method RoleDelete(roleId: nat)
      requires Valid()
      modifies this
      ensures Valid()
      ensures roles == RemoveRoles(old(roles), {roleId})
      ensures channels == old(channels) && nextId == old(nextId)
    {
      RemoveRolesWellFormed(roles, {roleId}, nextId);
      roles := RemoveRoles(roles, {roleId});
    }
  }
}
