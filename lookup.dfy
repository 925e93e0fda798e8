// Name lookups over the guild (FindChannelByName, FindRoleByName) and the
// protected-name filter that delete-all applies to the guild's roles.

module Lookup {
  import opened Text
  import opened Discord

  /** The last channel of `cs` named exactly `name`, if any. */
  function LastNamedChannel(cs: seq<Channel>, name: string): Option<Channel> {
    if cs == [] then None
    else if cs[|cs| - 1].name == name then Some(cs[|cs| - 1])
    else LastNamedChannel(cs[..|cs| - 1], name)
  }

  /** The last role of `rs` named exactly `name`, if any. */
  function LastNamedRole(rs: seq<Role>, name: string): Option<Role> {
    if rs == [] then None
    else if rs[|rs| - 1].name == name then Some(rs[|rs| - 1])
    else LastNamedRole(rs[..|rs| - 1], name)
  }

  /** Nothing is found exactly when no channel has the name; what is found
      has the name, and no later channel has it. */
  lemma {:induction false} LastNamedChannelSpec(cs: seq<Channel>, name: string)
    ensures LastNamedChannel(cs, name).None? <==> forall i :: 0 <= i < |cs| ==> cs[i].name != name
    ensures LastNamedChannel(cs, name).Some? ==>
      exists i :: 0 <= i < |cs| && cs[i] == LastNamedChannel(cs, name).value && cs[i].name == name &&
                  forall j :: i < j < |cs| ==> cs[j].name != name
    decreases |cs|
  {
    if cs == [] {
    } else if cs[|cs| - 1].name == name {
      assert cs[|cs| - 1] == LastNamedChannel(cs, name).value;
    } else {
      var init := cs[..|cs| - 1];
      LastNamedChannelSpec(init, name);
      if LastNamedChannel(init, name).Some? {
        var i :| 0 <= i < |init| && init[i] == LastNamedChannel(init, name).value && init[i].name == name &&
                 forall j :: i < j < |init| ==> init[j].name != name;
        assert cs[i] == init[i];
        assert forall j :: i < j < |cs| ==> cs[j].name != name by {
          forall j | i < j < |cs| ensures cs[j].name != name {
            if j < |init| {
              assert cs[j] == init[j];
            }
          }
        }
      } else {
        assert forall i :: 0 <= i < |init| ==> init[i] == cs[i];
      }
    }
  }

  /** The same for roles. */
  lemma {:induction false} LastNamedRoleSpec(rs: seq<Role>, name: string)
    ensures LastNamedRole(rs, name).None? <==> forall i :: 0 <= i < |rs| ==> rs[i].name != name
    ensures LastNamedRole(rs, name).Some? ==>
      exists i :: 0 <= i < |rs| && rs[i] == LastNamedRole(rs, name).value && rs[i].name == name &&
                  forall j :: i < j < |rs| ==> rs[j].name != name
    decreases |rs|
  {
    if rs == [] {
    } else if rs[|rs| - 1].name == name {
      assert rs[|rs| - 1] == LastNamedRole(rs, name).value;
    } else {
      var init := rs[..|rs| - 1];
      LastNamedRoleSpec(init, name);
      if LastNamedRole(init, name).Some? {
        var i :| 0 <= i < |init| && init[i] == LastNamedRole(init, name).value && init[i].name == name &&
                 forall j :: i < j < |init| ==> init[j].name != name;
        assert rs[i] == init[i];
        assert forall j :: i < j < |rs| ==> rs[j].name != name by {
          forall j | i < j < |rs| ensures rs[j].name != name {
            if j < |init| {
              assert rs[j] == init[j];
            }
          }
        }
      } else {
        assert forall i :: 0 <= i < |init| ==> init[i] == rs[i];
      }
    }
  }

  /** Scans every channel of the guild, of any type, keeping the latest
      exact-name match (the scan has no early exit). */
  method FindChannelByName(g: Guild, channelName: string) returns (channel: Option<Channel>)
    ensures channel == LastNamedChannel(g.channels, channelName)
  {
    var channels := g.channels;
    channel := None;
    var j := 0;
    while j < |channels|
      invariant 0 <= j <= |channels|
      invariant channel == LastNamedChannel(channels[..j], channelName)
    {
      assert channels[..j + 1][..j] == channels[..j];
      if channels[j].name == channelName {
        channel := Some(channels[j]);
      }
      j := j + 1;
    }
    assert channels[..j] == channels;
  }

  /** Scans every role of the guild, keeping the latest exact-name match. */
  method FindRoleByName(g: Guild, roleName: string) returns (role: Option<Role>)
    ensures role == LastNamedRole(g.roles, roleName)
  {
    var roles := g.roles;
    role := None;
    var j := 0;
    while j < |roles|
      invariant 0 <= j <= |roles|
      invariant role == LastNamedRole(roles[..j], roleName)
    {
      assert roles[..j + 1][..j] == roles[..j];
      if roles[j].name == roleName {
        role := Some(roles[j]);
      }
      j := j + 1;
    }
    assert roles[..j] == roles;
  }

  /** The alternatives of the unanchored pattern
      `(.?everyone|Green Team|Red Team|RvBMo|Public)`; `.?` may match the
      empty string, so the first alternative is the substring "everyone". */
  const ProtectedPatterns: seq<string> := ["everyone", "Green Team", "Red Team", "RvBMo", "Public"]

  /** The name matches the pattern somewhere, so delete-all must spare it. */
  predicate IsProtected(name: string) {
    exists k :: 0 <= k < |ProtectedPatterns| && Contains(name, ProtectedPatterns[k])
  }

  /** The roles delete-all works on: the unprotected ones, in guild order. */
  function Unprotected(rs: seq<Role>): (r: seq<Role>)
    ensures |r| <= |rs|
    ensures forall x :: x in r <==> x in rs && !IsProtected(x.name)
  {
    if rs == [] then [] else (if IsProtected(rs[0].name) then [] else [rs[0]]) + Unprotected(rs[1..])
  }

  /** Filtering distributes over concatenation: the kept roles stay in order. */
  lemma {:induction false} UnprotectedAppend(a: seq<Role>, b: seq<Role>)
    ensures Unprotected(a + b) == Unprotected(a) + Unprotected(b)
    decreases |a|
  {
    if a == [] {
      assert a + b == b;
    } else {
      assert (a + b)[1..] == a[1..] + b;
      UnprotectedAppend(a[1..], b);
    }
  }

  /** Builds the list of roles to delete by appending each unprotected role. */
  method FilterUnprotected(groles: seq<Role>) returns (roles: seq<Role>)
    ensures roles == Unprotected(groles)
  {
    roles := [];
    for i := 0 to |groles|
      invariant roles == Unprotected(groles[..i])
    {
      assert groles[..i + 1] == groles[..i] + [groles[i]];
      UnprotectedAppend(groles[..i], [groles[i]]);
      if !IsProtected(groles[i].name) {
        roles := roles + [groles[i]];
      }
    }
    assert groles[..|groles|] == groles;
  }

  /** Concrete reading of the pattern: the default role and the reserved
      team and bot roles are protected. */
  lemma ProtectedExamples()
    ensures IsProtected("@everyone")
    ensures IsProtected("Green Team") && IsProtected("Red Team")
    ensures IsProtected("RvBMo") && IsProtected("Public Info")
  {
    assert Contains("@everyone", ProtectedPatterns[0]) by {
      assert StartsWith("@everyone"[1..], "everyone");
    }
    assert StartsWith("Green Team", ProtectedPatterns[1]);
    assert StartsWith("Red Team", ProtectedPatterns[2]);
    assert StartsWith("RvBMo", ProtectedPatterns[3]);
    assert StartsWith("Public Info", ProtectedPatterns[4]);
  }

  /** A name is unprotected once every pattern has a character it lacks. */
  lemma {:induction false} UnprotectedByMissingChars(name: string)
    requires 'v' !in name && 'G' !in name && 'R' !in name && 'P' !in name
    ensures !IsProtected(name)
  {
    forall k | 0 <= k < |ProtectedPatterns| ensures !Contains(name, ProtectedPatterns[k]) {
      var p := ProtectedPatterns[k];
      var at: nat := if k == 0 then 1 else 0;
      assert p[at] in "vGRRP";
      if Contains(name, p) {
        ContainsCharsOf(name, p, at);
      }
    }
  }
}
