// Provisioning of team pods: one role and one category holding a text, a
// support and a voice channel, created by name or as a batch "Team 1..N".

module Provision {
  import opened Text
  import opened Discord
  import opened Lookup
  import opened Status

  /** The colour every team role gets (0x3498DB). */
  const Blue: int := 3447003

  /** The role that may view and manage every pod. */
  const AdminRoleName: string := "Green Team"

  /** A team role after its edit: blue, hoisted, mentionable, no permissions. */
  function PodRole(roleId: nat, name: string): Role {
    Role(roleId, name, Blue, true, 0, true)
  }

  /** The category's overwrites: hidden from the default role (whose id is
      the guild's), visible to the team role, visible and manageable for
      the admin role. */
  function PodOverwrites(guildId: nat, roleId: nat, adminId: nat): seq<Overwrite> {
    [ Overwrite(guildId, RoleOverwrite, 0, ViewChannel),
      Overwrite(roleId, RoleOverwrite, ViewChannel, 0),
      Overwrite(adminId, RoleOverwrite, ViewChannel + ManageChannels, 0) ]
  }

  /** The category and its three children, in creation order. */
  function PodChannels(categoryId: nat, categoryName: string, childPrefix: string, overwrites: seq<Overwrite>): seq<Channel> {
    [ Channel(categoryId, categoryName, CategoryChannel, NoParent, overwrites),
      Channel(categoryId + 1, childPrefix + "-text", TextChannel, categoryId, []),
      Channel(categoryId + 2, childPrefix + "-support", TextChannel, categoryId, []),
      Channel(categoryId + 3, childPrefix + "-voice", VoiceChannel, categoryId, []) ]
  }

  /** Role and category name of batch job j (counted from 1). */
  function JobName(j: nat): string {
    "Team " + NatToString(j)
  }

  /** Prefix of the child channel names of batch job j. */
  function JobPrefix(j: nat): string {
    "team-" + NatToString(j)
  }

  /** The id of job j's role when the batch starts at id `base`; its
      category and children take the four ids after it. */
  function JobId(base: nat, j: nat): nat
    requires j >= 1
  {
    base + 5 * (j - 1)
  }

  /** The roles a batch of n jobs appends. */
  function BatchRoles(base: nat, n: nat): (r: seq<Role>)
    ensures |r| == n
  {
    if n == 0 then [] else BatchRoles(base, n - 1) + [PodRole(JobId(base, n), JobName(n))]
  }

  /** The channels a batch of n jobs appends, four per job. */
  function BatchChannels(guildId: nat, base: nat, adminId: nat, n: nat): (r: seq<Channel>)
    ensures |r| == 4 * n
  {
    if n == 0 then []
    else BatchChannels(guildId, base, adminId, n - 1)
         + PodChannels(JobId(base, n) + 1, JobName(n), JobPrefix(n), PodOverwrites(guildId, JobId(base, n), adminId))
  }

  /** One more job appends its role, then its category and three children,
      on the five ids after the previous job's. */
  lemma AfterBatchStep(rs: seq<Role>, cs: seq<Channel>, guildId: nat, base: nat, adminId: nat, j: nat)
    ensures rs + BatchRoles(base, j + 1) == rs + BatchRoles(base, j) + [PodRole(base + 5 * j, JobName(j + 1))]
    ensures cs + BatchChannels(guildId, base, adminId, j + 1)
            == cs + BatchChannels(guildId, base, adminId, j)
               + PodChannels(base + 5 * j + 1, JobName(j + 1), JobPrefix(j + 1), PodOverwrites(guildId, base + 5 * j, adminId))
  {
    assert JobId(base, j + 1) == base + 5 * j;
    var role := PodRole(base + 5 * j, JobName(j + 1));
    var pod := PodChannels(base + 5 * j + 1, JobName(j + 1), JobPrefix(j + 1), PodOverwrites(guildId, base + 5 * j, adminId));
    assert rs + (BatchRoles(base, j) + [role]) == rs + BatchRoles(base, j) + [role];
    assert cs + (BatchChannels(guildId, base, adminId, j) + pod) == cs + BatchChannels(guildId, base, adminId, j) + pod;
  }

  /** Job j of a batch of n: role "Team j"; a category "Team j"; children
      "team-j-text", "team-j-support" (text) and "team-j-voice" (voice),
      all three parented to that category. */
  lemma {:induction false} BatchJob(guildId: nat, base: nat, adminId: nat, n: nat, j: nat)
    requires 1 <= j <= n
    ensures BatchRoles(base, n)[j - 1] == PodRole(JobId(base, j), JobName(j))
    ensures var pod := BatchChannels(guildId, base, adminId, n)[4 * (j - 1)..4 * j];
      && pod == PodChannels(JobId(base, j) + 1, JobName(j), JobPrefix(j), PodOverwrites(guildId, JobId(base, j), adminId))
      && pod[0].name == JobName(j) && pod[0].kind == CategoryChannel
      && pod[1].name == JobPrefix(j) + "-text" && pod[1].kind == TextChannel
      && pod[2].name == JobPrefix(j) + "-support" && pod[2].kind == TextChannel
      && pod[3].name == JobPrefix(j) + "-voice" && pod[3].kind == VoiceChannel
      && pod[1].parentId == pod[2].parentId == pod[3].parentId == pod[0].id
    decreases n
  {
    if j < n {
      BatchJob(guildId, base, adminId, n - 1, j);
      var prev := BatchChannels(guildId, base, adminId, n - 1);
      assert BatchChannels(guildId, base, adminId, n)[..4 * (n - 1)] == prev;
      assert BatchChannels(guildId, base, adminId, n)[4 * (j - 1)..4 * j] == prev[4 * (j - 1)..4 * j];
    } else {
      var prev := BatchChannels(guildId, base, adminId, n - 1);
      assert BatchChannels(guildId, base, adminId, n)[4 * (j - 1)..4 * j] == BatchChannels(guildId, base, adminId, n)[|prev|..];
    }
  }

  /** Different jobs of a batch get different names. */
  lemma JobNamesDistinct(j: nat, k: nat)
    ensures j != k ==> JobName(j) != JobName(k) && JobPrefix(j) != JobPrefix(k)
  {
    if JobName(j) == JobName(k) {
      assert NatToString(j) == JobName(j)[5..] == JobName(k)[5..] == NatToString(k);
      NatToStringInjective(j, k);
    }
    if JobPrefix(j) == JobPrefix(k) {
      assert NatToString(j) == JobPrefix(j)[5..] == JobPrefix(k)[5..] == NatToString(k);
      NatToStringInjective(j, k);
    }
  }

  /** Batch-created team names are never protected, so delete-all takes
      every one of them. */
  lemma JobNameUnprotected(j: nat)
    ensures !IsProtected(JobName(j))
  {
    var name := JobName(j);
    forall i | 0 <= i < |name| ensures name[i] in "Team 0123456789" {
      if i >= 5 {
        assert name[i] == NatToString(j)[i - 5];
        assert IsDigit(name[i]);
      }
    }
    UnprotectedByMissingChars(name);
  }

  /** Creates a role and edits it into a team role named `name`. */
  method CreateTeamRole(g: Guild, name: string) returns (role: Role)
    requires g.Valid()
    modifies g
    ensures g.Valid()
    ensures role == PodRole(old(g.nextId), name)
    ensures g.roles == old(g.roles) + [role]
    ensures g.channels == old(g.channels) && g.nextId == old(g.nextId) + 1
  {
    var created := g.RoleCreate();
    forall x | x in old(g.roles) ensures x.id != created.id {
      assert HasRole(old(g.roles), x);
    }
    EditAppendedRole(old(g.roles), created, name, Blue, true, 0, true);
    g.RoleEdit(created.id, name, Blue, true, 0, true);
    role := PodRole(created.id, name);
  }

  /** Creates the category, private to the team and admin roles, then its
      text, support and voice children. */
  method CreatePodChannels(g: Guild, categoryName: string, childPrefix: string, roleId: nat, adminId: nat)
      returns (category: Channel)
    requires g.Valid()
    modifies g
    ensures g.Valid()
    ensures category.id == old(g.nextId)
    ensures g.channels == old(g.channels) + PodChannels(old(g.nextId), categoryName, childPrefix,
                                                        PodOverwrites(g.id, roleId, adminId))
    ensures g.roles == old(g.roles) && g.nextId == old(g.nextId) + 4
  {
    category := g.ChannelCreateComplex(categoryName, CategoryChannel, NoParent,
                                       PodOverwrites(g.id, roleId, adminId));
    var text := g.ChannelCreateComplex(childPrefix + "-text", TextChannel, category.id, []);
    var support := g.ChannelCreateComplex(childPrefix + "-support", TextChannel, category.id, []);
    var voice := g.ChannelCreateComplex(childPrefix + "-voice", VoiceChannel, category.id, []);
  }

  /** The by-name create: role, then category, then the three children.
      A missing admin role makes the category's overwrite dereference
      nothing; the handler stops there, after the role was made. */
  method CreateByName(g: Guild, msg: StatusMessage, teamName: string) returns (created: bool)
    requires g.Valid()
    modifies g, msg
    ensures g.Valid()
    ensures created <==> LastNamedRole(old(g.roles), AdminRoleName).Some?
    ensures g.roles == old(g.roles) + [PodRole(old(g.nextId), teamName)]
    ensures created ==> g.channels == old(g.channels) + PodChannels(old(g.nextId) + 1, teamName, teamName,
                          PodOverwrites(g.id, old(g.nextId), LastNamedRole(old(g.roles), AdminRoleName).value.id))
                        && g.nextId == old(g.nextId) + 5
    ensures !created ==> g.channels == old(g.channels) && g.nextId == old(g.nextId) + 1
    ensures msg.title == "Creating team " + teamName
    ensures msg.content == SingleJobDocument(teamName, if created then CreatedSuccessfully else CreatingChannels)
    ensures msg.shown == old(msg.shown)
                         + [ SingleJobDocument(teamName, Initializing), SingleJobDocument(teamName, CreatingRole),
                             SingleJobDocument(teamName, CreatingChannels) ]
                         + (if created then [SingleJobDocument(teamName, CreatedSuccessfully)] else [])
  {
    var greenTeam := FindRoleByName(g, AdminRoleName);
    var title := "Creating team " + teamName;
    msg.Edit(title, SingleJobDocument(teamName, Initializing));

    msg.Edit(title, SingleJobDocument(teamName, CreatingRole));
    var role := CreateTeamRole(g, teamName);

    msg.Edit(title, SingleJobDocument(teamName, CreatingChannels));
    if greenTeam.None? {
      return false;
    }
    var category := CreatePodChannels(g, teamName, teamName, role.id, greenTeam.value.id);
    msg.Edit(title, SingleJobDocument(teamName, CreatedSuccessfully));
    created := true;
  }

  /** The state of a batch after its first j jobs: those are done, their
      roles and pods follow the guild's earlier ones, the rest are waiting. */
  ghost predicate BatchAt(g: Guild, statuses: array<string>, roles0: seq<Role>, channels0: seq<Channel>,
                          base: nat, adminId: nat, j: nat)
    reads g, statuses
  {
    && j <= statuses.Length
    && statuses[..] == Progress(statuses.Length, j, Done, Initializing)
    && g.roles == roles0 + BatchRoles(base, j)
    && g.channels == channels0 + BatchChannels(g.id, base, adminId, j)
    && g.nextId == base + 5 * j
  }

  /** The role half of job j + 1: "Creating role...", the team role, then
      "Creating channels...", each status republished. */
  method StartJob(g: Guild, msg: StatusMessage, title: string, statuses: array<string>, j: nat)
      returns (role: Role)
    requires g.Valid()
    requires j < statuses.Length
    modifies g, msg, statuses
    ensures g.Valid()
    ensures statuses[..] == old(statuses[..])[j := CreatingChannels]
    ensures role == PodRole(old(g.nextId), JobName(j + 1))
    ensures g.roles == old(g.roles) + [role]
    ensures g.channels == old(g.channels) && g.nextId == old(g.nextId) + 1
    ensures msg.title == title && msg.content == BatchDocument(statuses[..])
    ensures msg.shown == old(msg.shown) + [BatchDocument(old(statuses[..])[j := CreatingRole]), BatchDocument(statuses[..])]
  {
    statuses[j] := CreatingRole;
    BatchUpdateEmbed(msg, title, statuses[..]);
    role := CreateTeamRole(g, JobName(j + 1));

    statuses[j] := CreatingChannels;
    BatchUpdateEmbed(msg, title, statuses[..]);
  }

  /** Job j + 1 of the batch, from "Creating role..." to "**Done.**"; the
      status array is the batch's own and is republished after each step. */
  method CreateJob(g: Guild, msg: StatusMessage, title: string, statuses: array<string>, j: nat, greenTeam: Option<Role>,
                   ghost roles0: seq<Role>, ghost channels0: seq<Channel>, ghost base: nat)
      returns (done: bool)
    requires g.Valid()
    requires j < statuses.Length
    requires BatchAt(g, statuses, roles0, channels0, base, AdminId(greenTeam), j)
    modifies g, msg, statuses
    ensures g.Valid()
    ensures done <==> greenTeam.Some?
    ensures done ==> BatchAt(g, statuses, roles0, channels0, base, AdminId(greenTeam), j + 1)
    ensures !done ==> && statuses[..] == Progress(statuses.Length, j, Done, Initializing)[j := CreatingChannels]
                      && g.roles == old(g.roles) + [PodRole(old(g.nextId), JobName(j + 1))]
                      && g.channels == old(g.channels) && g.nextId == old(g.nextId) + 1
    ensures msg.title == title && msg.content == BatchDocument(statuses[..])
    ensures msg.shown == old(msg.shown) + BatchJobEdits(statuses.Length, j, done)
  {
    var role := StartJob(g, msg, title, statuses, j);
    if greenTeam.None? {
      return false;
    }
    var category := CreatePodChannels(g, JobName(j + 1), JobPrefix(j + 1), role.id, greenTeam.value.id);
    statuses[j] := Done;
    BatchUpdateEmbed(msg, title, statuses[..]);
    ProgressStep(statuses.Length, j, Done, Initializing);
    AfterBatchStep(roles0, channels0, g.id, base, AdminId(greenTeam), j);
    done := true;
  }

  /** The first job stopped at "Creating channels..." with all others waiting. */
  lemma BatchProgressStopped(n: nat)
    requires 0 < n
    ensures Progress(n, 0, Done, Initializing)[0 := CreatingChannels] == [CreatingChannels] + seq(n - 1, _ => Initializing)
  {
    var a := Progress(n, 0, Done, Initializing)[0 := CreatingChannels];
    var b := [CreatingChannels] + seq(n - 1, _ => Initializing);
    forall k | 0 <= k < n ensures a[k] == b[k] {
    }
  }

  /** Sets every status of a new batch to "Initializing..." while writing
      the first batch-create text. */
  method InitializeStatuses(statuses: array<string>) returns (content: string)
    modifies statuses
    ensures statuses[..] == Progress(statuses.Length, 0, Done, Initializing)
    ensures content == BatchDocument(statuses[..])
  {
    content := BatchCreateHeader;
    for j := 0 to statuses.Length
      invariant forall k :: 0 <= k < j ==> statuses[k] == Initializing
      invariant content == BatchDocument(statuses[..j])
    {
      statuses[j] := Initializing;
      BatchDocumentGrows(statuses[..], j);
      assert statuses[..][..j + 1] == statuses[..j + 1] && statuses[..][..j] == statuses[..j];
      content := content + BatchLine(j + 1, statuses[j]);
    }
    assert statuses[..statuses.Length] == statuses[..];
    ghost var waiting := Progress(statuses.Length, 0, Done, Initializing);
    assert forall k :: 0 <= k < statuses.Length ==> waiting[k] == Initializing;
    assert statuses[..] == waiting;
  }

  /** Runs the batch's jobs strictly in sequence, job j + 1 only after job
      j is done; the first job stops the batch when the admin role is missing. */
  method RunJobs(g: Guild, msg: StatusMessage, title: string, statuses: array<string>, greenTeam: Option<Role>)
      returns (completed: nat)
    requires g.Valid()
    requires statuses[..] == Progress(statuses.Length, 0, Done, Initializing)
    requires msg.title == title && msg.content == BatchDocument(statuses[..])
    modifies g, msg, statuses
    ensures g.Valid() && msg.title == title
    ensures greenTeam.Some? || statuses.Length == 0 ==>
      && completed == statuses.Length
      && g.roles == old(g.roles) + BatchRoles(old(g.nextId), statuses.Length)
      && g.channels == old(g.channels) + BatchChannels(g.id, old(g.nextId), AdminId(greenTeam), statuses.Length)
      && g.nextId == old(g.nextId) + 5 * statuses.Length
      && statuses[..] == seq(statuses.Length, _ => Done)
      && msg.content == BatchDocument(seq(statuses.Length, _ => Done))
      && msg.shown == BatchShown(old(msg.shown), statuses.Length, statuses.Length)
    ensures greenTeam.None? && statuses.Length > 0 ==>
      && completed == 0
      && g.roles == old(g.roles) + [PodRole(old(g.nextId), JobName(1))]
      && g.channels == old(g.channels) && g.nextId == old(g.nextId) + 1
      && statuses[..] == [CreatingChannels] + seq(statuses.Length - 1, _ => Initializing)
      && msg.content == BatchDocument([CreatingChannels] + seq(statuses.Length - 1, _ => Initializing))
      && msg.shown == old(msg.shown) + BatchJobEdits(statuses.Length, 0, false)
  {
    var n := statuses.Length;
    ghost var roles0, channels0, base := g.roles, g.channels, g.nextId;
    var j := 0;
    while j < n
      invariant 0 <= j <= n
      invariant g.Valid()
      invariant greenTeam.None? ==> j == 0
      invariant BatchAt(g, statuses, roles0, channels0, base, AdminId(greenTeam), j)
      invariant msg.title == title && msg.content == BatchDocument(Progress(n, j, Done, Initializing))
      invariant msg.shown == BatchShown(old(msg.shown), n, j)
    {
      var done := CreateJob(g, msg, title, statuses, j, greenTeam, roles0, channels0, base);
      if !done {
        BatchProgressStopped(n);
        return 0;
      }
      j := j + 1;
    }
    ProgressFinished(n, Done, Initializing);
    completed := n;
  }

  /** The batch create: every status starts "Initializing...", then the jobs
      run. A negative count fails when the status slice is allocated,
      before anything is published. */
  method CreateBatch(g: Guild, msg: StatusMessage, teamCount: int) returns (completed: nat)
    requires g.Valid()
    modifies g, msg
    ensures g.Valid()
    ensures teamCount < 0 ==>
      && completed == 0 && g.roles == old(g.roles) && g.channels == old(g.channels)
      && g.nextId == old(g.nextId) && msg.title == old(msg.title) && msg.content == old(msg.content)
      && msg.shown == old(msg.shown)
    ensures teamCount >= 0 ==> msg.title == "Building " + NatToString(teamCount) + " teams"
    ensures teamCount >= 0 && (teamCount == 0 || LastNamedRole(old(g.roles), AdminRoleName).Some?) ==>
      && completed == teamCount
      && g.roles == old(g.roles) + BatchRoles(old(g.nextId), teamCount)
      && g.channels == old(g.channels) + BatchChannels(g.id, old(g.nextId), AdminId(LastNamedRole(old(g.roles), AdminRoleName)), teamCount)
      && g.nextId == old(g.nextId) + 5 * teamCount
      && msg.content == BatchDocument(seq(teamCount, _ => Done))
      && msg.shown == BatchShown(old(msg.shown) + [BatchDocument(Progress(teamCount, 0, Done, Initializing))], teamCount, teamCount)
    ensures teamCount > 0 && LastNamedRole(old(g.roles), AdminRoleName).None? ==>
      && completed == 0
      && g.roles == old(g.roles) + [PodRole(old(g.nextId), JobName(1))]
      && g.channels == old(g.channels) && g.nextId == old(g.nextId) + 1
      && msg.content == BatchDocument([CreatingChannels] + seq(teamCount - 1, _ => Initializing))
      && msg.shown == old(msg.shown) + [BatchDocument(Progress(teamCount, 0, Done, Initializing))] + BatchJobEdits(teamCount, 0, false)
  {
    var greenTeam := FindRoleByName(g, AdminRoleName);
    if teamCount < 0 {
      return 0;
    }
    var n: nat := teamCount;
    var title := "Building " + NatToString(n) + " teams";
    var statuses := new string[n];
    var content := InitializeStatuses(statuses);
    msg.Edit(title, content);
    completed := RunJobs(g, msg, title, statuses, greenTeam);
  }

  /** The admin role's id as the overwrite records it; only read when the
      role exists. */
  function AdminId(greenTeam: Option<Role>): nat {
    match greenTeam
    case Some(r) => r.id
    case None => 0
  }
}
