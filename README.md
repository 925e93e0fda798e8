# Team pods of the RvBMo bot, modelled in Dafny

The `teams` slash command of the RvBMo chat bot manages "pods" in a guild.
A pod is one team role plus one private category, and the category holds a
`-text`, a `-support` and a `-voice` channel. The command has four branches:

- `create by-name` builds one pod named after the team.
- `create batch` builds the pods "Team 1" to "Team N" in sequence.
- `delete by-role` removes the pod of a given role.
- `delete all` removes the pod of every role whose name is not protected.

While it works, the bot keeps re-editing one status message. Each edit is
a full re-render of every job's current status.

The model has six modules:

- `Discord` (`guild.dfy`) holds the guild the bot works on. A `Guild` class
  has a sequence of roles, a sequence of channels and one fresh-id counter.
  Each platform call (`GuildRoleCreate`, `GuildRoleEdit`,
  `GuildChannelCreateComplex`, `ChannelDelete`, `GuildRoleDelete`) is a
  method that updates that state.
  - The guild invariant `Valid` says ids are positive, unique and below the
    counter.
- `Lookup` (`lookup.dfy`) holds the two name scans (`FindChannelByName`,
  `FindRoleByName`) and the protected-name filter of delete-all.
- `Status` (`status.dfy`) holds the status constants and the rendered texts
  of every edit. The message is a `StatusMessage` class.
- `Provision` (`provision.dfy`) holds the by-name and batch creates.
- `Deprovision` (`deprovision.dfy`) holds the by-role delete, the
  delete-all sweep, and the round trip from a by-name create to a by-role
  delete.
- `Text` (`text.dfy`) holds the `%d` rendering and the substring test that
  replaces the unanchored regular expression.

The handler's loops are loops in the model. These are the status-slice
loops, the `+=` render loops, the `append` filter, the overwriting `FindX`
scans and the delete loops over the snapshots. Each loop method is proved
against a specification function: `BatchDocument`, `DeleteAllDocument`,
`LastNamedChannel`, `Unprotected`, `RemoveChannels`, `BatchRoles` and
`BatchChannels`, `Sweep`. Lemmas then say what those functions mean:

- `BatchDocumentLineAt` and `BatchDocumentNewlines` give a batch render's
  lines, and `DeleteAllDocumentLineAt` and `DeleteAllDocumentNewlines` do the
  same for delete-all.
- `LastNamedChannelSpec` characterises the lookup.
- `Unprotected` and `RemoveChannels` state membership in their own
  contracts, and `UnprotectedAppend` and `RemoveChannelsAppend` state order.
- `AfterBatchStep` and `BatchJob` give each job's role and channels.
- `SweepRemovesSweptIds` states the sweep's closed form: the snapshot less
  the union of the handled pods' ids.

Every status edit is also recorded, in order, in the message's ghost
history `shown`. The methods state that whole history, through
`BatchShown`, `SweepShown`, `BatchJobEdits` and `RemoveJobEdits`.

Each of the handler's nil dereferences is a panic. The model turns each one
into an early return that leaves exactly the state reached before the
panic. The panics are:

- a missing "Green Team" role, which fails after the team role was created;
- a missing category in a delete;
- a negative team count (`make` panics).

Both lookups return the **last** exact-name match, and the channel lookup
considers channels of every type. The scans at main.go:472-477 and
main.go:485-489 have no early exit and no type test.
`LastNamedChannelSpec` and `LastNamedRoleSpec` state this.

## Model

| member | source | states |
|---|---|---|
| Text.NatToString | main.go:249 | the `%d` rendering of a count is a non-empty string of decimal digits |
| Text.ParseNatToString | main.go:249 | reading the `%d` rendering back as a decimal gives the number, so the rendering loses nothing |
| Text.NatToStringInjective | main.go:249 | distinct numbers render to distinct strings |
| Text.OccursAtContains | main.go:364 | an occurrence of the pattern at any offset is found by the unanchored left-to-right test |
| Text.ContainsIffOccurs | main.go:364 | the unanchored test succeeds exactly when the pattern occurs at some offset of the name |
| Text.ContainsCharsOf | main.go:364 | a name containing a pattern contains each of the pattern's characters |
| Text.Contains | main.go:364 | definition: the unanchored test, which tries the pattern at every offset from the left; `ContainsIffOccurs` states what it accepts |
| Discord.RemoveChannels | main.go:338 | a channel survives the deletions exactly when it was there and its id was not deleted (the order is kept, by `RemoveChannelsAppend`) |
| Discord.RemoveRoles | main.go:349 | a role survives exactly when it was there and its id was not deleted |
| Discord.RemoveChannelsTwice | main.go:336-341 | deleting one id set and then another is deleting their union |
| Discord.RemoveRolesTwice | main.go:398-402 | deleting roles by one id set and then another is deleting by their union |
| Discord.RemoveChannelsAppend | main.go:336-341 | deletion by ids distributes over a concatenation of channel lists |
| Discord.RemoveRolesAppend | main.go:347-351 | deletion by ids distributes over a concatenation of role lists |
| Discord.RemoveChannelsNone | main.go:336-341 | deleting ids that no channel carries changes nothing |
| Discord.RemoveChannelsAll | main.go:336-341 | deleting every listed id leaves no channel |
| Discord.RemoveRolesNone | main.go:347-351 | deleting ids that no role carries changes nothing |
| Discord.EditAppendedRole | main.go:167-176 | editing a just-created role whose id is fresh only replaces that last role |
| Discord.EditRole | main.go:168-176 | definition: every role carrying the id takes the new name, colour, hoist, permissions and mentionable flag; the others are kept; `EditAppendedRole` and `EditRoleWellFormed` state its effect |
| Discord.RolesWellFormedAppend | main.go:167 | appending a role with the next fresh id keeps the role ids unique and in range |
| Discord.ChannelsWellFormedAppend | main.go:182-218 | appending a channel with the next fresh id and an earlier or empty parent keeps the channel invariant |
| Discord.RemoveRolesWellFormed | main.go:349 | deleting roles keeps the role invariant |
| Discord.RemoveChannelsWellFormed | main.go:338 | deleting channels keeps the channel invariant |
| Discord.EditRoleWellFormed | main.go:168-176 | a role edit keeps the role invariant |
| Discord.Guild.RoleCreate | main.go:167 | appends one role under the next id, with placeholder values (no name, colour, hoist, permissions or mention) that the edit then replaces; channels are unchanged |
| Discord.Guild.RoleEdit | main.go:168-176 | the roles become their edit; channels and the counter are unchanged |
| Discord.Guild.ChannelCreateComplex | main.go:182-202 | appends exactly the requested channel under the next id; roles are unchanged |
| Discord.Guild.ChannelDelete | main.go:338 | removes the channel with that id, if any, and nothing else |
| Discord.Guild.RoleDelete | main.go:349 | removes the role with that id, if any, and nothing else |
| Lookup.LastNamedChannelSpec | main.go:467-479 | the lookup finds nothing exactly when no channel, of any type, has the name; otherwise the result is a channel of the list with that name, and no later channel has it |
| Lookup.LastNamedRoleSpec | main.go:481-491 | the role lookup finds nothing exactly when no role has the name; otherwise the result is a role of the list with that name, and no later role has it |
| Lookup.LastNamedChannel | main.go:472-477 | definition: the last channel of the list with exactly that name, of any type, or nothing; `LastNamedChannelSpec` states it |
| Lookup.LastNamedRole | main.go:485-489 | definition: the last role of the list with exactly that name, or nothing; `LastNamedRoleSpec` states it |
| Lookup.FindChannelByName | main.go:467-479 | the scan with no early exit returns the last exact-name match among the guild's channels, or nothing |
| Lookup.FindRoleByName | main.go:481-491 | the scan returns the last exact-name match among the guild's roles, or nothing |
| Lookup.Unprotected | main.go:361-368 | a role is kept exactly when it is in the guild and its name matches no protected pattern |
| Lookup.UnprotectedAppend | main.go:361-368 | the filter distributes over concatenation, so the kept roles stay in guild order |
| Lookup.FilterUnprotected | main.go:361-368 | the `append` loop builds exactly the filtered role list |
| Lookup.ProtectedExamples | main.go:364 | "@everyone", "Green Team", "Red Team", "RvBMo" and "Public Info" are protected |
| Lookup.UnprotectedByMissingChars | main.go:364 | a name without 'v', 'G', 'R' or 'P' matches none of the protected patterns |
| Lookup.IsProtected | main.go:364 | definition: a name is protected when it contains one of "everyone", "Green Team", "Red Team", "RvBMo", "Public"; `ContainsIffOccurs` and `ProtectedExamples` say what that accepts |
| Status.BatchDocumentGrows | main.go:429-431 | each render step appends "Team k+1: status" and a line break |
| Status.DeleteAllDocumentGrows | main.go:437-439 | each delete-all render step appends "name: status" and a line break |
| Status.DeleteAllInitialGrows | main.go:374-377 | each step of the first delete-all text appends "name: status" with no line break |
| Status.BatchDocument | main.go:427-433 | definition: the "**Batch Create**" header and then one "Team k: status" line per job; `BatchDocumentLineAt` and `BatchDocumentNewlines` state its lines |
| Status.DeleteAllDocument | main.go:435-441 | definition: the "**Batch Remove**" header and then one "name: status" line per role; `DeleteAllDocumentLineAt` and `DeleteAllDocumentNewlines` state its lines |
| Status.DeleteAllInitialDocument | main.go:373-377 | definition: the header and then the "name: status" entries with no break between them; `DeleteAllInitialNewlines` states that |
| Status.SingleJobDocument | main.go:158-159 | definition: the by-name text, "**Single Job**" and one "name: status" line, shown at main.go:164-165, 179-180 and 220-221 too |
| Status.SingleRemoveDocument | main.go:321-323 | definition: the by-role text, "**Single Team Remove**" and one "name: status" entry, shown at main.go:332-334, 343-345 and 354-356 too |
| Status.SingleJobDocumentNewlines | main.go:158-159 | the by-name text is exactly two lines, the header and the entry |
| Status.SingleRemoveDocumentNewlines | main.go:321-323 | the by-role text has only the header's line break: its entry has no trailing break |
| Status.EntryNewlines | main.go:323 | a "name: status" entry adds no line break |
| Status.BatchJobEdits | main.go:255-297 | definition: the renders one batch job shows, "Creating role...", "Creating channels..." and, when it completes, "**Done.**" |
| Status.BatchShown | main.go:241-298 | definition: the renders of the first k batch jobs, in job order, after the earlier texts |
| Status.RemoveJobEdits | main.go:383-406 | definition: the renders one delete-all team shows, "Deleting role..." once, or twice and then "**Removed successfully.**" |
| Status.SweepShown | main.go:380-407 | definition: the renders of the first k delete-all teams, in order, after the earlier texts |
| Status.HeaderNewlines | main.go:428 | a bold header has exactly one line break |
| Status.BatchCreateHeaderNewlines | main.go:428 | "**Batch Create**" is on a line of its own |
| Status.BatchRemoveHeaderNewlines | main.go:436 | "**Batch Remove**" is on a line of its own |
| Status.NatToStringNoNewline | main.go:430 | a team number contains no line break |
| Status.BatchDocumentLineAt | main.go:427-433 | the rendered text starts with the header and the lines of the jobs before k, followed by job k's own line, in index order |
| Status.DeleteAllDocumentLineAt | main.go:435-441 | the delete-all text starts with the header and the lines of the teams before k, followed by team k's own "name: status" line, in guild order |
| Status.BatchLineNewlines | main.go:430 | a job line has exactly one line break |
| Status.BatchLinesNewlines | main.go:429-431 | the job lines hold exactly one line break per status |
| Status.BatchDocumentNewlines | main.go:427-433 | a batch render has exactly one line per status plus the header line |
| Status.RemoveLinesNewlines | main.go:437-439 | the delete-all lines hold exactly one line break per status |
| Status.DeleteAllDocumentNewlines | main.go:435-441 | a delete-all render has exactly one line per status plus the header line |
| Status.InitialRemoveEntriesNewlines | main.go:374-377 | the first delete-all entries contain no line break at all |
| Status.DeleteAllInitialNewlines | main.go:373-377 | the first delete-all text has only the header's line break, so its entries run together |
| Status.Progress | main.go:233-298 | definition: the statuses of a batch whose first k jobs are finished and whose others are waiting; `ProgressAt` states each position |
| Status.ProgressAt | main.go:241-297 | while job k+1 is next, a batch's statuses are the finished status before k and the waiting status from k on |
| Status.ProgressStep | main.go:296 | marking the next job finished advances the progress by one job |
| Status.ProgressFinished | main.go:241-298 | when every job is through, every status is the finished one |
| Status.StatusMessage.constructor | main.go:132-139 | the first reply reads "Bouncing back" / "Starting", and that is the only text shown so far |
| Status.StatusMessage.Edit | main.go:442-446 | an edit replaces the shown title and text and adds the text to the history |
| Status.RenderBatch | main.go:428-431 | the `+=` loop yields the header and then one "Team k: status" line per status, in order |
| Status.BatchUpdateEmbed | main.go:427-433 | the message shows the given title and the batch render of the statuses, and that render is added to the history |
| Status.RenderDeleteAll | main.go:436-439 | the `+=` loop yields the header and then one "role name: status" line per status, in order |
| Status.DeleteAllUpdateEmbed | main.go:435-441 | the message shows the given title and the delete-all render of the statuses, and that render is added to the history |
| Provision.BatchRoles | main.go:245-254 | a batch of n jobs appends exactly n roles |
| Provision.BatchChannels | main.go:259-295 | a batch of n jobs appends exactly 4n channels |
| Provision.AfterBatchStep | main.go:241-298 | each further job appends exactly its role, then its category and three children, on the five ids after the previous job's |
| Provision.BatchJob | main.go:245-295 | job j adds the role "Team j" and a category "Team j" of type 4, whose children "team-j-text" and "team-j-support" (type 0) and "team-j-voice" (type 2) all point to that category |
| Provision.PodOverwrites | main.go:185-201 | definition: the category hides itself from the default role and shows itself to the team role and, with channel management, to the admin role |
| Provision.PodChannels | main.go:182-218 | definition: the category and then its "-text", "-support" and "-voice" children on the next three ids, parented to it; `PodFoundByName` and `PodIdsOfCreation` build on it |
| Provision.JobNamesDistinct | main.go:249 | distinct jobs get distinct role names and channel prefixes |
| Provision.JobNameUnprotected | main.go:249 | a batch team name is never protected, so delete-all targets it |
| Provision.CreateTeamRole | main.go:167-176 | create-then-edit appends one blue, hoisted, mentionable team role under the next id and changes nothing else |
| Provision.CreatePodChannels | main.go:182-218 | appends the category with its three overwrites and then its text, support and voice children parented to it; roles are unchanged |
| Provision.CreateByName | main.go:155-222 | with the admin role present, adds exactly one role and four channels named after the team; without it, stops after the role at "Creating channels..."; the texts shown are, in order, the entry at "Initializing...", "Creating role...", "Creating channels..." and, when the create completes, "**Created successfully.**" |
| Provision.StartJob | main.go:243-258 | a batch job's role phase: the batch text is shown with the job at "Creating role..." and then at "Creating channels...", the job's status is left at "Creating channels...", and exactly one team role "Team j" is appended |
| Provision.CreateJob | main.go:242-297 | one batch job either completes, advancing the batch's state by one pod and marking the job "**Done.**", or stops with the admin role missing; the texts it shows are the job's "Creating role...", "Creating channels..." and, when it completes, "**Done.**" renders |
| Provision.BatchProgressStopped | main.go:257-274 | when the first job stops, the statuses read "Creating channels..." and then "Initializing..." for every other job |
| Provision.InitializeStatuses | main.go:233-238 | every status starts as "Initializing..." and the first text lists them all |
| Provision.RunJobs | main.go:241-298 | the batch loop keeps the status invariant "done before j, waiting from j"; at the end every status is "**Done.**", exactly the batch's roles and channels were appended, and every job's three renders were shown in job order; with the admin role missing it stops in job 1 after that job's first two renders |
| Provision.CreateBatch | main.go:231-298 | the whole batch create with its title "Building N teams", showing the all-"Initializing..." render first and then the jobs' renders; a negative count aborts before any change or edit |
| Deprovision.ChildIdsMembers | main.go:336-340 | an id is deleted by the child loop exactly when a snapshot channel with that parent carries it |
| Deprovision.IdsOfMembers | main.go:398-402 | an id is among a role list's ids exactly when some listed role carries it |
| Deprovision.ChildIds | main.go:336-340 | definition: the ids of the snapshot channels whose parent is the category; `ChildIdsMembers` states that membership |
| Deprovision.PodIds | main.go:336-341 | definition: a pod's ids, its children in the snapshot and the category itself |
| Deprovision.DeleteChildren | main.go:336-340 | deletes exactly the channels whose id belongs to a child of the parent in the snapshot |
| Deprovision.DeletePod | main.go:336-341 | deletes exactly the snapshot's children of the parent and the parent itself; roles are unchanged |
| Deprovision.DeleteMatchingRoles | main.go:347-351 | deletes the role with the target id when a listed role carries it, and nothing otherwise |
| Deprovision.RemoveMatchingRole | main.go:347-351 | the id's guarded deletion equals deleting by that id outright |
| Deprovision.DeleteByRole | main.go:319-357 | with a channel named after the role, removes exactly that pod's children, the pod itself and the role; without one, changes nothing and stops at "Deleting role..."; the texts shown are "Finding...", "Deleting role..." and, when the pod is found, "Deleting role..." again and "**Removed successfully.**" |
| Deprovision.RemovePodAndRole | main.go:336-357 | once the category is found: removes exactly its children in the snapshot, the category and the role, and shows "Deleting role..." and then "**Removed successfully.**" |
| Deprovision.SweepOnlyRemoves | main.go:380-407 | the sweep only ever removes channels |
| Deprovision.SweepStep | main.go:380-392 | handling the next team removes the pod found under its name from the live channels |
| Deprovision.Sweep | main.go:380-392 | definition: the teams in order, each removing the pod under the last channel named after it in what is left, and failing at the first team with no such channel |
| Deprovision.SweptIds | main.go:336-341 | definition: the union of the pod ids the successful sweep steps delete |
| Deprovision.SweepRemovesSweptIds | main.go:380-392 | a successful sweep leaves exactly the original channels, in order, less the union of the handled pods' ids |
| Deprovision.DeleteAllKeepsExactlyProtected | main.go:358-407 | after a complete delete-all, a role remains exactly when it was protected |
| Deprovision.InitializeRemoveStatuses | main.go:371-377 | every delete-all status starts as "Finding..."; the first text runs the entries together |
| Deprovision.SweepStatuses | main.go:380-406 | definition: the delete-all statuses after k teams, "**Removed successfully.**" before k and "Finding..." after, with team k at "Deleting role..." when the sweep stopped there |
| Deprovision.RemoveTeamRole | main.go:394-402 | a sweep step's role deletion extends the deleted ids by the team's id |
| Deprovision.MarkDeleting | main.go:385-386 | a delete-all team's status becomes "Deleting role...", every other status is kept, and the new render is shown |
| Deprovision.DeleteFoundPod | main.go:387-396 | a delete-all team's channel phase: removes exactly the pod's ids and shows the "Deleting role..." render once more; roles and statuses are unchanged |
| Deprovision.RemoveFoundTeam | main.go:387-406 | a delete-all team whose category is found: the sweep state advances by that team, and the renders shown are "Deleting role..." and then the team's "**Removed successfully.**" |
| Deprovision.RemoveJob | main.go:380-406 | one team: found, its pod and role are removed and its status is "**Removed successfully.**"; not found, nothing changes and its status is left at "Deleting role..."; the renders shown are the team's "Deleting role..." once, or twice and then its "**Removed successfully.**" |
| Deprovision.SweepTeams | main.go:380-407 | the sweep loop handles teams in order and stops at the first missing category, having shown each handled team's renders in order |
| Deprovision.DeleteAll | main.go:358-407 | the whole delete-all: its title counts the unprotected roles; channels are what the sweep leaves, which is the original channels less the handled pods' ids; the roles lose exactly the handled teams' ids; the first text shown is the all-"Finding..." one |
| Deprovision.PodFoundByName | main.go:182-218 | after a by-name create, looking up the team's name finds the new category, not its children |
| Deprovision.PodIdsOfCreation | main.go:182-218 | the ids the delete takes are the four new channels' and none of the earlier channels' |
| Deprovision.PodRemovalUndoesCreation | main.go:336-341 | deleting the pod found after a create leaves exactly the earlier channels |
| Deprovision.RoleRemovalUndoesCreation | main.go:347-351 | deleting the new team role leaves exactly the earlier roles |
| Deprovision.CreateThenDelete | main.go:162-222 | a by-name create followed by a by-role delete of its role gives back the guild's roles and channels whenever the create completed |

## Left out

- Session setup, the bot token flag, command registration and removal, the signal wait in `main` and the `ping` command (main.go:14-31, 119-127, 493-531). These are process plumbing and foreign calls.
- `InteractionRespond`, `InteractionResponseEdit`, the embed built by `makeEmbed` (its "RvBMo • " title prefix and its colour) and `log.Printf` are network and log output. `StatusMessage` keeps the title and text of the latest edit, and the ghost sequence of every text shown.
- Parsing of the interaction options is library data access. The team name, the team count and the target role are parameters. `RoleValue`'s resolution of the role option is not part of this model.
- The regular expression engine is not modelled. The unanchored pattern is the equivalent test "the name contains one of the five alternatives". `.?everyone` reduces to "everyone" because `.?` may match nothing.
- Permission overwrites are opaque data on the category. Permission evaluation, and the meaning of the bits, are not modelled.
- Errors returned by the platform calls are discarded by the source and not modelled otherwise: every call succeeds. Deleting an id that no longer exists is a no-op.
- Discord.Guild.ChannelCreateComplex: requires the parent id to be empty or below the id counter. It does not model the platform's rejection of an unknown parent, because the handler only ever passes the category it has just made.
- Snowflake ids are naturals drawn from one counter. A real guild's ids are not consecutive. The contracts name the consecutive ids that the one counter hands out. The round-trip lemmas (`PodIdsOfCreation`, `PodRemovalUndoesCreation`, `CreateThenDelete`) need only that those ids are unused.
- A real category delete orphans any remaining children. The model deletes a category like any other channel, and by then the handler has already deleted the snapshot's children.
- Each panic is modelled as an early return with the state reached before it. Recovery of the process and the request's failure are not modelled.
- Provision.CreateBatch: the count is an unbounded integer. The 64-bit option value and its conversion to `int` are not modelled.
- Created roles and channels are appended at the end of the lists that the lookups and the deletes scan. The chat platform that the Go handler calls returns them in an order of its own. `PodFoundByName`, `PodRemovalUndoesCreation` and `CreateThenDelete` depend on this order: the new category is found as the last channel with the team's name.
- As written, delete-all shows "Deleting role..." while it deletes the channels as well as while it deletes the role. By-role's text has no trailing line break. The first delete-all text runs its entries together (`DeleteAllInitialNewlines`).
- As written, delete-all's role loop walks the filtered role list, not the guild's roles. The model does the same. The team's own role is always in that list.
