// The status message the teams command keeps editing, and the text it is
// given: every edit is a full re-render of the current job statuses.

module Status {
  import opened Text
  import opened Discord

  /** Job statuses, exactly as published. */
  const Initializing: string := "Initializing..."
  const CreatingRole: string := "Creating role..."
  const CreatingChannels: string := "Creating channels..."
  const Done: string := "**Done.**"
  const CreatedSuccessfully: string := "**Created successfully.**"
  const Finding: string := "Finding..."
  const DeletingRole: string := "Deleting role..."
  const RemovedSuccessfully: string := "**Removed successfully.**"

  /** A bold title on a line of its own. */
  function Header(title: string): string {
    "**" + title + "**\n"
  }

  const BatchCreateHeader: string := Header("Batch Create")
  const BatchRemoveHeader: string := Header("Batch Remove")
  const SingleJobHeader: string := Header("Single Job")
  const SingleRemoveHeader: string := Header("Single Team Remove")

  /** The number of line breaks in a text. */
  function Newlines(s: string): nat {
    multiset(s)['\n']
  }

  predicate NoNewline(s: string) {
    '\n' !in s
  }

  /** The line of batch job `team` (counted from 1). */
  function BatchLine(team: nat, status: string): string {
    "Team " + NatToString(team) + ": " + status + "\n"
  }

  function BatchLines(statuses: seq<string>): string {
    if statuses == [] then ""
    else BatchLines(statuses[..|statuses| - 1]) + BatchLine(|statuses|, statuses[|statuses| - 1])
  }

  /** What a batch-create edit shows for the given statuses. */
  function BatchDocument(statuses: seq<string>): string {
    BatchCreateHeader + BatchLines(statuses)
  }

  /** The line of the delete-all job for a role called `name`. */
  function RemoveLine(name: string, status: string): string {
    name + ": " + status + "\n"
  }

  function RemoveLines(roles: seq<Role>, statuses: seq<string>): string
    requires |statuses| <= |roles|
  {
    if statuses == [] then ""
    else RemoveLines(roles, statuses[..|statuses| - 1])
         + RemoveLine(roles[|statuses| - 1].name, statuses[|statuses| - 1])
  }

  /** What a delete-all progress edit shows; job i is labelled by role i. */
  function DeleteAllDocument(roles: seq<Role>, statuses: seq<string>): string
    requires |statuses| <= |roles|
  {
    BatchRemoveHeader + RemoveLines(roles, statuses)
  }

  /** The entries of the first delete-all edit, written without a line break. */
  function InitialRemoveEntries(roles: seq<Role>, statuses: seq<string>): string
    requires |statuses| <= |roles|
  {
    if statuses == [] then ""
    else InitialRemoveEntries(roles, statuses[..|statuses| - 1])
         + roles[|statuses| - 1].name + ": " + statuses[|statuses| - 1]
  }

  function DeleteAllInitialDocument(roles: seq<Role>, statuses: seq<string>): string
    requires |statuses| <= |roles|
  {
    BatchRemoveHeader + InitialRemoveEntries(roles, statuses)
  }

  function SingleJobDocument(name: string, status: string): string {
    SingleJobHeader + name + ": " + status + "\n"
  }

  /** The single remove shows its one entry without a trailing line break. */
  function SingleRemoveDocument(name: string, status: string): string {
    SingleRemoveHeader + name + ": " + status
  }

  /** Each loop step of a batch render appends job k + 1's line. */
  lemma BatchDocumentGrows(statuses: seq<string>, k: nat)
    requires k < |statuses|
    ensures BatchDocument(statuses[..k + 1]) == BatchDocument(statuses[..k]) + BatchLine(k + 1, statuses[k])
  {
    assert statuses[..k + 1][..k] == statuses[..k];
    var lines := BatchLines(statuses[..k]);
    assert BatchCreateHeader + (lines + BatchLine(k + 1, statuses[k]))
        == (BatchCreateHeader + lines) + BatchLine(k + 1, statuses[k]);
  }

  /** Each loop step of a delete-all render appends entry k's line. */
  lemma DeleteAllDocumentGrows(roles: seq<Role>, statuses: seq<string>, k: nat)
    requires k < |statuses| <= |roles|
    ensures DeleteAllDocument(roles, statuses[..k + 1])
            == DeleteAllDocument(roles, statuses[..k]) + RemoveLine(roles[k].name, statuses[k])
  {
    assert statuses[..k + 1][..k] == statuses[..k];
    var lines := RemoveLines(roles, statuses[..k]);
    assert BatchRemoveHeader + (lines + RemoveLine(roles[k].name, statuses[k]))
        == (BatchRemoveHeader + lines) + RemoveLine(roles[k].name, statuses[k]);
  }

  /** Each loop step of the first delete-all text appends entry k, unbroken. */
  lemma DeleteAllInitialGrows(roles: seq<Role>, statuses: seq<string>, k: nat)
    requires k < |statuses| <= |roles|
    ensures DeleteAllInitialDocument(roles, statuses[..k + 1])
            == DeleteAllInitialDocument(roles, statuses[..k]) + roles[k].name + ": " + statuses[k]
  {
    assert statuses[..k + 1][..k] == statuses[..k];
    var entries := InitialRemoveEntries(roles, statuses[..k]);
    var entry := roles[k].name + ": " + statuses[k];
    assert entries + roles[k].name + ": " + statuses[k] == entries + entry;
    assert BatchRemoveHeader + (entries + entry) == (BatchRemoveHeader + entries) + entry;
  }

  /** Line breaks of a concatenation add up. */
  lemma NewlinesAppend(a: string, b: string)
    ensures Newlines(a + b) == Newlines(a) + Newlines(b)
  {
    assert multiset(a + b) == multiset(a) + multiset(b);
  }

  /** A header is a line of text without breaks, ended by one. */
  lemma HeaderNewlines(title: string)
    requires NoNewline(title)
    ensures Newlines(Header(title)) == 1
  {
    NewlinesAppend("**" + title, "**\n");
    NewlinesAppend("**", title);
    assert '\n' !in multiset(title);
  }

  lemma BatchCreateHeaderNewlines()
    ensures Newlines(BatchCreateHeader) == 1
  {
    HeaderNewlines("Batch Create");
  }

  lemma BatchRemoveHeaderNewlines()
    ensures Newlines(BatchRemoveHeader) == 1
  {
    HeaderNewlines("Batch Remove");
  }

  lemma NatToStringNoNewline(n: nat)
    ensures Newlines(NatToString(n)) == 0
  {
  }

  /** The rendering of the first k statuses is followed by line k + 1, so
      the document lists the jobs in index order. */
  lemma {:induction false} BatchDocumentLineAt(statuses: seq<string>, k: nat)
    requires k < |statuses|
    ensures BatchDocument(statuses[..k]) + BatchLine(k + 1, statuses[k]) <= BatchDocument(statuses)
    decreases |statuses|
  {
    var init := statuses[..|statuses| - 1];
    if k == |statuses| - 1 {
      assert init == statuses[..k];
      assert BatchDocument(statuses) == BatchDocument(statuses[..k]) + BatchLine(k + 1, statuses[k]);
    } else {
      assert init[..k] == statuses[..k] && init[k] == statuses[k];
      BatchDocumentLineAt(init, k);
      var line := BatchDocument(statuses[..k]) + BatchLine(k + 1, statuses[k]);
      assert BatchDocument(statuses) == BatchDocument(init) + BatchLine(|statuses|, statuses[|statuses| - 1]);
      assert BatchDocument(statuses)[..|line|] == BatchDocument(init)[..|line|];
    }
  }

  /** The delete-all rendering of the first k statuses is followed by role
      k's line, so the document lists the teams in guild order. */
  lemma {:induction false} DeleteAllDocumentLineAt(roles: seq<Role>, statuses: seq<string>, k: nat)
    requires k < |statuses| <= |roles|
    ensures DeleteAllDocument(roles, statuses[..k]) + RemoveLine(roles[k].name, statuses[k]) <= DeleteAllDocument(roles, statuses)
    decreases |statuses|
  {
    var init := statuses[..|statuses| - 1];
    if k == |statuses| - 1 {
      assert init == statuses[..k];
      DeleteAllDocumentGrows(roles, statuses, k);
      assert statuses[..k + 1] == statuses;
    } else {
      assert init[..k] == statuses[..k] && init[k] == statuses[k];
      DeleteAllDocumentLineAt(roles, init, k);
      var line := DeleteAllDocument(roles, statuses[..k]) + RemoveLine(roles[k].name, statuses[k]);
      DeleteAllDocumentGrows(roles, statuses, |statuses| - 1);
      assert statuses[..|statuses|] == statuses;
      assert DeleteAllDocument(roles, statuses)[..|line|] == DeleteAllDocument(roles, init)[..|line|];
    }
  }

  /** A "name: status" entry after any text adds no line break. */
  lemma EntryNewlines(before: string, name: string, status: string)
    requires NoNewline(name) && NoNewline(status)
    ensures Newlines(before + name + ": " + status) == Newlines(before)
  {
    assert '\n' !in multiset(name) && '\n' !in multiset(status);
    NewlinesAppend(before, name);
    NewlinesAppend(before + name, ": ");
    NewlinesAppend(before + name + ": ", status);
  }

  /** The by-name text is its header line and one entry line. */
  lemma SingleJobDocumentNewlines(name: string, status: string)
    requires NoNewline(name) && NoNewline(status)
    ensures Newlines(SingleJobDocument(name, status)) == 2
  {
    HeaderNewlines("Single Job");
    EntryNewlines(SingleJobHeader, name, status);
    NewlinesAppend(SingleJobHeader + name + ": " + status, "\n");
  }

  /** The by-role text ends its one entry without a line break. */
  lemma SingleRemoveDocumentNewlines(name: string, status: string)
    requires NoNewline(name) && NoNewline(status)
    ensures Newlines(SingleRemoveDocument(name, status)) == 1
  {
    HeaderNewlines("Single Team Remove");
    EntryNewlines(SingleRemoveHeader, name, status);
  }

  /** Each job line ends in the one line break it holds. */
  lemma BatchLineNewlines(team: nat, status: string)
    requires NoNewline(status)
    ensures Newlines(BatchLine(team, status)) == 1
  {
    NatToStringNoNewline(team);
    assert '\n' !in multiset(status);
  }

  lemma {:induction false} BatchLinesNewlines(statuses: seq<string>)
    requires forall i :: 0 <= i < |statuses| ==> NoNewline(statuses[i])
    ensures Newlines(BatchLines(statuses)) == |statuses|
    decreases |statuses|
  {
    if statuses != [] {
      var n := |statuses|;
      BatchLinesNewlines(statuses[..n - 1]);
      BatchLineNewlines(n, statuses[n - 1]);
      assert multiset(BatchLines(statuses)) == multiset(BatchLines(statuses[..n - 1])) + multiset(BatchLine(n, statuses[n - 1]));
    }
  }

  /** With line-free statuses the batch document has one line per job
      after the header. */
  lemma BatchDocumentNewlines(statuses: seq<string>)
    requires forall i :: 0 <= i < |statuses| ==> NoNewline(statuses[i])
    ensures Newlines(BatchDocument(statuses)) == |statuses| + 1
  {
    BatchLinesNewlines(statuses);
    BatchCreateHeaderNewlines();
    NewlinesAppend(BatchCreateHeader, BatchLines(statuses));
  }

  lemma {:induction false} RemoveLinesNewlines(roles: seq<Role>, statuses: seq<string>)
    requires |statuses| <= |roles|
    requires forall i :: 0 <= i < |statuses| ==> NoNewline(roles[i].name) && NoNewline(statuses[i])
    ensures Newlines(RemoveLines(roles, statuses)) == |statuses|
    decreases |statuses|
  {
    if statuses != [] {
      var n := |statuses|;
      RemoveLinesNewlines(roles, statuses[..n - 1]);
      assert '\n' !in multiset(statuses[n - 1]) && '\n' !in multiset(roles[n - 1].name);
    }
  }

  /** The same for delete-all, whose entries are labelled by role names. */
  lemma DeleteAllDocumentNewlines(roles: seq<Role>, statuses: seq<string>)
    requires |statuses| <= |roles|
    requires forall i :: 0 <= i < |statuses| ==> NoNewline(roles[i].name) && NoNewline(statuses[i])
    ensures Newlines(DeleteAllDocument(roles, statuses)) == |statuses| + 1
  {
    RemoveLinesNewlines(roles, statuses);
    BatchRemoveHeaderNewlines();
    NewlinesAppend(BatchRemoveHeader, RemoveLines(roles, statuses));
  }

  lemma {:induction false} InitialRemoveEntriesNewlines(roles: seq<Role>, statuses: seq<string>)
    requires |statuses| <= |roles|
    requires forall i :: 0 <= i < |statuses| ==> NoNewline(roles[i].name) && NoNewline(statuses[i])
    ensures Newlines(InitialRemoveEntries(roles, statuses)) == 0
    decreases |statuses|
  {
    if statuses != [] {
      var n := |statuses|;
      InitialRemoveEntriesNewlines(roles, statuses[..n - 1]);
      assert '\n' !in multiset(statuses[n - 1]) && '\n' !in multiset(roles[n - 1].name);
    }
  }

  /** The first delete-all edit runs all its entries together on the line
      after the header: only the header's line break is there. */
  lemma DeleteAllInitialNewlines(roles: seq<Role>, statuses: seq<string>)
    requires |statuses| <= |roles|
    requires forall i :: 0 <= i < |statuses| ==> NoNewline(roles[i].name) && NoNewline(statuses[i])
    ensures Newlines(DeleteAllInitialDocument(roles, statuses)) == 1
  {
    InitialRemoveEntriesNewlines(roles, statuses);
    BatchRemoveHeaderNewlines();
    NewlinesAppend(BatchRemoveHeader, InitialRemoveEntries(roles, statuses));
  }

  /** The statuses of a batch of n jobs while job k + 1 is next: the first
      k finished, the others still waiting. */
  function Progress(n: nat, k: nat, finished: string, waiting: string): (r: seq<string>)
    requires k <= n
    ensures |r| == n
  {
    seq(k, _ => finished) + seq(n - k, _ => waiting)
  }

  /** Pointwise: the statuses before k are finished, the others waiting. */
  lemma ProgressAt(n: nat, k: nat, finished: string, waiting: string)
    requires k <= n
    ensures forall i :: 0 <= i < n ==> Progress(n, k, finished, waiting)[i] == if i < k then finished else waiting
  {
  }

  /** Finishing the job that was next advances the progress by one. */
  lemma ProgressStep(n: nat, k: nat, finished: string, waiting: string)
    requires k < n
    ensures Progress(n, k, finished, waiting)[k := finished] == Progress(n, k + 1, finished, waiting)
  {
    var a := Progress(n, k, finished, waiting)[k := finished];
    assert forall i :: 0 <= i < n ==> a[i] == Progress(n, k + 1, finished, waiting)[i];
  }

  /** Once every job is through, every status is the finished one. */
  lemma ProgressFinished(n: nat, finished: string, waiting: string)
    ensures Progress(n, n, finished, waiting) == seq(n, _ => finished)
  {
  }

  /** The texts job j + 1 of a batch of n publishes while the jobs before
      it are done and the others wait: "Creating role...", "Creating
      channels...", and "**Done.**" if the job got through. */
  function BatchJobEdits(n: nat, j: nat, done: bool): seq<string>
    requires j < n
  {
    var before := Progress(n, j, Done, Initializing);
    [BatchDocument(before[j := CreatingRole]), BatchDocument(before[j := CreatingChannels])]
    + (if done then [BatchDocument(Progress(n, j + 1, Done, Initializing))] else [])
  }

  /** The texts shown once a batch of n has got through its first k jobs,
      after the texts `earlier`. */
  function BatchShown(earlier: seq<string>, n: nat, k: nat): seq<string>
    requires k <= n
  {
    if k == 0 then earlier else BatchShown(earlier, n, k - 1) + BatchJobEdits(n, k - 1, true)
  }

  /** The texts delete-all job `index` publishes while the teams before it
      are removed and the others wait: "Deleting role...", and, if its
      category was found, that text once more and "**Removed
      successfully.**". */
  function RemoveJobEdits(roles: seq<Role>, index: nat, done: bool): seq<string>
    requires index < |roles|
  {
    var deleting := DeleteAllDocument(roles, Progress(|roles|, index, RemovedSuccessfully, Finding)[index := DeletingRole]);
    [deleting] + (if done then [deleting, DeleteAllDocument(roles, Progress(|roles|, index + 1, RemovedSuccessfully, Finding))] else [])
  }

  /** The texts shown once the delete-all sweep has removed its first k
      teams, after the texts `earlier`. */
  function SweepShown(earlier: seq<string>, roles: seq<Role>, k: nat): seq<string>
    requires k <= |roles|
  {
    if k == 0 then earlier else SweepShown(earlier, roles, k - 1) + RemoveJobEdits(roles, k - 1, true)
  }

  /** The one message the command answers with and then keeps editing. */
  class StatusMessage {
    var title: string
    var content: string
    /** Every text the message has shown, in order, the current one last. */
    ghost var shown: seq<string>

    /** The immediate reply to the command, before any work is done. */
    constructor ()
      ensures title == "Bouncing back" && content == "Starting"
      ensures shown == ["Starting"]
    {
      title := "Bouncing back";
      content := "Starting";
      shown := ["Starting"];
    }

    /** Replaces the whole message; nothing of the previous text is kept. */
    method Edit(newTitle: string, newContent: string)
      modifies this
      ensures title == newTitle && content == newContent
      ensures shown == old(shown) + [newContent]
    {
      title := newTitle;
      content := newContent;
      shown := shown + [newContent];
    }
  }

  /** Accumulates the batch-create text one job line at a time. */
  method RenderBatch(statuses: seq<string>) returns (content: string)
    ensures content == BatchDocument(statuses)
  {
    content := BatchCreateHeader;
    for team := 0 to |statuses|
      invariant content == BatchDocument(statuses[..team])
    {
      BatchDocumentGrows(statuses, team);
      content := content + BatchLine(team + 1, statuses[team]);
    }
    assert statuses[..|statuses|] == statuses;
  }

  /** Re-renders the batch-create statuses and publishes them. */
  method BatchUpdateEmbed(msg: StatusMessage, title: string, statuses: seq<string>)
    modifies msg
    ensures msg.title == title && msg.content == BatchDocument(statuses)
    ensures msg.shown == old(msg.shown) + [BatchDocument(statuses)]
  {
    var content := RenderBatch(statuses);
    msg.Edit(title, content);
  }

  /** Accumulates the delete-all text; job i is labelled by roles[i]. */
  method RenderDeleteAll(statuses: seq<string>, roles: seq<Role>) returns (content: string)
    requires |statuses| <= |roles|
    ensures content == DeleteAllDocument(roles, statuses)
  {
    content := BatchRemoveHeader;
    for index := 0 to |statuses|
      invariant content == DeleteAllDocument(roles, statuses[..index])
    {
      DeleteAllDocumentGrows(roles, statuses, index);
      content := content + RemoveLine(roles[index].name, statuses[index]);
    }
    assert statuses[..|statuses|] == statuses;
  }

  /** Re-renders the delete-all statuses and publishes them. */
  method DeleteAllUpdateEmbed(msg: StatusMessage, title: string, statuses: seq<string>, roles: seq<Role>)
    requires |statuses| <= |roles|
    modifies msg
    ensures msg.title == title && msg.content == DeleteAllDocument(roles, statuses)
    ensures msg.shown == old(msg.shown) + [DeleteAllDocument(roles, statuses)]
  {
    var content := RenderDeleteAll(statuses, roles);
    msg.Edit(title, content);
  }
}
