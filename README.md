# Vault sync core: status classification and push-with-auto-sync

This project models the two parts of the note-vault synchronizer that hold its logic:

- **The status check** (`StatusChecker.check_status`, core/status.py). It fetches, then runs a first-match-wins cascade over these inputs: working-tree dirtiness, whether a tracking branch is configured, and the local head against the remote-tracking head. The result is exactly one `RepoState`, a fixed message and a `last_sync` text. Every failure becomes `ERROR`.
- **The repository gateway** (`GitManager`, core/git.py). It opens the repository lazily, reports dirtiness, commits everything, pulls with a per-ref summary, and pushes. When the remote is ahead, push first runs stash, pull, pop, and it must never lose the stash.

Files, one module each:

- `results.dfy`: `Option` and `Result`. A `Failure` carries the text of the exception Python would raise.
- `text.dfy`: `"\n".join` and `str.split("\n")` with their round trip, plus the zero-padded decimal fields that `strftime` writes.
- `history.dfy`: the commit history. It is a finite map from commit id to commit (parents, message, time).
  - `IsAncestor` (git's `merge-base --is-ancestor`) is computed as a closure over parent links. It is proved equal to reachability along paths of parent links; it is reflexive and transitive, and antisymmetric in an acyclic history.
  - `MergeBase` is the set of best common ancestors.
- `git.dfy`: the repository value `Repo` and one function per step (fetch, stash save and pop, merge, publish). `CommitSpec`, `PullSpec` and `PushSpec` give the result and new state of each operation. The class `GitManager` keeps the repository in fields, and each of its methods is proved to match its spec function.
- `status.dfy`: `RepoState`, `StatusResult`, the formatting of `last_sync`, and `CheckStatus`, a pure function of what the gateway reports.

The outside world is passed in as parameters:

- what the path leads to (missing, not a repository, a repository);
- the fetch result (new history and remote head);
- the pull result (fetch infos plus the merged history and head);
- the `git stash pop` outcome (applied, or a conflict with the tree it leaves);
- the push result (per-ref infos, or a failure);
- the sha and time of a new commit;
- today's date, with each commit time already split into local date, hour and minute.

`CheckStatus` itself has no contract. Its meaning is stated by the `Status.CheckStatus*` lemmas below.

The comment at core/status.py:52 and the code at core/status.py:57-58 disagree, and the model follows the code. The comment says "HH:MM if today, else YYYY-MM-DD", but for another day the code writes date and time, "YYYY-MM-DD HH:MM".

## Model

| member | source | states |
|---|---|---|
| `Text.SplitJoin` | core/git.py:35 | splitting a newline-joined list of newline-free lines gives back exactly those lines, in order |
| `Text.ZeroPad` | core/status.py:56-58 | the text is all digits, denotes the number, and has exactly `width` characters when the number fits |
| `History.IsAncestorIffReaches` | core/status.py:65-70 | the computed ancestry test holds exactly when the first commit is reached from the second by following parent links |
| `History.IsAncestorTransitive` | core/status.py:63-71 | an ancestor of an ancestor is an ancestor |
| `History.IsAncestorAntisymmetric` | core/status.py:63-71 | in an acyclic history, two commits that are each other's ancestor are the same commit |
| `History.MergeBaseOfAncestor` | core/git.py:81-82 | when the remote head is an ancestor of the local head, it is their only best common ancestor, so `merge_base` returns it |
| `History.InMergeBaseIffAncestor` | core/git.py:81-82 | the remote head is among the merge bases exactly when it is an ancestor of the local head |
| `History.AddCommitKeepsAcyclic` | core/git.py:52 | adding a new commit whose parents already exist keeps the history closed, acyclic and otherwise unchanged |
| `Git.NeedsSyncMeaning` | core/git.py:76-82 | `remote_ahead` holds iff a tracking branch exists, the heads differ, and the remote head is not an ancestor of the local head |
| `Git.OpenFailure` | core/git.py:10-17 | opening fails exactly when the path is not a repository, with "Path does not exist: …" or "Invalid git repository at …" |
| `Git.CommitCreatesOneCommit` | core/git.py:50-53 | on a dirty tree it returns "Committed: <first 7 chars> - <message>" and adds exactly one commit, whose only parent is the old head; the tree ends clean, the stash and tracking ref are unchanged, and the history stays well formed |
| `Git.CommitTwice` | core/git.py:47-48 | right after a successful commit_all, a second call returns "No changes to commit." and changes nothing |
| `Git.PullSummaryLines` | core/git.py:29-35 | a non-empty pull summary splits into one line per fetch info, in order, each "<ref>: <note or Updated>" |
| `Git.SummarizePull` | core/git.py:32-34 | the loop builds one summary line per fetch info, in order |
| `Git.PushErrorsAppend` | core/git.py:123-126 | the error lines of two result lists, one after the other, are the error lines of each list in turn |
| `Git.PushErrorsEmptyIff` | core/git.py:125-129 | there are no error lines exactly when no ref has the ERROR or REJECTED flag |
| `Git.CollectPushErrors` | core/git.py:123-126 | the loop collects "Push failed for <ref>: <summary>" for each failed ref, in order |
| `Git.PushDirect` | core/git.py:85-132 | if the remote is not ahead, the pull and pop outcomes play no part and the tree, stash and head are unchanged; a clean push returns exactly ["Push successful."] |
| `Git.PushSyncSteps` | core/git.py:85-131 | remote ahead and every step succeeds: the messages are stash, pull, restore, push on a dirty tree and pull, push on a clean one; the changes are back in the tree, the stash is as before, and the tracking ref is at the merged head, a descendant of the fetched remote head (as `MergeFits` assumes) |
| `Git.PushKeepsLocalWork` | core/git.py:88-117 | local changes end up either in the working tree or on top of the stash; at most one stash entry is added; a conflicting pop after a stash keeps the entry |
| `Git.PushRestoresAfterFailedPull` | core/git.py:98-104 | after a failed pull with a stash taken, one `stash pop` is tried: a clean pop gives back the tree and the stash, a conflicting pop leaves its tree and keeps the entry; with no stash the tree and stash stay; the head stays local and the history is the fetched one |
| `Git.PushStopsOnFailedSync` | core/git.py:98-117 | a failed pull, or a failed pop after a stash, ends the run with "Pull failed during sync: …" or the keep-your-stash message; the push outcome plays no part and the tracking ref does not move |
| `Git.PushNeverPartial` | core/git.py:120-137 | success means the push ran, no ref failed, and the last message is "Push successful."; once the push is attempted, its own failure gives "Push failed: …", any failed ref gives the joined error lines, and a failed push leaves the remote-tracking ref where the fetch put it |
| `Git.GitManager.constructor` | core/git.py:6-8 | a new gateway has not opened anything yet and keeps the path |
| `Git.GitManager.EnsureRepo` | core/git.py:10-17 | opens on first use, then reuses the handle; a failed open reports the open error and leaves the gateway unopened |
| `Git.GitManager.GetRepo` | core/git.py:19-21 | returns the repository once opened, else the open error; nothing else changes |
| `Git.GitManager.HasChanges` | core/git.py:39-42 | reports whether the tree has uncommitted changes, untracked files included |
| `Git.GitManager.GetLastRemoteTimestamp` | core/git.py:139-149 | the time of the tracking branch's commit, or none without a tracking branch |
| `Git.GitManager.CommitAll` | core/git.py:44-55 | result and new state are those of `CommitSpec` once the repository opens; the history stays well formed |
| `Git.GitManager.Pull` | core/git.py:23-37 | result and new state are those of `PullSpec`: "Pull failed: …", "No changes pulled.", or the joined summary |
| `Git.GitManager.FetchInPlace` | core/git.py:70 | `origin.fetch()`: the new state is `ApplyFetch` of the old, the fetched history and the tracking ref at the remote head; the repository stays well formed |
| `Git.GitManager.StashInPlace` | core/git.py:90 | `stash push -u`: the tree goes on top of the stash and the tree becomes clean, as `StashSave` says |
| `Git.GitManager.MergeInPlace` | core/git.py:96 | `origin.pull()`: the new history and head are the merge outcome's, as `ApplyMerge` says; the repository stays well formed |
| `Git.GitManager.PopStash` | core/git.py:100-111 | `stash pop`: a clean pop moves the top entry back into the tree, a conflicting pop leaves its tree and keeps the entry, as `StashPop` says |
| `Git.GitManager.SendInPlace` | core/git.py:119-132 | push, collect the per-ref errors, then "Push successful." and the tracking ref at the head, as `Send` says |
| `Git.GitManager.SyncInPlace` | core/git.py:85-117 | stash when dirty, pull, pop, then push, appending the step messages in order, as `Sync` says |
| `Git.GitManager.Push` | core/git.py:57-137 | result and new state are those of `PushSpec`; the repository stays well formed |
| `Status.LastSync` | core/status.py:48-58 | no contract; its meaning is stated in the `Status.LastSync*` lemmas |
| `Status.LastSyncEmpty` | core/status.py:48-50 | `last_sync` is empty exactly when there is no timestamp or it is 0 |
| `Status.LastSyncToday` | core/status.py:55-56 | a commit from today gives the 5-character "HH:MM", whose fields are the commit's hour and minute |
| `Status.DateTextShape` | core/status.py:58 | the "%Y-%m-%d" text of a valid date is 10 characters, dash-separated, and its digit fields give back year, month and day |
| `Status.LastSyncOtherDay` | core/status.py:57-58 | a commit from another day gives the 16-character zero-padded "YYYY-MM-DD HH:MM", whose fields are the commit's date and time |
| `Status.CheckStatus` | core/status.py:22-77 | no contract; its meaning is stated in the `Status.CheckStatus*` lemmas |
| `Status.AheadTestsExclusive` | core/status.py:63-71 | for distinct heads of an acyclic history, the LOCAL_AHEAD and REMOTE_AHEAD tests cannot both succeed |
| `Status.OutcomesPartition` | core/status.py:60-74 | in an acyclic history, every pair of heads is described by exactly one of up to date, local ahead, remote ahead and diverged |
| `Status.CheckStatusClassifies` | core/status.py:40-74 | clean tree and tracking branch: the state is the one state that describes the heads, with its fixed message and the tracking commit's formatted time |
| `Status.CheckStatusFailures` | core/status.py:23-27 | a failure to open or to fetch gives ERROR, with the failure text and an empty `last_sync` |
| `Status.CheckStatusDirty` | core/status.py:29-31 | a dirty tree gives LOCAL_AHEAD, "Uncommitted changes present." and an empty `last_sync`, whatever the commits |
| `Status.CheckStatusNoTracking` | core/status.py:33-38 | a clean tree without a tracking branch gives ERROR, "No tracking branch configured." and an empty `last_sync` |
| `Status.CheckStatusErrorIff` | core/status.py:22-77 | ERROR exactly when opening or fetching failed or a clean tree has no tracking branch; a non-empty `last_sync` comes only with one of the four comparison outcomes and its fixed message |
| `Status.PushSyncsIffBehind` | core/git.py:76-85 | on a clean, tracked repository, push takes the stash-pull-pop path exactly when the status check says remote ahead or diverged |
| `Status.CheckStatusScenarios` | tests/test_status.py:9-62 | equal heads are up to date; a remote head that is a parent of the local head is local ahead; the reverse is remote ahead |

## Left out

- Qt Widgets, the settings dialog, the application bootstrap with its `.gitignore` setup, TOML configuration, session commit messages and icon conversion: presentation and file I/O, not part of this model.
- Network transport, the three-way merge done by `git stash pop`, SHA hashing and `datetime.fromtimestamp` with its timezone conversion are not computed. Their outcomes are method parameters.
  - The requires clauses `FetchFits`, `PullFits`, `MergeFits` and `PushFits` state what the model assumes of those outcomes. A fetch or pull only adds commits (`FetchFits`, `PullFits`). A plain `pull` may land anywhere, since the remote may have been force-pushed since the last fetch. Inside push, the pull comes right after a fetch, and its head is assumed to descend from the fetched remote head, whether it merged or rebased (`MergeFits`).
  - `CommitAll` requires the new sha to be new to the history, which is what a hash gives.
- `GitManager.CommitAll`: `git add -A` is not modelled on its own because the index is not modelled. A failure of the add or of the commit leaves the model unchanged.
- `GitManager.Pull`: the fetch that `pull` does itself is part of its outcome, and the remote-tracking ref is not moved by it. A pull that fails half-way, leaving a conflicted merge in the tree, is modelled as changing nothing.
- A successful `git stash pop` puts back exactly the stashed changes. The model does not compute how they merge with the pulled commits.
- A failure of `git stash push` itself is not modelled.
- A detached or unborn HEAD, and failures of individual history queries (`merge_base`, `is_ancestor`, `tracking_branch.commit` on a missing commit), are not modelled. In a well-formed repository the history answers every query. `RemoteTimestamp` does return none when the tracking commit is missing.
- `merge_base` without `--all` returns one best common ancestor; the model returns all of them. `History.MergeBaseOfAncestor` shows the membership test gives the same answer either way.
- On a push with failed refs, any refs that were accepted are not recorded. Only a fully successful push moves the remote-tracking ref to the head.
- The per-ref test is the one written in core/git.py:125, which checks only the ERROR and REJECTED flags. A ref that has only REMOTE_REJECTED or REMOTE_FAILURE counts as pushed, in the model as in the code.
- `Status.CheckStatus` is pure. The remote-tracking update from its fetch is applied to the value it inspects but is not written back to a `GitManager`.
- `Status.LastSyncOtherDay`: years below 1000 are zero-padded to four digits. The platform `strftime` may write them unpadded.
- `Git.PushSpec`, `Git.Send`: a successful push returns its step messages as a list, where the source returns them joined with newlines (core/git.py:132). The messages are fixed and contain no newline, so the list is what splitting the joined text gives back (`Text.SplitJoin`).
- `Git.GitManager.EnsureRepo`: what lies at the path (`kind`) is fixed when the gateway is made. The source retries `git.Repo(path)` on every call while no handle is held (core/git.py:11-13), so a directory that becomes a repository later would open there; in the model a first failed open fails on every call.
- There is no concurrency: every operation runs to completion before the next starts.
