/** The repository gateway of core/git.py. The on-disk repository is the
    value `Repo` (history, checked-out head, remote-tracking commit, the
    working tree's uncommitted changes and the stash); `GitManager` holds it
    in fields that its methods update. Network transport, the three-way merge
    of `git stash pop` and SHA hashing are not computed: their outcomes are
    parameters of the methods that use them. */
module Git {
  import opened Results
  import opened Text
  import opened History

  /** One uncommitted change of the working tree, untracked files included. */
  datatype Change = Edited(content: string) | Deleted

  /** The uncommitted changes, by path; empty means a clean tree. */
  type Snapshot = map<string, Change>

  /** `stash[0]` is `stash@{0}`, the most recent entry. */
  datatype Repo = Repo(history: Graph, head: CommitId, tracking: Option<CommitId>,
                       tree: Snapshot, stash: seq<Snapshot>)

  ghost predicate WellFormed(r: Repo)
  {
    && Closed(r.history) && Acyclic(r.history)
    && r.head in r.history
    && (r.tracking.Some? ==> r.tracking.value in r.history)
  }

  /** `is_dirty(untracked_files=True)` */
  predicate Dirty(r: Repo)
  {
    r.tree != map[]
  }

  /** The `committed_date` of the tracking branch's commit, if there is one. */
  function RemoteTimestamp(r: Repo): Option<CommitTime>
  {
    if r.tracking.Some? && r.tracking.value in r.history
    then Some(r.history[r.tracking.value].time)
    else None
  }

  /** The heavy sync path is needed: the heads differ and the remote head is
      not among the merge bases of the two (core/git.py's `remote_ahead`). */
  predicate NeedsSync(r: Repo)
  {
    && r.tracking.Some?
    && r.head != r.tracking.value
    && r.tracking.value !in MergeBase(r.history, r.head, r.tracking.value)
  }

  /** What "remote ahead" means: the heads differ and the remote head is
      not an ancestor of the local one. */
  lemma NeedsSyncMeaning(r: Repo)
    requires Acyclic(r.history)
    ensures NeedsSync(r) <==>
      r.tracking.Some? && r.head != r.tracking.value && !IsAncestor(r.history, r.tracking.value, r.head)
  {
    if r.tracking.Some? {
      InMergeBaseIffAncestor(r.history, r.head, r.tracking.value);
    }
  }

  // ---------------------------------------------------------------------
  // Opening the repository

  /** What the path given to the gateway leads to. */
  datatype PathKind = Missing | NotARepository | Repository

  /** The `ValueError` text `git.Repo(path)` is turned into, if opening fails. */
  function OpenFailure(path: string, kind: PathKind): (e: Option<string>)
    ensures e.None? <==> kind == Repository
  {
    match kind
    case Missing => Some("Path does not exist: " + path)
    case NotARepository => Some("Invalid git repository at " + path)
    case Repository => None
  }

  // ---------------------------------------------------------------------
  // Outcomes supplied from outside: network, merges, hashing

  /** What `origin.fetch()` brought: the enlarged history and the remote head. */
  datatype Fetched = Fetched(history: Graph, remoteHead: CommitId)

  /** One entry of `origin.pull()`'s fetch-info list. */
  datatype FetchInfo = FetchInfo(ref: string, note: string)

  /** The history and head after `git pull` integrated the remote branch. */
  datatype Merged = Merged(history: Graph, head: CommitId)

  datatype Pulled = Pulled(infos: seq<FetchInfo>, merged: Merged)

  /** `git stash pop`: applied and dropped, or a conflict that leaves `tree`
      in the working tree and keeps the entry. */
  datatype PopOutcome = Popped | PopConflict(error: string, tree: Snapshot)

  /** GitPython's `PushInfo` flag bits. */
  datatype PushFlag =
    | NewTag | NewHead | NoMatch | Rejected | RemoteRejected | RemoteFailure
    | DeletedRef | ForcedUpdate | FastForward | UpToDateRef | ErrorFlag

  datatype PushInfo = PushInfo(flags: set<PushFlag>, remoteRef: string, summary: string)

  /** The sha and time `index.commit` gives the new commit. */
  datatype NewCommit = NewCommit(sha: CommitId, time: CommitTime)

  /** A fetch only adds commits and points the remote head at one of them. */
  ghost predicate FetchFits(r: Repo, f: Fetched)
  {
    && Extends(r.history, f.history) && Closed(f.history) && Acyclic(f.history)
    && f.remoteHead in f.history
  }

  /** A pull only adds commits, and its new head is one of them. Nothing is
      assumed about where the head sits: the remote may have been
      force-pushed since the tracking ref was last fetched. */
  ghost predicate PullFits(r: Repo, m: Merged)
  {
    && Extends(r.history, m.history) && Closed(m.history) && Acyclic(m.history)
    && m.head in m.history
  }

  /** A pull right after a fetch: besides fitting as a pull, its new head
      descends from the freshly fetched remote-tracking commit, by a merge
      or by a rebase. */
  ghost predicate MergeFits(r: Repo, m: Merged)
  {
    && PullFits(r, m)
    && (r.tracking.Some? ==> IsAncestor(m.history, r.tracking.value, m.head))
  }

  // ---------------------------------------------------------------------
  // The steps, as functions of the repository value

  function ApplyFetch(r: Repo, f: Fetched): Repo
  {
    r.(history := f.history, tracking := if r.tracking.Some? then Some(f.remoteHead) else None)
  }

  function ApplyMerge(r: Repo, m: Merged): Repo
  {
    r.(history := m.history, head := m.head)
  }

  /** `git stash push -u`: the changes go on top of the stash, the tree is clean. */
  function StashSave(r: Repo): Repo
  {
    r.(stash := [r.tree] + r.stash, tree := map[])
  }

  function StashPop(r: Repo, o: PopOutcome): Repo
    requires |r.stash| > 0
  {
    match o
    case Popped => r.(tree := r.tree + r.stash[0], stash := r.stash[1..])
    case PopConflict(_, t) => r.(tree := t)
  }

  /** A successful push moves the remote-tracking ref to the pushed head. */
  function Publish(r: Repo): Repo
  {
    r.(tracking := if r.tracking.Some? then Some(r.head) else None)
  }

  lemma FetchKeepsWellFormed(r: Repo, f: Fetched)
    requires WellFormed(r) && FetchFits(r, f)
    ensures WellFormed(ApplyFetch(r, f))
  {
  }

  lemma MergeKeepsWellFormed(r: Repo, m: Merged)
    requires WellFormed(r) && PullFits(r, m)
    ensures WellFormed(ApplyMerge(r, m))
  {
  }

  // ---------------------------------------------------------------------
  // commit_all

  function ShortSha(sha: CommitId): string
  {
    if |sha| <= 7 then sha else sha[..7]
  }

  function CommitSpec(r: Repo, message: string, created: Result<NewCommit, string>): (Result<string, string>, Repo)
  {
    if !Dirty(r) then (Success("No changes to commit."), r)
    else match created
      case Failure(e) => (Failure("Commit failed: " + e), r)
      case Success(c) =>
        (Success("Committed: " + ShortSha(c.sha) + " - " + message),
         r.(history := r.history[c.sha := Commit([r.head], message, c.time)], head := c.sha, tree := map[]))
  }

  /** On a dirty tree with a fresh sha, the commit is the one new commit,
      its only parent is the old head, and the tree is clean afterwards. */
  lemma CommitCreatesOneCommit(r: Repo, message: string, c: NewCommit)
    requires WellFormed(r) && Dirty(r) && c.sha !in r.history
    ensures var (res, r') := CommitSpec(r, message, Success(c));
      && res == Success("Committed: " + ShortSha(c.sha) + " - " + message)
      && r'.history.Keys == r.history.Keys + {c.sha}
      && Extends(r.history, r'.history)
      && r'.head == c.sha && r'.history[c.sha].parents == [r.head]
      && r'.history[c.sha].message == message
      && !Dirty(r') && r'.stash == r.stash && r'.tracking == r.tracking
      && WellFormed(r')
  {
    AddCommitKeepsAcyclic(r.history, c.sha, Commit([r.head], message, c.time));
  }

  /** A clean tree gives the no-op answer whatever the commit would have been,
      so a second commit right after the first creates nothing. */
  lemma CommitTwice(r: Repo, m1: string, m2: string, c1: Result<NewCommit, string>, c2: Result<NewCommit, string>)
    requires CommitSpec(r, m1, c1).0.Success?
    ensures var r1 := CommitSpec(r, m1, c1).1;
      CommitSpec(r1, m2, c2) == (Success("No changes to commit."), r1)
  {
  }

  // ---------------------------------------------------------------------
  // pull

  /** `f"{info.ref}: {info.note or 'Updated'}"` */
  function InfoLine(info: FetchInfo): string
  {
    info.ref + ": " + (if info.note == "" then "Updated" else info.note)
  }

  function PullLines(infos: seq<FetchInfo>): seq<string>
  {
    seq(|infos|, i requires 0 <= i < |infos| => InfoLine(infos[i]))
  }

  function PullSpec(r: Repo, outcome: Result<Pulled, string>): (Result<string, string>, Repo)
  {
    match outcome
    case Failure(e) => (Failure("Pull failed: " + e), r)
    case Success(p) =>
      (Success(if p.infos == [] then "No changes pulled." else JoinLines(PullLines(p.infos))),
       ApplyMerge(r, p.merged))
  }

  /** A non-empty pull summary holds one line per fetch info, in order, each
      naming the ref and its note (or "Updated"). */
  lemma PullSummaryLines(r: Repo, p: Pulled)
    requires p.infos != []
    requires forall i :: 0 <= i < |p.infos| ==> '\n' !in p.infos[i].ref && '\n' !in p.infos[i].note
    ensures var lines := SplitLines(PullSpec(r, Success(p)).0.value);
      && |lines| == |p.infos|
      && forall i :: 0 <= i < |p.infos| ==> lines[i] == InfoLine(p.infos[i])
  {
    var lines := PullLines(p.infos);
    forall k | 0 <= k < |lines| ensures '\n' !in lines[k] {
      var info := p.infos[k];
      assert lines[k] == info.ref + ": " + (if info.note == "" then "Updated" else info.note);
    }
    SplitJoin(lines);
  }

  method SummarizePull(infos: seq<FetchInfo>) returns (summary: seq<string>)
    ensures |summary| == |infos|
    ensures forall i :: 0 <= i < |infos| ==> summary[i] == InfoLine(infos[i])
  {
    summary := [];
    for i := 0 to |infos|
      invariant |summary| == i
      invariant forall k :: 0 <= k < i ==> summary[k] == InfoLine(infos[k])
    {
      summary := summary + [InfoLine(infos[i])];
    }
  }

  // ---------------------------------------------------------------------
  // push

  /** `info.flags & (info.ERROR | info.REJECTED)` is non-zero. */
  predicate RefFailed(info: PushInfo)
  {
    ErrorFlag in info.flags || Rejected in info.flags
  }

  function ErrorLine(info: PushInfo): string
  {
    "Push failed for " + info.remoteRef + ": " + info.summary
  }

  /** One error line per failed ref, in the order of the push results. */
  function PushErrors(infos: seq<PushInfo>): seq<string>
  {
    if infos == [] then []
    else (if RefFailed(infos[0]) then [ErrorLine(infos[0])] else []) + PushErrors(infos[1..])
  }

  lemma {:induction false} PushErrorsAppend(a: seq<PushInfo>, b: seq<PushInfo>)
    ensures PushErrors(a + b) == PushErrors(a) + PushErrors(b)
  {
    if a != [] {
      assert (a + b)[1..] == a[1..] + b;
      PushErrorsAppend(a[1..], b);
    } else {
      assert a + b == b;
    }
  }

  /** The push fails exactly when some ref was rejected or errored. */
  lemma {:induction false} PushErrorsEmptyIff(infos: seq<PushInfo>)
    ensures PushErrors(infos) == [] <==> forall i :: 0 <= i < |infos| ==> !RefFailed(infos[i])
  {
    if infos != [] {
      PushErrorsEmptyIff(infos[1..]);
      assert forall i :: 1 <= i < |infos| ==> infos[i] == infos[1..][i - 1];
    }
  }

  method CollectPushErrors(infos: seq<PushInfo>) returns (errors: seq<string>)
    ensures errors == PushErrors(infos)
  {
    errors := [];
    for i := 0 to |infos|
      invariant errors == PushErrors(infos[..i])
    {
      if RefFailed(infos[i]) {
        errors := errors + [ErrorLine(infos[i])];
      }
      assert infos[..i + 1] == infos[..i] + [infos[i]];
      PushErrorsAppend(infos[..i], [infos[i]]);
    }
    assert infos[..|infos|] == infos;
  }

  function PopConflictMessage(e: string): string
  {
    "Merge conflict while restoring local changes: " + e + "\n"
    + "Your changes are still saved in the stash. "
    + "Run 'git stash pop' manually to resolve conflicts."
  }

  /** Step 4 of push: send, aggregate per-ref errors, report success. */
  function Send(r: Repo, messages: seq<string>, sent: Result<seq<PushInfo>, string>): (Result<seq<string>, string>, Repo)
  {
    match sent
    case Failure(e) => (Failure("Push failed: " + e), r)
    case Success(infos) =>
      if PushErrors(infos) != [] then (Failure(JoinLines(PushErrors(infos))), r)
      else (Success(messages + ["Push successful."]), Publish(r))
  }

  /** The whole of push once the repository is open: fetch, decide
      `remote_ahead`, stash-pull-pop when it holds, then push. */
  function PushSpec(r: Repo, fetch: Result<Fetched, string>, pull: Result<Pulled, string>,
                    pop: PopOutcome, sent: Result<seq<PushInfo>, string>): (Result<seq<string>, string>, Repo)
  {
    match fetch
    case Failure(e) => (Failure("Push failed: " + e), r)
    case Success(f) =>
      var r1 := ApplyFetch(r, f);
      if !NeedsSync(r1) then Send(r1, [], sent) else Sync(r1, pull, pop, sent)
  }

  /** Steps 3a to 4 once `remote_ahead` holds: stash when dirty, pull, pop,
      push; a failed pull or pop ends the run before the push. */
  function Sync(r1: Repo, pull: Result<Pulled, string>, pop: PopOutcome,
                sent: Result<seq<PushInfo>, string>): (Result<seq<string>, string>, Repo)
  {
    var stashed := Dirty(r1);
    var r2 := if stashed then StashSave(r1) else r1;
    var m2 := if stashed then ["Stashed local changes."] else [];
    match pull
    case Failure(e) =>
      (Failure("Pull failed during sync: " + e), if stashed then StashPop(r2, pop) else r2)
    case Success(p) =>
      var r3 := ApplyMerge(r2, p.merged);
      var m3 := m2 + ["Pulled remote changes."];
      if !stashed then Send(r3, m3, sent)
      else if pop.PopConflict? then (Failure(PopConflictMessage(pop.error)), StashPop(r3, pop))
      else Send(StashPop(r3, pop), m3 + ["Restored local changes."], sent)
  }

  /** The environment's guarantees about the outcomes push is given. */
  ghost predicate PushFits(r: Repo, fetch: Result<Fetched, string>, pull: Result<Pulled, string>)
  {
    fetch.Success? ==>
      && FetchFits(r, fetch.value)
      && (pull.Success? ==> MergeFits(ApplyFetch(r, fetch.value), pull.value.merged))
  }

  /** With the remote not ahead, push neither stashes nor pulls: the pull and
      pop outcomes play no part, the tree and stash stay, and a clean push
      reports exactly "Push successful.". */
  lemma PushDirect(r: Repo, f: Fetched, pull: Result<Pulled, string>, pop: PopOutcome, sent: Result<seq<PushInfo>, string>)
    requires !NeedsSync(ApplyFetch(r, f))
    ensures forall pull': Result<Pulled, string>, pop': PopOutcome ::
      PushSpec(r, Success(f), pull', pop', sent) == PushSpec(r, Success(f), pull, pop, sent)
    ensures var (res, r') := PushSpec(r, Success(f), pull, pop, sent);
      && r'.tree == r.tree && r'.stash == r.stash && r'.head == r.head
      && (sent.Success? && PushErrors(sent.value) == [] ==> res == Success(["Push successful."]))
  {
    assert [] + ["Push successful."] == ["Push successful."];
  }

  /** With the remote ahead and every step succeeding, the step messages are
      stash, pull, restore, push when the tree was dirty and pull, push when
      it was clean; the local changes end up back in the tree, the stash as
      before, and the pushed head descends from the remote head, as `MergeFits`
      assumes of the pull. */
  lemma PushSyncSteps(r: Repo, f: Fetched, p: Pulled, infos: seq<PushInfo>)
    requires NeedsSync(ApplyFetch(r, f)) && PushErrors(infos) == []
    requires MergeFits(ApplyFetch(r, f), p.merged)
    ensures var (res, r') := PushSpec(r, Success(f), Success(p), Popped, Success(infos));
      && res == Success(
           if Dirty(r) then ["Stashed local changes.", "Pulled remote changes.", "Restored local changes.", "Push successful."]
           else ["Pulled remote changes.", "Push successful."])
      && r'.tree == r.tree && r'.stash == r.stash
      && r'.head == p.merged.head && r'.tracking == Some(r'.head)
      && IsAncestor(r'.history, f.remoteHead, r'.head)
  {
    if Dirty(r) {
      assert ["Stashed local changes."] + ["Pulled remote changes."] + ["Restored local changes."] + ["Push successful."]
        == ["Stashed local changes.", "Pulled remote changes.", "Restored local changes.", "Push successful."];
    } else {
      assert [] + ["Pulled remote changes."] + ["Push successful."] == ["Pulled remote changes.", "Push successful."];
    }
  }

  /** No local work is lost: afterwards the changes are in the working tree
      or on top of the stash; at most one entry was added; and a conflicting
      pop after a stash keeps that entry. */
  lemma PushKeepsLocalWork(r: Repo, fetch: Result<Fetched, string>, pull: Result<Pulled, string>,
                           pop: PopOutcome, sent: Result<seq<PushInfo>, string>)
    ensures var (res, r') := PushSpec(r, fetch, pull, pop, sent);
      && (r'.tree == r.tree || r'.stash == [r.tree] + r.stash)
      && (r'.stash == r.stash || r'.stash == [r.tree] + r.stash)
      && |r'.stash| <= |r.stash| + 1
      && (fetch.Success? && NeedsSync(ApplyFetch(r, fetch.value)) && Dirty(r) && pop.PopConflict?
          ==> r'.stash == [r.tree] + r.stash)
  {
    var r' := PushSpec(r, fetch, pull, pop, sent).1;
    if fetch.Success? {
      var r1 := ApplyFetch(r, fetch.value);
      assert r1.tree == r.tree && r1.stash == r.stash;
      if !NeedsSync(r1) {
        assert r' == Send(r1, [], sent).1;
        assert r'.tree == r.tree && r'.stash == r.stash;
      } else if !Dirty(r1) {
        assert r.tree == map[];
        assert r'.tree == r.tree && r'.stash == r.stash;
      } else {
        var r2 := StashSave(r1);
        assert r2.stash == [r.tree] + r.stash && r2.tree == map[];
        assert r2.tree + r2.stash[0] == r.tree;
        if pop.PopConflict? {
          assert r'.stash == [r.tree] + r.stash;
        } else {
          assert r'.tree == r.tree && r'.stash == r.stash;
        }
      }
    }
  }

  /** When the sync fails (the pull, or the pop after a stash) nothing is
      pushed: the push outcome plays no part and the tracking ref stays put. */
  lemma PushStopsOnFailedSync(r: Repo, f: Fetched, pull: Result<Pulled, string>,
                              pop: PopOutcome, sent: Result<seq<PushInfo>, string>)
    requires NeedsSync(ApplyFetch(r, f))
    requires pull.Failure? || (Dirty(r) && pop.PopConflict?)
    ensures forall sent': Result<seq<PushInfo>, string> ::
      PushSpec(r, Success(f), pull, pop, sent') == PushSpec(r, Success(f), pull, pop, sent)
    ensures var (res, r') := PushSpec(r, Success(f), pull, pop, sent);
      && r'.tracking == ApplyFetch(r, f).tracking
      && res == Failure(if pull.Failure? then "Pull failed during sync: " + pull.error
                        else PopConflictMessage(pop.error))
  {
  }

  /** A failed pull after a stash still tries one `stash pop`: a clean pop
      puts the local changes back in the tree and takes the entry off the
      stash, a conflicting pop leaves its own tree and keeps the entry. With
      nothing stashed the tree and stash stay. Either way the head is the
      local one and the history is the fetched one. */
  lemma PushRestoresAfterFailedPull(r: Repo, f: Fetched, e: string,
                                    pop: PopOutcome, sent: Result<seq<PushInfo>, string>)
    requires NeedsSync(ApplyFetch(r, f))
    ensures var (res, r') := PushSpec(r, Success(f), Failure(e), pop, sent);
      && res == Failure("Pull failed during sync: " + e)
      && r'.head == r.head && r'.history == f.history
      && (Dirty(r) && pop.Popped? ==> r'.tree == r.tree && r'.stash == r.stash)
      && (Dirty(r) && pop.PopConflict? ==> r'.tree == pop.tree && r'.stash == [r.tree] + r.stash)
      && (!Dirty(r) ==> r'.tree == r.tree && r'.stash == r.stash)
  {
    var r1 := ApplyFetch(r, f);
    if Dirty(r1) {
      var r2 := StashSave(r1);
      assert r2.tree + r2.stash[0] == r.tree;
      assert r2.stash[1..] == r.stash;
    }
  }

  /** The fetch succeeded and, if the remote was ahead, the pull and the
      pop of a stash taken before it succeeded too: the push is attempted. */
  predicate ReachesPush(r: Repo, fetch: Result<Fetched, string>, pull: Result<Pulled, string>, pop: PopOutcome)
  {
    && fetch.Success?
    && (NeedsSync(ApplyFetch(r, fetch.value)) ==> pull.Success? && (Dirty(r) ==> pop.Popped?))
  }

  /** A successful push is never partial: success means the push ran and no
      ref was rejected or errored, and the last message is "Push successful.".
      Once the push is attempted, its own failure or any failed ref fails the
      whole operation, the latter with one line per failed ref, and a failed
      push leaves the remote-tracking ref where the fetch put it. */
  lemma PushNeverPartial(r: Repo, fetch: Result<Fetched, string>, pull: Result<Pulled, string>,
                         pop: PopOutcome, sent: Result<seq<PushInfo>, string>)
    ensures var (res, r') := PushSpec(r, fetch, pull, pop, sent);
      && (res.Success? ==>
            && ReachesPush(r, fetch, pull, pop) && sent.Success?
            && (forall i :: 0 <= i < |sent.value| ==> !RefFailed(sent.value[i]))
            && |res.value| > 0 && res.value[|res.value| - 1] == "Push successful.")
      && (ReachesPush(r, fetch, pull, pop) && sent.Failure? ==>
            res == Failure("Push failed: " + sent.error))
      && (ReachesPush(r, fetch, pull, pop) && sent.Success? && PushErrors(sent.value) != [] ==>
            res == Failure(JoinLines(PushErrors(sent.value))))
      && (ReachesPush(r, fetch, pull, pop) && res.Failure? ==>
            r'.tracking == ApplyFetch(r, fetch.value).tracking)
  {
    if sent.Success? {
      PushErrorsEmptyIff(sent.value);
    }
  }

  // ---------------------------------------------------------------------
  // The gateway object

  class GitManager {
    const path: string
    const kind: PathKind
    /** `self.repo is not None`: the handle has been opened. */
    var isOpen: bool
    var history: Graph
    var head: CommitId
    var tracking: Option<CommitId>
    var tree: Snapshot
    var stash: seq<Snapshot>

    function Model(): Repo
      reads this
    {
      Repo(history, head, tracking, tree, stash)
    }

    ghost predicate Valid()
      reads this
    {
      && (isOpen ==> kind == Repository)
      && (kind == Repository ==> WellFormed(Model()))
    }

    /** `GitManager(repo_path)`: nothing is opened yet; `disk` is the
        repository found at `path` when `kind` is `Repository`. */
    constructor (path: string, kind: PathKind, disk: Repo)
      requires kind == Repository ==> WellFormed(disk)
      ensures Valid() && this.path == path && this.kind == kind
      ensures !isOpen && Model() == disk
    {
      this.path := path;
      this.kind := kind;
      isOpen := false;
      history, head, tracking, tree, stash := disk.history, disk.head, disk.tracking, disk.tree, disk.stash;
    }

    /** `_ensure_repo`: open on first use, then reuse the handle. */
    method EnsureRepo() returns (err: Option<string>)
      requires Valid()
      modifies this`isOpen
      ensures Valid()
      ensures isOpen == (old(isOpen) || kind == Repository)
      ensures err == if old(isOpen) then None else OpenFailure(path, kind)
    {
      err := None;
      if !isOpen {
        err := OpenFailure(path, kind);
        if err.None? {
          isOpen := true;
        }
      }
    }

    method GetRepo() returns (res: Result<Repo, string>)
      requires Valid()
      modifies this`isOpen
      ensures Valid() && Model() == old(Model())
      ensures isOpen == (old(isOpen) || kind == Repository)
      ensures res == if isOpen then Success(Model()) else Failure(OpenFailure(path, kind).value)
    {
      var err := EnsureRepo();
      if err.Some? {
        return Failure(err.value);
      }
      res := Success(Model());
    }

    method HasChanges() returns (res: Result<bool, string>)
      requires Valid()
      modifies this`isOpen
      ensures Valid() && Model() == old(Model())
      ensures isOpen == (old(isOpen) || kind == Repository)
      ensures res == if isOpen then Success(tree != map[]) else Failure(OpenFailure(path, kind).value)
    {
      var err := EnsureRepo();
      if err.Some? {
        return Failure(err.value);
      }
      res := Success(tree != map[]);
    }

    method GetLastRemoteTimestamp() returns (res: Result<Option<CommitTime>, string>)
      requires Valid()
      modifies this`isOpen
      ensures Valid() && Model() == old(Model())
      ensures isOpen == (old(isOpen) || kind == Repository)
      ensures res == if isOpen then Success(RemoteTimestamp(Model())) else Failure(OpenFailure(path, kind).value)
      ensures isOpen && tracking.Some? ==> res == Success(Some(history[tracking.value].time))
      ensures isOpen && tracking.None? ==> res == Success(None)
    {
      var err := EnsureRepo();
      if err.Some? {
        return Failure(err.value);
      }
      if tracking.Some? && tracking.value in history {
        res := Success(Some(history[tracking.value].time));
      } else {
        res := Success(None);
      }
    }

    method CommitAll(message: string, created: Result<NewCommit, string>) returns (res: Result<string, string>)
      requires Valid()
      requires created.Success? ==> created.value.sha !in history
      modifies this
      ensures Valid()
      ensures isOpen == (old(isOpen) || kind == Repository)
      ensures !isOpen ==> res == Failure(OpenFailure(path, kind).value) && Model() == old(Model())
      ensures isOpen ==> (res, Model()) == CommitSpec(old(Model()), message, created)
    {
      var err := EnsureRepo();
      if err.Some? {
        return Failure(err.value);
      }
      var dirty := HasChanges();
      if !dirty.value {
        return Success("No changes to commit.");
      }
      match created
      case Failure(e) =>
        res := Failure("Commit failed: " + e);
      case Success(c) =>
        CommitCreatesOneCommit(Model(), message, c);
        history := history[c.sha := Commit([head], message, c.time)];
        head := c.sha;
        tree := map[];
        res := Success("Committed: " + ShortSha(c.sha) + " - " + message);
    }

    method Pull(outcome: Result<Pulled, string>) returns (res: Result<string, string>)
      requires Valid()
      requires outcome.Success? ==> PullFits(Model(), outcome.value.merged)
      modifies this
      ensures Valid()
      ensures isOpen == (old(isOpen) || kind == Repository)
      ensures !isOpen ==> res == Failure(OpenFailure(path, kind).value) && Model() == old(Model())
      ensures isOpen ==> (res, Model()) == PullSpec(old(Model()), outcome)
    {
      var err := EnsureRepo();
      if err.Some? {
        return Failure(err.value);
      }
      match outcome
      case Failure(e) =>
        res := Failure("Pull failed: " + e);
      case Success(p) =>
        MergeKeepsWellFormed(Model(), p.merged);
        history, head := p.merged.history, p.merged.head;
        if p.infos == [] {
          res := Success("No changes pulled.");
        } else {
          var summary := SummarizePull(p.infos);
          assert summary == PullLines(p.infos);
          res := Success(JoinLines(summary));
        }
    }

    /** Pop the top stash entry with the given outcome. */
    method PopStash(pop: PopOutcome)
      requires Valid() && isOpen && |stash| > 0
      modifies this`tree, this`stash
      ensures Valid() && Model() == StashPop(old(Model()), pop)
    {
      match pop
      case Popped =>
        tree, stash := tree + stash[0], stash[1..];
      case PopConflict(_, t) =>
        tree := t;
    }

    method FetchInPlace(f: Fetched)
      requires Valid() && isOpen && FetchFits(Model(), f)
      modifies this`history, this`tracking
      ensures Valid() && Model() == ApplyFetch(old(Model()), f)
    {
      FetchKeepsWellFormed(Model(), f);
      history := f.history;
      if tracking.Some? {
        tracking := Some(f.remoteHead);
      }
    }

    method StashInPlace()
      requires Valid() && isOpen
      modifies this`tree, this`stash
      ensures Valid() && Model() == StashSave(old(Model()))
    {
      stash, tree := [tree] + stash, map[];
    }

    method MergeInPlace(m: Merged)
      requires Valid() && isOpen && PullFits(Model(), m)
      modifies this`history, this`head
      ensures Valid() && Model() == ApplyMerge(old(Model()), m)
    {
      MergeKeepsWellFormed(Model(), m);
      history, head := m.history, m.head;
    }

    /** Step 4: push, then collect the per-ref errors. */
    method SendInPlace(messages: seq<string>, sent: Result<seq<PushInfo>, string>) returns (res: Result<seq<string>, string>)
      requires Valid() && isOpen
      modifies this`tracking
      ensures Valid() && (res, Model()) == Send(old(Model()), messages, sent)
    {
      if sent.Failure? {
        return Failure("Push failed: " + sent.error);
      }
      var errors := CollectPushErrors(sent.value);
      if errors != [] {
        return Failure(JoinLines(errors));
      }
      if tracking.Some? {
        tracking := Some(head);
      }
      res := Success(messages + ["Push successful."]);
    }

    /** Steps 1 to 3 once `remote_ahead` holds: stash if dirty, pull, pop. */
    method SyncInPlace(pull: Result<Pulled, string>, pop: PopOutcome, sent: Result<seq<PushInfo>, string>)
      returns (res: Result<seq<string>, string>)
      requires Valid() && isOpen && NeedsSync(Model())
      requires pull.Success? ==> MergeFits(Model(), pull.value.merged)
      modifies this`history, this`head, this`tracking, this`tree, this`stash
      ensures Valid()
      ensures (res, Model()) == Sync(old(Model()), pull, pop, sent)
    {
      ghost var r1 := Model();
      var messages: seq<string> := [];
      var hadStash := false;
      if tree != map[] {
        StashInPlace();
        hadStash := true;
        messages := messages + ["Stashed local changes."];
      }
      ghost var r2 := Model();
      assert r2 == if Dirty(r1) then StashSave(r1) else r1;
      assert messages == if Dirty(r1) then ["Stashed local changes."] else [];
      if pull.Failure? {
        if hadStash {
          PopStash(pop);
        }
        return Failure("Pull failed during sync: " + pull.error);
      }
      MergeInPlace(pull.value.merged);
      assert Model() == ApplyMerge(r2, pull.value.merged);
      messages := messages + ["Pulled remote changes."];
      if hadStash {
        PopStash(pop);
        if pop.PopConflict? {
          return Failure(PopConflictMessage(pop.error));
        }
        messages := messages + ["Restored local changes."];
      }
      res := SendInPlace(messages, sent);
    }

    method Push(fetch: Result<Fetched, string>, pull: Result<Pulled, string>,
                pop: PopOutcome, sent: Result<seq<PushInfo>, string>) returns (res: Result<seq<string>, string>)
      requires Valid()
      requires PushFits(Model(), fetch, pull)
      modifies this
      ensures Valid()
      ensures isOpen == (old(isOpen) || kind == Repository)
      ensures !isOpen ==> res == Failure(OpenFailure(path, kind).value) && Model() == old(Model())
      ensures isOpen ==> (res, Model()) == PushSpec(old(Model()), fetch, pull, pop, sent)
    {
      var err := EnsureRepo();
      if err.Some? {
        return Failure(err.value);
      }
      if fetch.Failure? {
        return Failure("Push failed: " + fetch.error);
      }
      FetchInPlace(fetch.value);
      var remoteAhead := false;
      if tracking.Some? {
        var local, remote := head, tracking.value;
        remoteAhead := local != remote && remote !in MergeBase(history, local, remote);
      }
      if remoteAhead {
        res := SyncInPlace(pull, pop, sent);
      } else {
        res := SendInPlace([], sent);
      }
    }
  }
}
