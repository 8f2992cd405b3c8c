/** The status check of core/status.py: classify the local branch against
    its remote-tracking branch after a fetch, as a pure function of what the
    gateway reports, and format the time of the last remote commit. */
module Status {
  import opened Results
  import opened Text
  import opened History
  import Git

  datatype RepoState = UpToDate | LocalAhead | RemoteAhead | Diverged | Error

  datatype StatusResult = StatusResult(state: RepoState, message: string, lastSync: string)

  // ---------------------------------------------------------------------
  // last_sync

  /** The ranges a Python `datetime` keeps its fields in. */
  predicate ValidDateTime(t: DateTime)
  {
    && 1 <= t.date.year <= 9999 && 1 <= t.date.month <= 12 && 1 <= t.date.day <= 31
    && t.hour <= 23 && t.minute <= 59
  }

  /** `strftime("%H:%M")` */
  function ClockText(t: DateTime): string
  {
    ZeroPad(t.hour, 2) + ":" + ZeroPad(t.minute, 2)
  }

  /** `strftime("%Y-%m-%d")` */
  function DateText(d: Date): string
  {
    ZeroPad(d.year, 4) + "-" + ZeroPad(d.month, 2) + "-" + ZeroPad(d.day, 2)
  }

  /** `strftime("%Y-%m-%d %H:%M")` */
  function FullText(t: DateTime): string
  {
    DateText(t.date) + " " + ClockText(t)
  }

  /** The `last_sync` text: empty when there is no timestamp or it is 0,
      the time of day when the commit is from today, else date and time. */
  function LastSync(ts: Option<CommitTime>, today: Date): string
  {
    if ts.None? || ts.value.epoch == 0 then ""
    else if ts.value.local.date == today then ClockText(ts.value.local)
    else FullText(ts.value.local)
  }

  lemma ClockTextShape(t: DateTime)
    requires ValidDateTime(t)
    ensures var s := ClockText(t);
      && |s| == 5 && s[2] == ':'
      && AllDigits(s[..2]) && Decimal(s[..2]) == t.hour
      && AllDigits(s[3..]) && Decimal(s[3..]) == t.minute
  {
    var h, m := ZeroPad(t.hour, 2), ZeroPad(t.minute, 2);
    var s := ClockText(t);
    assert s == h + ":" + m;
    assert s[..2] == h;
    assert s[3..] == m;
  }

  /** A commit from today reads "HH:MM"; its two fields give back the hour
      and minute of the commit. */
  lemma LastSyncToday(ts: CommitTime, today: Date)
    requires ts.epoch != 0 && ValidDateTime(ts.local) && ts.local.date == today
    ensures var s := LastSync(Some(ts), today);
      && |s| == 5 && s[2] == ':'
      && AllDigits(s[..2]) && Decimal(s[..2]) == ts.local.hour
      && AllDigits(s[3..]) && Decimal(s[3..]) == ts.local.minute
  {
    ClockTextShape(ts.local);
  }

  lemma DateTextShape(d: Date)
    requires 1 <= d.year <= 9999 && 1 <= d.month <= 12 && 1 <= d.day <= 31
    ensures var s := DateText(d);
      && |s| == 10 && s[4] == '-' && s[7] == '-'
      && AllDigits(s[..4]) && Decimal(s[..4]) == d.year
      && AllDigits(s[5..7]) && Decimal(s[5..7]) == d.month
      && AllDigits(s[8..]) && Decimal(s[8..]) == d.day
  {
    var y, m, dd := ZeroPad(d.year, 4), ZeroPad(d.month, 2), ZeroPad(d.day, 2);
    assert Pow10(2) == 100 && Pow10(4) == 10000;
    var s := DateText(d);
    assert s == y + "-" + m + "-" + dd;
    assert s[..4] == y;
    assert s[5..7] == m;
    assert s[8..] == dd;
  }

  /** A commit from another day reads "YYYY-MM-DD HH:MM", zero-padded; each
      field gives back the corresponding part of the commit's time. */
  lemma LastSyncOtherDay(ts: CommitTime, today: Date)
    requires ts.epoch != 0 && ValidDateTime(ts.local) && ts.local.date != today
    ensures var s := LastSync(Some(ts), today);
      && |s| == 16 && s[4] == '-' && s[7] == '-' && s[10] == ' ' && s[13] == ':'
      && AllDigits(s[..4]) && Decimal(s[..4]) == ts.local.date.year
      && AllDigits(s[5..7]) && Decimal(s[5..7]) == ts.local.date.month
      && AllDigits(s[8..10]) && Decimal(s[8..10]) == ts.local.date.day
      && AllDigits(s[11..13]) && Decimal(s[11..13]) == ts.local.hour
      && AllDigits(s[14..]) && Decimal(s[14..]) == ts.local.minute
  {
    var t := ts.local;
    var d, c := DateText(t.date), ClockText(t);
    DateTextShape(t.date);
    ClockTextShape(t);
    var s := LastSync(Some(ts), today);
    assert s == d + " " + c;
    assert s[..4] == d[..4];
    assert s[5..7] == d[5..7];
    assert s[8..10] == d[8..];
    assert s[11..13] == c[..2];
    assert s[14..] == c[3..];
  }

  lemma LastSyncEmpty(ts: Option<CommitTime>, today: Date)
    ensures LastSync(ts, today) == "" <==> ts.None? || ts.value.epoch == 0
  {
    if ts.Some? && ts.value.epoch != 0 {
      if ts.value.local.date == today {
        assert |ClockText(ts.value.local)| >= 1;
      } else {
        assert |FullText(ts.value.local)| >= 1;
      }
    }
  }

  // ---------------------------------------------------------------------
  // check_status

  /** `check_status`: `handle` is what `get_repo` gave (the repository or
      the failure text), `fetch` the outcome of `origin.fetch()`, `today`
      the current local date. */
  function CheckStatus(handle: Result<Git.Repo, string>, fetch: Result<Git.Fetched, string>, today: Date): StatusResult
  {
    match handle
    case Failure(e) => StatusResult(Error, e, "")
    case Success(r0) =>
      match fetch
      case Failure(e) => StatusResult(Error, e, "")
      case Success(f) =>
        var r := Git.ApplyFetch(r0, f);
        if Git.Dirty(r) then StatusResult(LocalAhead, "Uncommitted changes present.", "")
        else if r.tracking.None? then StatusResult(Error, "No tracking branch configured.", "")
        else
          var local, remote := r.head, r.tracking.value;
          var lastSync := LastSync(Git.RemoteTimestamp(r), today);
          if local == remote then StatusResult(UpToDate, "Repository is up to date.", lastSync)
          else if IsAncestor(r.history, remote, local) then StatusResult(LocalAhead, "You have unpushed changes.", lastSync)
          else if IsAncestor(r.history, local, remote) then StatusResult(RemoteAhead, "Remote has new changes.", lastSync)
          else StatusResult(Diverged, "Branches have diverged.", lastSync)
  }

  /** What each outcome of the clean, tracked case means about the two heads,
      stated symmetrically and independent of the order of the tests. */
  predicate Describes(s: RepoState, g: Graph, local: CommitId, remote: CommitId)
  {
    match s
    case UpToDate => local == remote
    case LocalAhead => local != remote && IsAncestor(g, remote, local)
    case RemoteAhead => local != remote && IsAncestor(g, local, remote)
    case Diverged => !IsAncestor(g, remote, local) && !IsAncestor(g, local, remote)
    case Error => false
  }

  function Message(s: RepoState): string
  {
    match s
    case UpToDate => "Repository is up to date."
    case LocalAhead => "You have unpushed changes."
    case RemoteAhead => "Remote has new changes."
    case Diverged => "Branches have diverged."
    case Error => ""
  }

  /** For distinct heads of an acyclic history, the local-ahead and
      remote-ahead tests cannot both succeed. */
  lemma AheadTestsExclusive(g: Graph, local: CommitId, remote: CommitId)
    requires Acyclic(g) && local != remote
    ensures !(IsAncestor(g, remote, local) && IsAncestor(g, local, remote))
  {
    if IsAncestor(g, remote, local) && IsAncestor(g, local, remote) {
      IsAncestorAntisymmetric(g, remote, local);
    }
  }

  /** In an acyclic history every pair of heads is described by exactly one
      of the four outcomes. */
  lemma OutcomesPartition(g: Graph, local: CommitId, remote: CommitId)
    requires Acyclic(g)
    ensures exists s :: Describes(s, g, local, remote)
    ensures forall s, t :: Describes(s, g, local, remote) && Describes(t, g, local, remote) ==> s == t
  {
    IsAncestorReflexive(g, local);
    if local != remote {
      AheadTestsExclusive(g, local, remote);
    }
    if local == remote {
      assert Describes(UpToDate, g, local, remote);
    } else if IsAncestor(g, remote, local) {
      assert Describes(LocalAhead, g, local, remote);
    } else if IsAncestor(g, local, remote) {
      assert Describes(RemoteAhead, g, local, remote);
    } else {
      assert Describes(Diverged, g, local, remote);
    }
  }

  /** A clean tree with a tracking branch in a well-formed repository: the
      result is the one state that describes the two heads, with its fixed
      message and the formatted time of the remote head. */
  lemma CheckStatusClassifies(r0: Git.Repo, f: Git.Fetched, today: Date)
    requires Git.WellFormed(r0) && Git.FetchFits(r0, f)
    requires var r := Git.ApplyFetch(r0, f); !Git.Dirty(r) && r.tracking.Some?
    ensures var r := Git.ApplyFetch(r0, f);
      var res := CheckStatus(Success(r0), Success(f), today);
      && (forall s :: Describes(s, r.history, r.head, r.tracking.value) <==> s == res.state)
      && res.message == Message(res.state)
      && res.lastSync == LastSync(Some(r.history[r.tracking.value].time), today)
  {
    var r := Git.ApplyFetch(r0, f);
    Git.FetchKeepsWellFormed(r0, f);
    OutcomesPartition(r.history, r.head, r.tracking.value);
    var res := CheckStatus(Success(r0), Success(f), today);
    assert Describes(res.state, r.history, r.head, r.tracking.value) by {
      IsAncestorReflexive(r.history, r.head);
    }
  }

  /** A failure to open the repository or to fetch is reported as `Error`
      with the failure's own text and no time; nothing escapes the check. */
  lemma CheckStatusFailures(handle: Result<Git.Repo, string>, fetch: Result<Git.Fetched, string>, today: Date)
    requires handle.Failure? || fetch.Failure?
    ensures var res := CheckStatus(handle, fetch, today);
      && res.state == Error && res.lastSync == ""
      && res.message == if handle.Failure? then handle.error else fetch.error
  {
  }

  /** A dirty tree is local-ahead whatever the commits, tracking branch and
      timestamps are. */
  lemma CheckStatusDirty(r0: Git.Repo, f: Git.Fetched, today: Date)
    requires Git.Dirty(r0)
    ensures CheckStatus(Success(r0), Success(f), today) == StatusResult(LocalAhead, "Uncommitted changes present.", "")
  {
  }

  lemma CheckStatusNoTracking(r0: Git.Repo, f: Git.Fetched, today: Date)
    requires !Git.Dirty(r0) && r0.tracking.None?
    ensures CheckStatus(Success(r0), Success(f), today) == StatusResult(Error, "No tracking branch configured.", "")
  {
  }

  /** The result is `Error` exactly when opening or fetching failed or no
      tracking branch is configured; a time is shown only with one of the
      four comparison outcomes. */
  lemma CheckStatusErrorIff(handle: Result<Git.Repo, string>, fetch: Result<Git.Fetched, string>, today: Date)
    ensures var res := CheckStatus(handle, fetch, today);
      && (res.state == Error <==>
            handle.Failure? || fetch.Failure?
            || (var r := Git.ApplyFetch(handle.value, fetch.value); !Git.Dirty(r) && r.tracking.None?))
      && (res.lastSync != "" ==> res.state != Error && res.message == Message(res.state))
  {
  }

  /** The push's `remote_ahead` decision and the status check agree: on a
      clean, tracked, well-formed repository push takes the stash-pull-pop
      path exactly when the status is remote-ahead or diverged. */
  lemma PushSyncsIffBehind(r0: Git.Repo, f: Git.Fetched, today: Date)
    requires Git.WellFormed(r0) && Git.FetchFits(r0, f)
    requires var r := Git.ApplyFetch(r0, f); !Git.Dirty(r) && r.tracking.Some?
    ensures var st := CheckStatus(Success(r0), Success(f), today).state;
      Git.NeedsSync(Git.ApplyFetch(r0, f)) <==> st == RemoteAhead || st == Diverged
  {
    var r := Git.ApplyFetch(r0, f);
    Git.FetchKeepsWellFormed(r0, f);
    Git.NeedsSyncMeaning(r);
  }

  /** The scenarios of the status tests: equal heads are up to date; a remote
      head that is a parent of the local one is local-ahead, and the other way
      round remote-ahead. */
  lemma CheckStatusScenarios(r0: Git.Repo, f: Git.Fetched, today: Date, child: CommitId, parent: CommitId)
    requires !Git.Dirty(r0) && r0.tracking.Some?
    requires Acyclic(f.history) && child in f.history && parent in f.history[child].parents
    ensures r0.head == f.remoteHead ==>
      CheckStatus(Success(r0), Success(f), today).state == UpToDate
    ensures r0.head == child && f.remoteHead == parent ==>
      CheckStatus(Success(r0), Success(f), today).state == LocalAhead
    ensures r0.head == parent && f.remoteHead == child ==>
      CheckStatus(Success(r0), Success(f), today).state == RemoteAhead
  {
    var g := f.history;
    assert ReachesIn(g, parent, parent, 0);
    assert parent in Parents(g, child);
    assert ReachesIn(g, child, parent, 1);
    IsAncestorIffReaches(g, parent, child);
    AheadTestsExclusive(g, child, parent);
  }
}
