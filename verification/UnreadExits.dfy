/** The error exit of a split whose read of the campaign failed. It tests nothing, and clears the lease whoever holds it.
    The runs of the protocol do not go on after such an exit; here is what it does to a state they lead to. */
module UnreadExits {
  import opened Status
  import opened TaskRows
  import opened Audience
  import opened Protocol
  import opened Invariant
  import opened SplitSteps
  import opened CallRows
  import opened Stragglers
  import opened SplitVersions
  import opened AnyRun
  import opened CampaignFaults

  function UnreadExitDb(db: Db, version: int, now: int): Db {
    db.UpdateMainStats(version, 0, 0, 0, Failed, now).db.ClearSplitLease(now)
  }

  function UnreadExit(s: Sys, owner: string, now: int): Sys
    requires owner in s.splits
  {
    s.WithDb(UnreadExitDb(s.store.db, s.splits[owner].version, now)).(splits := s.splits - {owner})
  }

  /** Running with its split not done and nobody to do it: its rows may be claimed, but no worker can take the split over,
      and the reaper never lists it. */
  predicate Orphaned(s: Sys) {
    s.Main().status == Running && s.Main().owner == "" && s.Main().subTotal == 0
  }

  lemma OrphanStays(s: Sys, worker: string, leaseSec: int, staleSec: int, now: int)
    requires Orphaned(s)
    ensures !s.store.db.ClaimStaleSplit(worker, now, leaseSec).ok && !s.store.db.Finishable(now, staleSec)
  {
  }

  // ---- the rows after it ----

  lemma ExitErased(s: Sys, owner: string, now: int)
    requires owner in s.splits
    ensures Erased(UnreadExit(s, owner, now)) == UnreadExit(Erased(s), owner, now)
  {
    StatusErased(s.store.db, s.splits[owner].version, Failed, now);
    MetaErased(s.store.db.UpdateMainStats(s.splits[owner].version, 0, 0, 0, Failed, now).db, 0, 0, now);
  }

  lemma ExitDbKeeps(cfg: Config, s: Sys, version: int, now: int)
    requires Inv(cfg, s)
    requires s.Main().status == Running && s.Main().owner != "" ==> s.Main().version == version
    ensures Inv(cfg, s.WithDb(UnreadExitDb(s.store.db, version, now)))
  {
    if s.Main().version == version && !s.Main().status.IsTerminal() && s.Main().status != Paused {
      FailAndClearKeeps(cfg, s, now);
    } else {
      ClearKeeps(cfg, s, now);
    }
  }

  lemma ExitKeeps(cfg: Config, s: Sys, owner: string, now: int)
    requires Inv(cfg, s) && owner in s.splits
    requires s.Main().status == Running && s.Main().owner != "" ==> s.Main().version == s.splits[owner].version
    ensures Inv(cfg, UnreadExit(s, owner, now))
  {
    ExitDbKeeps(cfg, s, s.splits[owner].version, now);
    SplitEnded(cfg, s.WithDb(UnreadExitDb(s.store.db, s.splits[owner].version, now)), owner);
  }

  lemma ExitMain(db: Db, version: int, now: int)
    ensures var db' := UnreadExitDb(db, version, now);
      && db'.subs == db.subs && db'.main.owner == "" && db'.main.subTotal == db.main.subTotal
      && db.main.version <= db'.main.version
      && db'.main.status == if db.main.version == version && !db.main.status.IsTerminal() && db.main.status != Paused
                            then Failed else db.main.status
  {
  }

  lemma ExitLeavesCalls(s: Sys, owner: string, now: int)
    requires owner in s.splits && Rooted(s) && SnapsOk(s) && Numbered(s) && CallsFormed(s)
    ensures var s' := UnreadExit(s, owner, now); Rooted(s') && SnapsOk(s') && Numbered(s') && CallsFormed(s')
  {
    ExitMain(s.store.db, s.splits[owner].version, now);
    OtherSnaps(s, UnreadExit(s, owner, now));
  }

  /** Before the split is done a running campaign has a split owner. */
  lemma NoOrphan(cfg: Config, s: Sys)
    requires Inv(cfg, Erased(s))
    ensures !Orphaned(s) && (s.Main().status == Running && s.Main().owner != "" ==> s.Main().subTotal == 0)
  {
    assert PhaseOk(Erased(s));
  }

  /** In every run: such an exit fails the campaign if and only if the campaign is running under the version that split
      read, whoever owns the split by then. It leaves the campaign orphaned if and only if the campaign is running with a
      split owner under another version; and in that case alone it breaks what holds over every run. */
  lemma UnreadExitIff(cfg: Config, steps: seq<Step>, owner: string, now: int)
    requires owner in After(cfg, Init(), steps).splits
    ensures var s := After(cfg, Init(), steps);
      var s' := UnreadExit(s, owner, now);
      && (s'.Main().status != s.Main().status <==> s.Main().status == Running && s.Main().version == s.splits[owner].version)
      && (s'.Main().status != s.Main().status ==> s'.Main().status == Failed)
      && (Orphaned(s') <==>
            s.Main().status == Running && s.Main().owner != "" && s.Main().version != s.splits[owner].version)
      && (Orphaned(s') <==> !RowsSound(cfg, s'))
  {
    RowsAlways(cfg, steps);
    VersionsAlways(cfg, steps);
    ExitIff(cfg, After(cfg, Init(), steps), owner, now);
  }

  lemma ExitIff(cfg: Config, s: Sys, owner: string, now: int)
    requires RowsSound(cfg, s) && VersionsOk(s) && owner in s.splits
    ensures var s' := UnreadExit(s, owner, now);
      && (s'.Main().status != s.Main().status <==> s.Main().status == Running && s.Main().version == s.splits[owner].version)
      && (s'.Main().status != s.Main().status ==> s'.Main().status == Failed)
      && (Orphaned(s') <==>
            s.Main().status == Running && s.Main().owner != "" && s.Main().version != s.splits[owner].version)
      && (Orphaned(s') <==> !RowsSound(cfg, s'))
  {
    var s' := UnreadExit(s, owner, now);
    ExitMain(s.store.db, s.splits[owner].version, now);
    NoOrphan(cfg, s);
    assert PhaseOk(Erased(s));
    if Orphaned(s') {
      if RowsSound(cfg, s') { NoOrphan(cfg, s'); }
    } else {
      ExitKeeps(cfg, Erased(s), owner, now);
      ExitErased(s, owner, now);
      ExitLeavesCalls(s, owner, now);
    }
  }

  // ---- a run that leads there ----

  const RESTARTED := TAKEN.(owner := "b", leaseAt := Some(100), updatedAt := 100, version := 2)

  const SUSPENDED := TAKEN.(status := Paused, version := 1, updatedAt := 100)
  const PENDING_AGAIN := TAKEN.(status := Pending, version := 2, updatedAt := 100)

  lemma RowWritten(main: MainTask, step: Step, main': MainTask)
    requires Reached(Campaign(main, map[], 1, map["a" := IDLE]), true) && IsRowStep(step)
    requires RowMoves(Db(main, map[], 1), step) == Db(main', map[], 1)
    ensures Reached(Campaign(main', map[], 1, map["a" := IDLE]), true)
  {
    Writing(Campaign(main, map[], 1, map["a" := IDLE]), true, step);
  }

  lemma PausedAndResumed()
    ensures RowMoves(Db(TAKEN, map[], 1), Pause(100)) == Db(SUSPENDED, map[], 1)
    ensures RowMoves(Db(SUSPENDED, map[], 1), Resume(100)) == Db(PENDING_AGAIN, map[], 1)
  {
  }

  /** "a" stalls; the campaign is paused and resumed, which makes it pending again. */
  lemma PendingAgain()
    ensures Reached(Campaign(PENDING_AGAIN, map[], 1, map["a" := IDLE]), true)
  {
    TakenByA();
    PausedAndResumed();
    RowWritten(TAKEN, Pause(100), SUSPENDED);
    RowWritten(SUSPENDED, Resume(100), PENDING_AGAIN);
  }

  lemma TakenAgain()
    ensures var s := Campaign(PENDING_AGAIN, map[], 1, map["a" := IDLE]);
      s.WithWork(SplitMoves(SMALL, s.Work(), StartSplit("b", 100))) == StaleBeside(RESTARTED, map[], 1, IDLE.(version := 2))
  {
    var s := Campaign(PENDING_AGAIN, map[], 1, map["a" := IDLE]);
    assert SplitMoves(SMALL, s.Work(), StartSplit("b", 100)).splits == map["a" := IDLE, "b" := IDLE.(version := 2)];
  }

  /** "b" takes the split. */
  lemma SplitAgain()
    ensures Reached(StaleBeside(RESTARTED, map[], 1, IDLE.(version := 2)), true)
  {
    PendingAgain();
    TakenAgain();
    var s := Campaign(PENDING_AGAIN, map[], 1, map["a" := IDLE]);
    Splitting(s, true, StartSplit("b", 100));
  }

  /** Then "b" writes a page. */
  lemma PageBeside()
    ensures Reached(StaleBeside(RESTARTED.(totalCount := 1), map[1 := U], 2, PAGED.(version := 2)), true)
  {
    SplitAgain();
    var s := StaleBeside(RESTARTED, map[], 1, IDLE.(version := 2));
    Splitting(s, true, WritePage("b", [TargetUser("u", [])], 100));
    OneAndTwo("u", "u");
    assert [] + [["u"]] == [["u"]];
    PageOfOne(s, "b", "u");
    assert IDLE.raw + [TargetUser("u", [])] == PAGED.raw && IDLE.ids + [1] == PAGED.ids;
    assert s.splits["b" := PAGED.(version := 2)] == map["a" := IDLE, "b" := PAGED.(version := 2)];
    assert Next(SMALL, s, WritePage("b", [TargetUser("u", [])], 100))
        == StaleBeside(RESTARTED.(totalCount := 1), map[1 := U], 2, PAGED.(version := 2));
  }

  /** Up to the exit nothing fails: "a" stalls, the campaign is paused and resumed, "b" splits it anew and has written a
      page when "a" wakes up with an error and cannot read the campaign. The row of the unfinished split may be claimed,
      and "b" has lost its lease to nobody. */
  lemma UnreadExitRun() returns (steps: seq<Step>)
    ensures var s := After(SMALL, Init(), steps);
      && RetryFaults.NothingFails(steps) && "a" in s.splits && "b" in s.splits && s.Main().owner == "b"
      && var s' := UnreadExit(s, "a", 100);
         Orphaned(s') && s'.store.db.Claimable(1, 100, 60) && !s'.store.db.RenewSplitLease("b", 100).ok
  {
    PageBeside();
    var s := StaleBeside(RESTARTED.(totalCount := 1), map[1 := U], 2, PAGED.(version := 2));
    ExitMain(s.store.db, 0, 100);
    steps :| Leads(steps, s, true);
  }
}
