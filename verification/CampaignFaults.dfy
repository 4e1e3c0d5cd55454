/** Runs in which nothing fails and yet a campaign is closed too soon, closed with the wrong status, or never closed. */
module CampaignFaults {
  import opened Status
  import opened TaskRows
  import opened Aggregation
  import opened Audience
  import opened Retry
  import opened Protocol
  import opened RetryKeepsInvariant
  import opened CallRows
  import opened SplitVersions
  import AnyRun
  import CampaignRuns
  import LostCounts
  import RetryFaults
  import SafeRetries
  import SpoiledSums
  import Stragglers

  const SMS_ONLY := Filter(["sms"], {}, false, iset{}, false, iset{})
  const SMALL := Config(SMS_ONLY, 100, 1)

  /** A run in which no Retry at all overtakes a live aggregator call. */
  ghost predicate QuietRun(cfg: Config, steps: seq<Step>) {
    steps != [] ==>
      var n := |steps| - 1;
      QuietRun(cfg, steps[..n]) && SafeRetries.Quiet(cfg, After(cfg, Init(), steps[..n]), steps[n])
  }

  lemma {:induction false} QuietToTheLast(cfg: Config, steps: seq<Step>)
    requires QuietRun(cfg, steps)
    ensures CampaignRuns.LastQuiet(cfg, steps)
  {
    if steps != [] { QuietToTheLast(cfg, steps[..|steps| - 1]); }
  }

  /** `steps` leads to `s` and nothing fails on the way; if `quiet`, no Retry overtakes a live call either. */
  ghost predicate Leads(steps: seq<Step>, s: Sys, quiet: bool) {
    After(SMALL, Init(), steps) == s && RetryFaults.NothingFails(steps) && (quiet ==> QuietRun(SMALL, steps))
  }

  ghost predicate Reached(s: Sys, quiet: bool) {
    exists steps :: Leads(steps, s, quiet)
  }

  lemma Start()
    ensures Reached(Init(), true)
  {
    assert Leads([], Init(), true);
  }

  /** A step that is no Retry, or one that need not be quiet. */
  lemma Advance(s: Sys, quiet: bool, step: Step)
    requires Reached(s, quiet) && !RetryFaults.Fails(step)
    requires quiet && step.RetryCampaign? ==> SafeRetries.Quiet(SMALL, s, step)
    ensures Reached(Next(SMALL, s, step), quiet)
  {
    var steps :| Leads(steps, s, quiet);
    assert (steps + [step])[..|steps|] == steps;
    assert Leads(steps + [step], Next(SMALL, s, step), quiet);
  }

  lemma Writing(s: Sys, quiet: bool, step: Step)
    requires Reached(s, quiet) && IsRowStep(step)
    ensures Reached(s.WithDb(RowMoves(s.store.db, step)), quiet)
  {
    Advance(s, quiet, step);
  }

  lemma Splitting(s: Sys, quiet: bool, step: Step)
    requires Reached(s, quiet) && IsSplitStep(step) && !step.CrashSplit?
    ensures Reached(s.WithWork(SplitMoves(SMALL, s.Work(), step)), quiet)
  {
    Advance(s, quiet, step);
  }

  lemma Beginning(s: Sys, quiet: bool, step: Step)
    requires Reached(s, quiet) && BeginsCall(step)
    ensures Reached(BeginMoves(s, step), quiet)
  {
    Advance(s, quiet, step);
  }

  lemma Aggregating(s: Sys, quiet: bool, c: nat, now: int)
    requires Reached(s, quiet)
    ensures Reached(AggregateStep(s, c, now), quiet)
  {
    Advance(s, quiet, Aggregate(c, now));
  }

  function Row(shard: int, user: string): SubTask {
    Shard(shard, [user])
  }

  lemma OneUser(user: string)
    requires user != ""
    ensures KeptIds(SMS_ONLY, [TargetUser(user, [])]) == [user]
  {
    assert SMS_ONLY.Keeps(TargetUser(user, []));
  }

  lemma OneAndTwo(u: string, v: string)
    ensures Flatten([[u]]) == [u] && Flatten([[u], [v]]) == [u, v]
  {
    FlattenAppend([], [u]);
    assert [] + [[u]] == [[u]];
    FlattenAppend([[u]], [v]);
    assert [[u]] + [[v]] == [[u], [v]];
  }

  /** A page of one user, written by the owner. */
  lemma PageOfOne(s: Sys, owner: string, user: string)
    requires owner != "" && owner in s.splits && !s.splits[owner].failing && user != ""
    requires s.Main().status == Running && s.Main().owner == owner
    requires Written(s.splits[owner].shards + [[user]]) <= 100
    ensures var p := s.splits[owner];
      var db := s.store.db;
      var p' := Split(p.version, p.raw + [TargetUser(user, [])], p.ids + [db.nextId], p.shards + [[user]], false);
      Next(SMALL, s, WritePage(owner, [TargetUser(user, [])], 100)) ==
        s.WithDb(Db(db.main.(leaseAt := Some(100), updatedAt := 100, totalCount := Written(p'.shards), subTotal := 0),
                    db.subs[db.nextId := Row(|p.shards|, user)], db.nextId + 1))
         .(splits := s.splits[owner := p'])
  {
    OneUser(user);
    InsertedRow(s.store.db.RenewSplitLease(owner, 100).db, Row(|s.splits[owner].shards|, user));
  }

  // ---- a split that lost its lease fails the campaign its successor finished ----

  lemma ExitWrites(s: Sys, owner: string, now: int)
    requires owner in s.splits && s.Main().owner != owner
    ensures FailSplitStep(s, owner, now).Main().status ==
      if s.Main().owner == "" && s.splits[owner].version == s.Main().version && !s.Main().status.IsTerminal() && s.Main().status != Paused
      then Failed else s.Main().status
  {
  }

  /** In every run: the error exit of a split that is not, or no longer, the owner changes the campaign's status if and
      only if the campaign is running without a split owner, its version still the one that split read. It then fails a
      campaign whose split another worker has done. */
  lemma StaleExitFails(cfg: Config, steps: seq<Step>, owner: string, now: int)
    requires var s := After(cfg, Init(), steps); owner in s.splits && s.Main().owner != owner
    ensures var s := After(cfg, Init(), steps);
      var s' := FailSplitStep(s, owner, now);
      && (s'.Main().status != s.Main().status <==>
            s.Main().status == Running && s.Main().owner == "" && s.splits[owner].version == s.Main().version)
      && (s'.Main().status != s.Main().status ==>
            s'.Main().status == Failed && s'.Subs() == s.Subs() && s.Main().subTotal == |s.Subs()| > 0)
  {
    VersionsAlways(cfg, steps);
    AnyRun.RowsAlways(cfg, steps);
    StaleExitIff(cfg, After(cfg, Init(), steps), owner, now);
  }

  lemma StaleExitIff(cfg: Config, s: Sys, owner: string, now: int)
    requires AnyRun.RowsSound(cfg, s) && VersionsOk(s) && owner in s.splits && s.Main().owner != owner
    ensures var s' := FailSplitStep(s, owner, now);
      && (s'.Main().status != s.Main().status <==>
            s.Main().status == Running && s.Main().owner == "" && s.splits[owner].version == s.Main().version)
      && (s'.Main().status != s.Main().status ==>
            s'.Main().status == Failed && s'.Subs() == s.Subs() && s.Main().subTotal == |s.Subs()| > 0)
  {
    ExitWrites(s, owner, now);
    if FailSplitStep(s, owner, now).Main().status != s.Main().status {
      ExitOfRunning(cfg, s, owner);
      ExitLeavesRows(s, owner, now);
    }
  }

  lemma ExitLeavesRows(s: Sys, owner: string, now: int)
    requires owner in s.splits && s.Main().status == Running
    ensures FailSplitStep(s, owner, now).Subs() == s.Subs()
  {
  }

  lemma ExitOfRunning(cfg: Config, s: Sys, owner: string)
    requires AnyRun.RowsSound(cfg, s) && VersionsOk(s) && owner in s.splits
    requires s.splits[owner].version == s.Main().version && !s.Main().status.IsTerminal() && s.Main().status != Paused
    ensures s.Main().status == Running
    ensures s.Main().owner == "" ==> s.Main().subTotal == |s.Subs()| > 0
  {
    assert AnyRun.Erased(s).Main().status == s.Main().status;
    assert AnyRun.Erased(s).Subs() == s.Subs();
  }

  const IDLE := Split(0, [], [], [], false)

  function Campaign(main: MainTask, subs: map<nat, SubTask>, nextId: nat, splits: map<string, Split>): Sys {
    Init().WithDb(Db(main, subs, nextId)).(splits := splits)
  }

  const TAKEN := NEW_MAIN.(status := Running, owner := "a", leaseAt := Some(0))

  lemma TakenByA()
    ensures Reached(Campaign(TAKEN, map[], 1, map["a" := IDLE]), true)
  {
    Start();
    Writing(Init(), true, Publish(0));
    Splitting(Campaign(NEW_MAIN.(status := Pending), map[], 1, map[]), true, StartSplit("a", 0));
  }

  const TAKEN_OVER := TAKEN.(owner := "b", leaseAt := Some(100), updatedAt := 100)
  const PAGED := Split(0, [TargetUser("u", [])], [1], [["u"]], false)

  function StaleBeside(main: MainTask, subs: map<nat, SubTask>, nextId: nat, b: Split): Sys {
    Campaign(main, subs, nextId, map["a" := IDLE, "b" := b])
  }

  /** The first page of a split that just began. */
  lemma FirstPage(main: MainTask, splits: map<string, Split>, owner: string)
    requires owner != "" && owner in splits && splits[owner] == IDLE && main.status == Running && main.owner == owner && main.subTotal == 0
    ensures Next(SMALL, Campaign(main, map[], 1, splits), WritePage(owner, [TargetUser("u", [])], 100))
         == Campaign(main.(leaseAt := Some(100), updatedAt := 100, totalCount := 1), map[1 := U], 2, splits[owner := PAGED])
  {
    var s := Campaign(main, map[], 1, splits);
    OneAndTwo("u", "u");
    assert [] + [["u"]] == [["u"]];
    PageOfOne(s, owner, "u");
    assert IDLE.raw + [TargetUser("u", [])] == PAGED.raw && IDLE.ids + [1] == PAGED.ids && IDLE.shards + [["u"]] == PAGED.shards;
  }

  /** The finish of a split whose one page is written. */
  lemma OnePageSealed(main: MainTask, splits: map<string, Split>, owner: string)
    requires owner != "" && owner in splits && splits[owner] == PAGED && main == SEALED.(owner := owner, leaseAt := Some(100), subTotal := 0)
    ensures Next(SMALL, Campaign(main, map[1 := U], 2, splits), FinishSplit(owner, 100))
         == Campaign(SEALED, map[1 := U], 2, splits - {owner})
  {
    OneAndTwo("u", "u");
  }

  lemma TakenOverReached()
    ensures Reached(StaleBeside(TAKEN_OVER, map[], 1, IDLE), true)
  {
    TakenByA();
    var s := Campaign(TAKEN, map[], 1, map["a" := IDLE]);
    Splitting(s, true, TakeOverSplit("b", 90, 100));
    assert Next(SMALL, s, TakeOverSplit("b", 90, 100)).splits == map["a" := IDLE, "b" := IDLE];
    assert Next(SMALL, s, TakeOverSplit("b", 90, 100)) == StaleBeside(TAKEN_OVER, map[], 1, IDLE);
  }

  lemma SealedBeside()
    ensures Reached(Campaign(SEALED, map[1 := U], 2, map["a" := IDLE]), true)
  {
    TakenOverReached();
    var s := StaleBeside(TAKEN_OVER, map[], 1, IDLE);
    FirstPage(TAKEN_OVER, s.splits, "b");
    Splitting(s, true, WritePage("b", [TargetUser("u", [])], 100));
    var splits := s.splits["b" := PAGED];
    OnePageSealed(TAKEN_OVER.(totalCount := 1), splits, "b");
    Splitting(Campaign(TAKEN_OVER.(totalCount := 1), map[1 := U], 2, splits), true, FinishSplit("b", 100));
    assert splits - {"b"} == map["a" := IDLE];
  }

  /** Without any failing call: worker "a" stalls, "b" takes the split over, writes its page and finishes it, then "a"
      wakes up, sees an empty owner, and closes the campaign as failed while its only row is still pending. */
  lemma StaleExitRun() returns (steps: seq<Step>)
    ensures var s := After(SMALL, Init(), steps);
      RetryFaults.NothingFails(steps) && s.Main().status == Failed && s.Subs() == map[1 := U]
  {
    SealedBeside();
    var s := Campaign(SEALED, map[1 := U], 2, map["a" := IDLE]);
    Splitting(s, true, FailSplit("a", 100));
    var s' := FailSplitStep(s, "a", 100);
    steps :| Leads(steps, s', true);
  }

  // ---- the way to a Retry ----

  const SEALED := MainTask(Running, 0, "", None, 1, 0, 1, 0, 0, 100)
  const U := Row(0, "u")
  const U_FAILED := U.(status := Failed, worker := "x", claimedAt := Some(100), fail := 1)

  /** One row of one user, split and sealed by "a". */
  lemma SealedReached()
    ensures Reached(Campaign(SEALED, map[1 := U], 2, map[]), true)
  {
    TakenByA();
    var idle := map["a" := IDLE];
    FirstPage(TAKEN, idle, "a");
    Splitting(Campaign(TAKEN, map[], 1, idle), true, WritePage("a", [TargetUser("u", [])], 100));
    var main := TAKEN.(leaseAt := Some(100), updatedAt := 100, totalCount := 1);
    var splits := idle["a" := PAGED];
    OnePageSealed(main, splits, "a");
    Splitting(Campaign(main, map[1 := U], 2, splits), true, FinishSplit("a", 100));
    assert splits - {"a"} == map[];
  }

  /** The campaign with its row failed, `calls` under way and `counted` the rows counted in the database. */
  function Straggling(main: MainTask, marks: set<nat>, calls: map<nat, Call>, nextCall: nat, counted: set<nat>): Sys {
    Sys(Store(Db(main, map[1 := U_FAILED], 2), NO_COUNTERS.(finished := marks)), map[], calls, nextCall,
        counted, {}, {}, true, false, false)
  }

  function FirstCall(pc: Pc): Call {
    Call(Some(1), 0, 1, pc)
  }

  const U_CLAIMED := U.(status := Running, worker := "x", claimedAt := Some(100))

  /** With the row claimed by "x", its failure is reported. */
  lemma Reporting(main: MainTask)
    requires Reached(Campaign(main, map[1 := U_CLAIMED], 2, map[]), true)
    ensures Reached(Straggling(main, {}, map[0 := FirstCall(Begin)], 1, {}), true)
  {
    var s := Campaign(main, map[1 := U_CLAIMED], 2, map[]);
    Beginning(s, true, Report(1, "x", 0, 1, Failed));
    assert ReportStep(s, 1, "x", 0, 1, Failed).Subs() == map[1 := U_FAILED];
    assert ReportStep(s, 1, "x", 0, 1, Failed) == Straggling(main, {}, map[0 := FirstCall(Begin)], 1, {});
  }

  lemma Claiming(splits: map<string, Split>)
    requires Reached(Campaign(SEALED, map[1 := U], 2, splits), true)
    ensures Reached(Campaign(SEALED, map[1 := U_CLAIMED], 2, splits), true)
  {
    assert Db(SEALED, map[1 := U], 2).ClaimSubTask(1, "x", 100, 60).db.subs == map[1 := U_CLAIMED];
    Writing(Campaign(SEALED, map[1 := U], 2, splits), true, Claim(1, "x", 60, 100));
  }

  lemma LoadingStep(main: MainTask)
    ensures AggregateStep(Straggling(main, {}, map[0 := FirstCall(Begin)], 1, {}), 0, 100)
         == Straggling(main, {}, map[0 := FirstCall(Loaded(main))], 1, {})
  {
  }

  lemma MarkingStep(main: MainTask)
    requires !main.status.IsTerminal()
    ensures AggregateStep(Straggling(main, {}, map[0 := FirstCall(Loaded(main))], 1, {}), 0, 100)
         == Straggling(main, {1}, map[0 := FirstCall(Marked(main))], 1, {})
  {
  }

  lemma CountingStep(main: MainTask)
    requires main.status in {Running, Paused} && main.subDone == 0 && main.updatedAt == 100
    ensures AggregateStep(Straggling(main, {1}, map[0 := FirstCall(Marked(main))], 1, {}), 0, 100)
         == Straggling(main.(subDone := 1), {1}, map[0 := FirstCall(Counted(main))], 1, {1})
  {
  }

  /** The call of the row has counted it in the database and is about to count it in Redis. */
  lemma Counting(main: MainTask)
    requires Reached(Straggling(main, {}, map[0 := FirstCall(Begin)], 1, {}), true)
    requires main.status in {Running, Paused} && main.subDone == 0 && main.updatedAt == 100
    ensures Reached(Straggling(main.(subDone := 1), {1}, map[0 := FirstCall(Counted(main))], 1, {1}), true)
  {
    LoadingStep(main);
    MarkingStep(main);
    CountingStep(main);
    Aggregating(Straggling(main, {}, map[0 := FirstCall(Begin)], 1, {}), true, 0, 100);
    Aggregating(Straggling(main, {}, map[0 := FirstCall(Loaded(main))], 1, {}), true, 0, 100);
    Aggregating(Straggling(main, {1}, map[0 := FirstCall(Marked(main))], 1, {}), true, 0, 100);
  }

  /** That call, which read `snap`, and a reaper's call beside it. */
  function Reaping(main: MainTask, snap: MainTask, pc: Pc): Sys {
    Straggling(main, {1}, map[0 := FirstCall(Counted(snap)), 1 := Call(None, 0, 0, pc)], 2, {1})
  }

  lemma ReapingSteps(main: MainTask, snap: MainTask)
    requires main.status == Running && main.subTotal == 1 && main.subDone == 1 && main.successCount == 0 && main.failCount == 1
    ensures AggregateStep(Reaping(main, snap, Begin), 1, 200) == Reaping(main, snap, Deciding(main, 1))
    ensures AggregateStep(Reaping(main, snap, Deciding(main, 1)), 1, 200) == Reaping(main, snap, Swapping(main, Failed, false))
  {
    assert AggregateStep(Reaping(main, snap, Begin), 1, 200).calls == Reaping(main, snap, Deciding(main, 1)).calls;
    assert AggregateStep(Reaping(main, snap, Deciding(main, 1)), 1, 200).calls
        == Reaping(main, snap, Swapping(main, Failed, false)).calls;
  }

  function FailedMain(main: MainTask): MainTask {
    main.(status := Failed, version := main.version + 1, updatedAt := 200)
  }

  lemma ReapingEnds(main: MainTask, snap: MainTask)
    requires main.status == Running
    ensures AggregateStep(Reaping(main, snap, Swapping(main, Failed, false)), 1, 200)
         == Straggling(FailedMain(main), {1}, map[0 := FirstCall(Counted(snap))], 2, {1})
  {
    assert AggregateStep(Reaping(main, snap, Swapping(main, Failed, false)), 1, 200).calls == map[0 := FirstCall(Counted(snap))];
  }

  /** The user counts are brought up to date and the reaper closes the campaign as failed, rightly. */
  lemma Reaped(main: MainTask, snap: MainTask)
    requires Reached(Straggling(main, {1}, map[0 := FirstCall(Counted(snap))], 1, {1}), true)
    requires main.status == Running && main.subTotal == 1 && main.subDone == 1 && main.owner == "" && main.updatedAt == 100
    requires main.successCount == 0 && main.failCount == 0
    ensures Reached(Straggling(FailedMain(main.(failCount := 1)), {1}, map[0 := FirstCall(Counted(snap))], 2, {1}), true)
  {
    var synced := main.(failCount := 1);
    Writing(Straggling(main, {1}, map[0 := FirstCall(Counted(snap))], 1, {1}), true, SyncUsers(0, 1, 100));
    Beginning(Straggling(synced, {1}, map[0 := FirstCall(Counted(snap))], 1, {1}), true, Reap(60, 200));
    assert ReapStep(Straggling(synced, {1}, map[0 := FirstCall(Counted(snap))], 1, {1}), 60, 200).calls
        == Reaping(synced, snap, Begin).calls;
    ReapingSteps(synced, snap);
    ReapingEnds(synced, snap);
    Aggregating(Reaping(synced, snap, Begin), true, 1, 200);
    Aggregating(Reaping(synced, snap, Deciding(synced, 1)), true, 1, 200);
    Aggregating(Reaping(synced, snap, Swapping(synced, Failed, false)), true, 1, 200);
  }

  // ---- the Retry ----

  /** The campaign retried: its row waits to be sent again, nothing is counted, and `calls` are of the time before. */
  predicate Reopened(s: Sys, version: int, calls: map<nat, Call>) {
    && s.calls == calls && s.earlier == calls.Keys && s.splits == map[] && (forall c :: c in calls ==> c < s.nextCall)
    && s.Main().status == Running && s.Main().owner == "" && s.Main().version == version
    && s.Main().subTotal == 1 && s.Main().subDone == 0
    && s.store.redis == NO_COUNTERS
    && s.Subs() == map[1 := U.(retries := 1)]
  }

  /** A failed campaign of one failed row, as a Retry finds it. */
  predicate Retryable(s: Sys, version: int) {
    && s.store.db == Db(s.Main(), map[1 := U_FAILED], 2) && s.splits == map[] && (forall c :: c in s.calls ==> c < s.nextCall)
    && s.Main().status == Failed && s.Main().owner == "" && s.Main().version == version && s.Main().subTotal == 1
  }

  lemma RetryResets(db: Db)
    requires db == Db(db.main, map[1 := U_FAILED], 2)
    ensures |IdsIn(db.subs, {Failed})| == 1 && NewShards(db, [], 1) == []
    ensures db.ResetFailed().CreateSubTasks([]).subs == map[1 := U.(retries := 1)] && DoneIds(map[1 := U.(retries := 1)]) == {}
  {
    assert IdsIn(db.subs, {Failed}) == {1};
    assert db.ResetFailed().subs == map[1 := U.(retries := 1)];
    assert NewIds(2, 0) == {};
    assert ExtraUsers([], UsersOf(db.subs, IdsIn(db.subs, {Failed}))) == [];
  }

  lemma RetryReopens(s: Sys, version: int)
    requires Retryable(s, version) && forall c :: c in s.calls ==> s.calls[c].sub.Some?
    ensures Reopened(RetryStep(SMALL, s, [], None, 200), version + 2, s.calls)
  {
    RetryResets(s.store.db);
    assert (set c | c in s.calls && !Unread(s.calls[c])) == s.calls.Keys;
  }

  /** Its one row is open again. */
  lemma OneRowOpen()
    ensures OpenRows(map[1 := U.(retries := 1)]) == 1
  {
    assert FinishedIds(map[1 := U.(retries := 1)]) == {};
  }

  lemma Retried(s: Sys, version: int, quiet: bool) returns (s': Sys)
    requires Reached(s, quiet) && Retryable(s, version)
    requires forall c :: c in s.calls ==> s.calls[c].sub.Some? && (quiet ==> !Stragglers.Live(s.calls[c], 1))
    ensures Reached(s', quiet) && Reopened(s', version + 2, s.calls)
  {
    s' := RetryStep(SMALL, s, [], None, 200);
    RetryReopens(s, version);
    if quiet { RetryIsQuiet(s, s'); }
    Retrying(s, quiet, s');
  }

  lemma RetryIsQuiet(s: Sys, s': Sys)
    requires s' == RetryStep(SMALL, s, [], None, 200) && s'.Subs() == map[1 := U.(retries := 1)]
    requires forall c :: c in s.calls ==> !Stragglers.Live(s.calls[c], 1)
    ensures SafeRetries.NoneLive(s, s'.store)
  {
    OneRowOpen();
  }

  lemma NextIsRetry(s: Sys)
    ensures Next(SMALL, s, RetryCampaign([], None, 200)) == RetryStep(SMALL, s, [], None, 200)
  {
  }

  lemma Retrying(s: Sys, quiet: bool, s': Sys)
    requires Reached(s, quiet) && s' == RetryStep(SMALL, s, [], None, 200) && (quiet ==> SafeRetries.NoneLive(s, s'.store))
    ensures Reached(s', quiet)
  {
    NextIsRetry(s);
    Advance(s, quiet, RetryCampaign([], None, 200));
  }

  lemma ReopenedIsReset(s: Sys, version: int, calls: map<nat, Call>)
    requires Reopened(s, version, calls)
    ensures RetryFaults.Reset(s) && RetryFaults.FreshRows(s.Subs()) && RetryFaults.Open(s) == {1}
  {
    assert FinishedIds(s.Subs()) == {};
    assert RetryFaults.Open(s) == {1};
  }

  // ---- a straggler closes the campaign again ----

  /** The retried campaign with the straggler at `pc` after its Redis increment. */
  predicate Outlived(s: Sys, db: Db, pc: Pc) {
    s.store == Store(db, Counters(0, 1, 1, {})) && 0 in s.calls && s.calls[0] == FirstCall(pc)
  }

  lemma StragglerDecides(s: Sys)
    requires 0 in s.calls && s.calls[0] == FirstCall(Counted(SEALED)) && s.store.redis == NO_COUNTERS
    ensures Outlived(AggregateStep(s, 0, 300), s.store.db, Deciding(SEALED, 1))
  {
    StragglerCounts(s.store);
    CallSettles(s, 0, 300);
  }

  lemma StragglerCounts(st: Store)
    requires st.redis == NO_COUNTERS
    ensures CallStep(st, FirstCall(Counted(SEALED)), 300)
         == Goto(Store(st.db, Counters(0, 1, 1, {})), FirstCall(Counted(SEALED)), Deciding(SEALED, 1))
  {
  }

  /** Where the straggler stands after `i` more calls. */
  predicate Stage(s: Sys, db: Db, i: int) {
    if i == 0 then Outlived(s, db, Deciding(SEALED, 1))
    else if i == 1 then Outlived(s, db, Swapping(SEALED, Failed, true))
    else if i == 2 then Outlived(s, db, Rereading(Failed, true))
    else if i == 3 then Outlived(s, db, SwappingAgain(db.main, Failed, true))
    else s.Main().status == Failed && s.Subs() == db.subs
  }

  lemma StragglerGoesOn(s: Sys, db: Db, i: int)
    requires db.main.status == Running && db.main.version == 3 && 0 <= i < 4 && Stage(s, db, i)
    ensures Stage(AggregateStep(s, 0, 300), db, i + 1)
  {
    CallSettles(s, 0, 300);
    StragglerCalls(s.store, s.calls[0], db, i);
  }

  lemma StragglerCalls(st: Store, call: Call, db: Db, i: int)
    requires db.main.status == Running && db.main.version == 3 && 0 <= i < 4 && st == Store(db, Counters(0, 1, 1, {}))
    requires call == FirstCall(if i == 0 then Deciding(SEALED, 1) else if i == 1 then Swapping(SEALED, Failed, true)
                               else if i == 2 then Rereading(Failed, true) else SwappingAgain(db.main, Failed, true))
    ensures var a := CallStep(st, call, 300);
      if i == 0 then a == Goto(st, call, Swapping(SEALED, Failed, true))
      else if i == 1 then a == Goto(st, call, Rereading(Failed, true))
      else if i == 2 then a == Goto(st, call, SwappingAgain(db.main, Failed, true))
      else a.store.db.main.status == Failed && a.store.db.subs == db.subs
  {
  }

  lemma StragglerSwaps(s: Sys, db: Db) returns (s': Sys)
    requires Stage(s, db, 0) && Reached(s, false)
    requires db.main.status == Running && db.main.version == 3
    ensures Reached(s', false) && Stage(s', db, 4)
  {
    s' := s;
    for i := 0 to 4
      invariant Reached(s', false) && Stage(s', db, i)
    {
      StragglerGoesOn(s', db, i);
      Aggregating(s', false, 0, 300);
      s' := AggregateStep(s', 0, 300);
    }
  }

  /** With nothing failing: a call that had counted its row in the database, but not yet in Redis, outlives a Retry. Its
      count and its second compare-and-swap close the retried campaign while the only row still waits to be sent.
      `RetryFaults.RetrySafeIff` says exactly which calls can do so. */
  lemma StragglerRun() returns (steps: seq<Step>)
    ensures var s := After(SMALL, Init(), steps);
      RetryFaults.NothingFails(steps) && s.Main().status == Failed && s.Subs() == map[1 := U.(retries := 1)]
  {
    SealedReached();
    Claiming(map[]);
    Reporting(SEALED);
    Counting(SEALED);
    Reaped(SEALED.(subDone := 1), SEALED);
    var s := Straggling(FailedMain(SEALED.(subDone := 1, failCount := 1)), {1}, map[0 := FirstCall(Counted(SEALED))], 2, {1});
    AnyRoute(s);
    var s1 := Retried(s, 1, false);
    StragglerDecides(s1);
    Aggregating(s1, false, 0, 300);
    var s2 := StragglerSwaps(AggregateStep(s1, 0, 300), s1.store.db);
    steps :| Leads(steps, s2, false);
  }

  lemma AnyRoute(s: Sys)
    requires Reached(s, true)
    ensures Reached(s, false)
  {
    var steps :| Leads(steps, s, true);
    assert Leads(steps, s, false);
  }

  // ---- going on after a quiet Retry ----

  lemma {:induction false} AfterConcat(s: Sys, before: seq<Step>, more: seq<Step>)
    requires QuietRun(SMALL, before) && RetryFaults.NoRetry(more) && After(SMALL, Init(), before) == s
    ensures After(SMALL, Init(), before + more) == After(SMALL, s, more) && QuietRun(SMALL, before + more)
  {
    if more == [] {
      assert before + more == before;
    } else {
      var n := |more| - 1;
      AfterConcat(s, before, more[..n]);
      assert (before + more)[..|before + more| - 1] == before + more[..n];
    }
  }

  /** What a continuation in which nothing fails leads to is reached. */
  lemma Continued(s: Sys, s': Sys)
    requires Reached(s, true) && RetryFaults.Leads(SMALL, s, s')
    ensures Reached(s', true)
  {
    var steps :| Leads(steps, s, true);
    var more :| RetryFaults.AllSmooth(more) && After(SMALL, s, more) == s';
    AfterConcat(s, steps, more);
    assert Leads(steps + more, s', true);
  }

  // ---- a mark left over a Retry keeps a row from being counted ----

  const FAILED_EARLY := FailedMain(SEALED).(updatedAt := 100)

  /** The stale exit of worker "a" fails the campaign before its row is reported; the report reads that. */
  lemma LateReport()
    ensures Reached(Straggling(FAILED_EARLY, {}, map[0 := FirstCall(Loaded(FAILED_EARLY))], 1, {}), true)
  {
    SealedBeside();
    Claiming(map["a" := IDLE]);
    StaleExit();
    Reporting(FAILED_EARLY);
    LoadingStep(FAILED_EARLY);
    Aggregating(Straggling(FAILED_EARLY, {}, map[0 := FirstCall(Begin)], 1, {}), true, 0, 100);
  }

  lemma StaleExit()
    requires Reached(Campaign(SEALED, map[1 := U_CLAIMED], 2, map["a" := IDLE]), true)
    ensures Reached(Campaign(FAILED_EARLY, map[1 := U_CLAIMED], 2, map[]), true)
  {
    var s := Campaign(SEALED, map[1 := U_CLAIMED], 2, map["a" := IDLE]);
    Splitting(s, true, FailSplit("a", 100));
    StaleExitDb();
    assert s.splits - {"a"} == map[];
    assert SplitFailed(s.Work(), "a", 100) == SplitWork(Db(FAILED_EARLY, map[1 := U_CLAIMED], 2), map[]);
  }

  lemma StaleExitDb()
    ensures FailSplitDb(Db(SEALED, map[1 := U_CLAIMED], 2), 0, "a", 100) == Db(FAILED_EARLY, map[1 := U_CLAIMED], 2)
  {
  }

  lemma LateMark(s: Sys)
    requires Reopened(s, 3, map[0 := FirstCall(Loaded(FAILED_EARLY))])
    ensures var s' := AggregateStep(s, 0, 0);
      LostCounts.Blocked(s', 1) && s'.Main() == s.Main() && s'.splits == map[]
  {
    ReopenedIsReset(s, 3, map[0 := FirstCall(Loaded(FAILED_EARLY))]);
    LostCounts.EndsAtOnce(s, 0);
    MarkedBlocks(s, AggregateStep(s, 0, 0));
  }

  lemma MarkedBlocks(s: Sys, s': Sys)
    requires Reopened(s, 3, map[0 := FirstCall(Loaded(FAILED_EARLY))]) && LostCounts.Ended(s, s', 0)
    requires RetryFaults.Reset(s) && RetryFaults.Open(s) == {1}
    ensures LostCounts.Blocked(s', 1) && s'.Main() == s.Main() && s'.splits == map[]
  {
    assert s'.calls == map[];
    assert RetryFaults.Open(s') == RetryFaults.Open(s);
  }

  /** With nothing failing and no Retry overtaking a live call: the report of a row reads that the campaign has failed and
      marks the row only after the Retry. The row is sent again and its report finds the mark. The campaign then runs
      with its only row a success, none counted of one, and no cancellation aside it does so for good
      (`LostCounts.StuckForGood`). `LostCounts.CountsSafeIff` says exactly which calls can do so. */
  lemma LostMarkRun() returns (steps: seq<Step>)
    ensures var s := After(SMALL, Init(), steps);
      && RetryFaults.NothingFails(steps) && QuietRun(SMALL, steps) && CampaignRuns.LastQuiet(SMALL, steps)
      && s.Main().status == Running && 1 in s.Subs() && |s.Subs()| == 1 && s.Subs()[1].status == Success
      && s.Main().subTotal == 1 && s.Main().subDone == 0 && LostCounts.Stuck(s)
  {
    LateReport();
    var s := Straggling(FAILED_EARLY, {}, map[0 := FirstCall(Loaded(FAILED_EARLY))], 1, {});
    var s1 := Retried(s, 1, true);
    var s2 := LateMarkSticks(s1);
    Continued(s1, s2);
    steps :| Leads(steps, s2, true);
    QuietToTheLast(SMALL, steps);
  }

  lemma LateMarkSticks(s: Sys) returns (s': Sys)
    requires Reopened(s, 3, map[0 := FirstCall(Loaded(FAILED_EARLY))])
    ensures RetryFaults.Leads(SMALL, s, s') && LostCounts.Stuck(s')
    ensures s'.Main().status == Running && 1 in s'.Subs() && s'.Subs()[1].status == Success
    ensures s'.Main().subTotal == 1 && s'.Main().subDone == 0
  {
    LateMark(s);
    RetryFaults.LeadsHere(SMALL, s);
    RetryFaults.AggregateOn(SMALL, s, s, 0, 0);
    s' := LostCounts.BlockedSticks(SMALL, s, AggregateStep(s, 0, 0), 1);
  }

  // ---- a count left over a Retry spoils the verdict ----

  const PAUSED := SEALED.(status := Paused, version := 1)
  const RESUMED := SEALED.(version := 2, subDone := 1)

  /** The row is reported while the campaign is paused; after the resumption the reaper closes it as failed. */
  lemma PausedReport()
    ensures Reached(Straggling(FailedMain(RESUMED.(failCount := 1)), {1}, map[0 := FirstCall(Counted(PAUSED))], 2, {1}), true)
  {
    SealedReached();
    Claiming(map[]);
    Pausing();
    Reporting(PAUSED);
    Counting(PAUSED);
    Resuming();
    Reaped(RESUMED, PAUSED);
  }

  lemma Pausing()
    requires Reached(Campaign(SEALED, map[1 := U_CLAIMED], 2, map[]), true)
    ensures Reached(Campaign(PAUSED, map[1 := U_CLAIMED], 2, map[]), true)
  {
    assert Db(SEALED, map[1 := U_CLAIMED], 2).PauseMain(100).db == Db(PAUSED, map[1 := U_CLAIMED], 2);
    Writing(Campaign(SEALED, map[1 := U_CLAIMED], 2, map[]), true, Pause(100));
  }

  lemma Resuming()
    requires Reached(Straggling(PAUSED.(subDone := 1), {1}, map[0 := FirstCall(Counted(PAUSED))], 1, {1}), true)
    ensures Reached(Straggling(RESUMED, {1}, map[0 := FirstCall(Counted(PAUSED))], 1, {1}), true)
  {
    Writing(Straggling(PAUSED.(subDone := 1), {1}, map[0 := FirstCall(Counted(PAUSED))], 1, {1}), true, Resume(100));
  }

  lemma LateCount(s: Sys, s': Sys)
    requires Reopened(s, 5, map[0 := FirstCall(Counted(PAUSED))])
    requires s' == s.(store := s.store.(redis := s.store.redis.IncrSubDone(0, 1)), calls := s.calls - {0})
    ensures SpoiledSums.Spoilt(s', 1) && s'.Subs().Keys == {1} && s'.store.redis == Counters(0, 1, 1, {})
  {
    ReopenedIsReset(s, 5, map[0 := FirstCall(Counted(PAUSED))]);
    SpoiledSums.CountedSpoils(s, s', 0, 1);
  }

  /** With nothing failing and no Retry overtaking a live call: a row's failure is reported while the campaign is paused and
      its call counts it in Redis only after the Retry. The row is sent again, with success, and counted in the database;
      then the reaper finds the count in Redis full and closes the campaign as failed, though its only row is a success.
      `SpoiledSums.VerdictSafeIff` says exactly which calls can do so. */
  lemma MisjudgedRun() returns (steps: seq<Step>)
    ensures var s := After(SMALL, Init(), steps);
      && RetryFaults.NothingFails(steps) && QuietRun(SMALL, steps) && CampaignRuns.LastQuiet(SMALL, steps)
      && s.Main().status == Failed && s.Subs().Keys == {1} && s.Subs()[1].status == Success
  {
    PausedReport();
    var s := Straggling(FailedMain(RESUMED.(failCount := 1)), {1}, map[0 := FirstCall(Counted(PAUSED))], 2, {1});
    var s1 := Retried(s, 3, true);
    var s2 := LateCountMisjudges(s1);
    Continued(s1, s2);
    steps :| Leads(steps, s2, true);
    QuietToTheLast(SMALL, steps);
  }

  lemma LateCountMisjudges(s: Sys) returns (s': Sys)
    requires Reopened(s, 5, map[0 := FirstCall(Counted(PAUSED))])
    ensures RetryFaults.Leads(SMALL, s, s')
    ensures s'.Main().status == Failed && s'.Subs().Keys == {1} && s'.Subs()[1].status == Success
  {
    var s1 := LateCounts(s);
    var s2 := SpoiledSums.SpoiltMisleads(SMALL, s, s1, 1);
    s' := ReaperFails(s, s2);
  }

  lemma LateCounts(s: Sys) returns (s': Sys)
    requires Reopened(s, 5, map[0 := FirstCall(Counted(PAUSED))])
    ensures RetryFaults.Leads(SMALL, s, s') && SpoiledSums.Spoilt(s', 1) && s'.Subs().Keys == {1}
    ensures s'.store.redis == Counters(0, 1, 1, {})
  {
    s' := s.(store := s.store.(redis := s.store.redis.IncrSubDone(0, 1)), calls := s.calls - {0});
    SpoiledSums.CountsAndEnds(s, 0);
    RetryFaults.LeadsHere(SMALL, s);
    RetryFaults.AggregateOn(SMALL, s, s, 0, 0);
    LateCount(s, s');
  }

  lemma ReaperFails(r: Sys, s: Sys) returns (s': Sys)
    requires RetryFaults.Leads(SMALL, r, s) && SpoiledSums.Misled(s, 1) && s.store.redis.success == 0 && s.store.redis.fail == 1
    ensures RetryFaults.Leads(SMALL, r, s') && s'.Main().status == Failed && s'.Subs() == s.Subs()
  {
    var s1 := SpoiledSums.ReaperComes(SMALL, r, s, 1);
    SpoiledSums.ReaperCloses(s1, s.nextCall, 0, Failed);
    RetryFaults.AggregateOn(SMALL, r, s1, s.nextCall, 0);
    s' := AggregateStep(s1, s.nextCall, 0);
  }
}
