/** The `version` column as a fence: what a final compare-and-swap that succeeds says about everything that
    happened since its snapshot, and which statuses are left by which steps. Nothing here needs the counting
    invariant: it holds of every run of the protocol from every state. */
module Fencing {
  import opened Status
  import opened TaskRows
  import opened Aggregation
  import opened Protocol

  /** A change the fence must see: pause, resume, cancel, reopen, counter sync or a final status. */
  ghost predicate Fences(cfg: Config, s: Sys, step: Step) {
    var s' := Next(cfg, s, step);
    || ((step.Pause? || step.Resume? || step.Cancel? || step.RetryCampaign?) && s'.Main() != s.Main())
    || (s'.Main().status.IsTerminal() && s'.Main().status != s.Main().status)
  }

  /** Main-row changes that leave the version alone may only start a campaign. */
  predicate Raised(m: MainTask, m': MainTask) {
    && m.version <= m'.version
    && (m.version == m'.version ==>
          m'.status == m.status || (m.status, m'.status) in {(Draft, Pending), (Pending, Running), (Retrying, Running)})
  }

  lemma StatementsRaise(db: Db, version: int, success: int, fail: int, subDone: int, status: TaskStatus, now: int)
    ensures Raised(db.main, db.UpdateMainStats(version, success, fail, subDone, status, now).db.main)
  {
  }

  lemma FailSplitRaises(db: Db, version: int, owner: string, now: int)
    ensures Raised(db.main, FailSplitDb(db, version, owner, now).main)
  {
    StatementsRaise(db, version, 0, 0, 0, Failed, now);
  }

  lemma CallRaises(st: Store, call: Call, now: int)
    ensures Raised(st.db.main, CallStep(st, call, now).store.db.main)
  {
    match call.pc
    case Marked(main) => StatementsRaise(st.db, main.version, 0, 0, 1, main.status, now);
    case Swapping(main, final, exact) => StatementsRaise(st.db, main.version, 0, 0, 0, final, now);
    case SwappingAgain(main, final, exact) => StatementsRaise(st.db, main.version, 0, 0, 0, final, now);
    case _ =>
  }

  lemma AggregateRaises(s: Sys, c: nat, now: int)
    ensures Raised(s.Main(), AggregateStep(s, c, now).Main())
  {
    if c in s.calls { CallRaises(s.store, s.calls[c], now); }
  }

  lemma RetryRaises(cfg: Config, s: Sys, pushFailed: seq<string>, outcomes: Option<(int, int)>, now: int)
    ensures var s' := RetryStep(cfg, s, pushFailed, outcomes, now);
      && Raised(s.Main(), s'.Main())
      && (s'.Main() != s.Main() ==> s.Main().version < s'.Main().version && s.Main().status.IsRetryable())
  {
  }

  lemma RowsRaise(db: Db, step: Step)
    requires IsRowStep(step)
    ensures Raised(db.main, RowMoves(db, step).main)
  {
  }

  lemma SplitRaises(cfg: Config, w: SplitWork, step: Step)
    requires IsSplitStep(step)
    ensures Raised(w.db.main, SplitMoves(cfg, w, step).db.main)
  {
    if step.owner in w.splits {
      match step
      case FailSplit(owner, now) => FailSplitRaises(w.db, w.splits[owner].version, owner, now);
      case FinishSplit(owner, now) => StatementsRaise(w.db, w.splits[owner].version, 0, 0, 0, Running, now);
      case _ =>
    }
  }

  lemma CallsRaise(s: Sys, step: Step)
    requires IsCallStep(step)
    ensures Raised(s.Main(), CallMoves(s, step).Main())
  {
    match step
    case Aggregate(c, now) => AggregateRaises(s, c, now);
    case _ =>
  }

  lemma BeginsLeaveMain(s: Sys, step: Step)
    requires BeginsCall(step)
    ensures BeginMoves(s, step).Main() == s.Main()
  {
  }

  lemma NextRaises(cfg: Config, s: Sys, step: Step)
    ensures Raised(s.Main(), Next(cfg, s, step).Main())
  {
    if IsRowStep(step) {
      RowsRaise(s.store.db, step);
    } else if IsSplitStep(step) {
      SplitRaises(cfg, s.Work(), step);
    } else if IsCallStep(step) {
      CallsRaise(s, step);
    } else if BeginsCall(step) {
      BeginsLeaveMain(s, step);
    } else if step.RetryCampaign? {
      RetryRaises(cfg, s, step.pushFailed, step.outcomes, step.now);
    }
  }

  lemma FencesRaise(cfg: Config, s: Sys, step: Step)
    requires Fences(cfg, s, step)
    ensures s.Main().version < Next(cfg, s, step).Main().version
  {
    NextRaises(cfg, s, step);
    if step.RetryCampaign? { RetryRaises(cfg, s, step.pushFailed, step.outcomes, step.now); }
  }

  // ---- runs ----

  lemma {:induction false} VersionGrows(cfg: Config, s: Sys, steps: seq<Step>, i: nat, j: nat)
    requires i <= j <= |steps|
    ensures After(cfg, s, steps[..i]).Main().version <= After(cfg, s, steps[..j]).Main().version
  {
    if i < j {
      VersionGrows(cfg, s, steps, i, j - 1);
      AfterOne(cfg, s, steps, j - 1);
      VersionUp(cfg, After(cfg, s, steps[..j - 1]), steps[j - 1], After(cfg, s, steps[..j]));
    }
  }

  lemma VersionUp(cfg: Config, s: Sys, step: Step, s': Sys)
    requires s' == Next(cfg, s, step)
    ensures s.Main().version <= s'.Main().version
  {
    NextRaises(cfg, s, step);
  }

  lemma AfterOne(cfg: Config, s: Sys, steps: seq<Step>, k: nat)
    requires k < |steps|
    ensures After(cfg, s, steps[..k + 1]) == Next(cfg, After(cfg, s, steps[..k]), steps[k])
  {
    assert steps[..k + 1][..k] == steps[..k];
  }

  lemma FenceBetween(cfg: Config, s: Sys, steps: seq<Step>, i: nat, k: nat, j: nat)
    requires i <= k < j <= |steps|
    ensures Fences(cfg, After(cfg, s, steps[..k]), steps[k]) ==>
              After(cfg, s, steps[..i]).Main().version < After(cfg, s, steps[..j]).Main().version
  {
    if Fences(cfg, After(cfg, s, steps[..k]), steps[k]) {
      VersionGrows(cfg, s, steps, i, k);
      FencesRaise(cfg, After(cfg, s, steps[..k]), steps[k]);
      AfterOne(cfg, s, steps, k);
      VersionGrows(cfg, s, steps, k + 1, j);
    }
  }

  lemma SwapTests(db: Db, version: int, final: TaskStatus, now: int)
    requires final.IsTerminal() && db.SetStatus(version, final, now).ok
    ensures db.main.version == version && db.main.status != Paused && !db.main.status.IsTerminal()
  {
  }

  /** The fencing theorem. A final status written by compare-and-swap on the version read at point i of a run
      takes effect at point j only if nothing the fence must see happened in between. */
  lemma SwapSeesNothing(cfg: Config, s: Sys, steps: seq<Step>, i: nat, j: nat, final: TaskStatus, now: int)
    requires i <= j <= |steps| && final.IsTerminal()
    requires var version := After(cfg, s, steps[..i]).Main().version;
      After(cfg, s, steps[..j]).store.db.SetStatus(version, final, now).ok
    ensures forall k :: i <= k < j ==> !Fences(cfg, After(cfg, s, steps[..k]), steps[k])
    ensures After(cfg, s, steps[..j]).Main().status != Paused && !After(cfg, s, steps[..j]).Main().status.IsTerminal()
  {
    SwapTests(After(cfg, s, steps[..j]).store.db, After(cfg, s, steps[..i]).Main().version, final, now);
    forall k | i <= k < j && Fences(cfg, After(cfg, s, steps[..k]), steps[k]) ensures false {
      FenceBetween(cfg, s, steps, i, k, j);
    }
  }

  /** The snapshot an aggregator call swaps on is the main row of the moment it was read. */
  lemma SnapshotIsRead(cfg: Config, s: Sys, c: nat, now: int)
    requires c in s.calls && (s.calls[c].pc.Begin? || s.calls[c].pc.Rereading?)
    ensures var s' := Next(cfg, s, Aggregate(c, now));
      && s'.Main() == s.Main()
      && (c in s'.calls ==> match s'.calls[c].pc
           case Loaded(main) => main == s.Main()
           case Deciding(main, _) => main == s.Main()
           case SwappingAgain(main, _, _) => main == s.Main()
           case _ => false)
  {
  }

  // ---- which steps leave which status ----

  /** How a main task may leave its status. */
  predicate Leaves(step: Step, from: TaskStatus, to: TaskStatus) {
    match from
    case Success => false
    case Cancelled => false
    case Paused => (step.Resume? && to in {Running, Pending}) || (step.Cancel? && to.Cancelled?)
    case Failed => step.RetryCampaign? && to.Running?
    case Partial => step.RetryCampaign? && to.Running?
    case _ => true
  }

  /** The statuses no split, worker or aggregator can leave. */
  predicate Settled(status: TaskStatus) {
    status in {Success, Cancelled, Paused, Failed, Partial}
  }

  lemma StatsLeaveSettled(db: Db, version: int, success: int, fail: int, subDone: int, status: TaskStatus, now: int)
    requires Settled(db.main.status)
    ensures db.UpdateMainStats(version, success, fail, subDone, status, now).db.main.status == db.main.status
  {
  }

  lemma CallLeavesSettled(st: Store, call: Call, now: int)
    requires Settled(st.db.main.status)
    ensures CallStep(st, call, now).store.db.main.status == st.db.main.status
  {
    match call.pc
    case Marked(main) => StatsLeaveSettled(st.db, main.version, 0, 0, 1, main.status, now);
    case Swapping(main, final, exact) => StatsLeaveSettled(st.db, main.version, 0, 0, 0, final, now);
    case SwappingAgain(main, final, exact) => StatsLeaveSettled(st.db, main.version, 0, 0, 0, final, now);
    case _ =>
  }

  lemma SplitLeavesSettled(cfg: Config, w: SplitWork, step: Step)
    requires Settled(w.db.main.status) && IsSplitStep(step)
    ensures SplitMoves(cfg, w, step).db.main.status == w.db.main.status
  {
    if step.owner in w.splits && (step.FinishSplit? || step.FailSplit?) {
      var version := w.splits[step.owner].version;
      StatsLeaveSettled(w.db, version, 0, 0, 0, if step.FinishSplit? then Running else Failed, step.now);
    }
  }

  lemma RowsLeave(db: Db, step: Step)
    requires IsRowStep(step) && RowMoves(db, step).main.status != db.main.status
    ensures Leaves(step, db.main.status, RowMoves(db, step).main.status)
  {
  }

  lemma CallsLeave(s: Sys, step: Step)
    requires IsCallStep(step) && Settled(s.Main().status)
    ensures CallMoves(s, step).Main().status == s.Main().status
  {
    match step
    case Aggregate(c, now) => if c in s.calls { CallLeavesSettled(s.store, s.calls[c], now); }
    case _ =>
  }

  lemma OnlyTheseLeave(cfg: Config, s: Sys, step: Step)
    requires Next(cfg, s, step).Main().status != s.Main().status
    ensures Leaves(step, s.Main().status, Next(cfg, s, step).Main().status)
  {
    if IsRowStep(step) {
      RowsLeave(s.store.db, step);
    } else if Settled(s.Main().status) {
      if IsSplitStep(step) {
        SplitLeavesSettled(cfg, s.Work(), step);
      } else if IsCallStep(step) {
        CallsLeave(s, step);
      } else if step.RetryCampaign? {
        RetryRaises(cfg, s, step.pushFailed, step.outcomes, step.now);
      }
    }
  }

  /** Success and cancelled are for ever. */
  lemma {:induction false} FinalForever(cfg: Config, s: Sys, steps: seq<Step>)
    requires s.Main().status in {Success, Cancelled}
    ensures After(cfg, s, steps).Main().status == s.Main().status
  {
    if steps != [] {
      var n := |steps| - 1;
      FinalForever(cfg, s, steps[..n]);
      var before := After(cfg, s, steps[..n]);
      if Next(cfg, before, steps[n]).Main().status != before.Main().status {
        OnlyTheseLeave(cfg, before, steps[n]);
      }
    }
  }

  /** A run that starts paused and does not end paused holds a Resume or a Cancel; one that starts failed or
      partial and ends otherwise holds a Retry. */
  lemma {:induction false} LeftOnlyBy(cfg: Config, s: Sys, steps: seq<Step>)
    requires s.Main().status in {Paused, Failed, Partial}
    requires After(cfg, s, steps).Main().status != s.Main().status
    ensures if s.Main().status == Paused
      then exists k :: 0 <= k < |steps| && (steps[k].Resume? || steps[k].Cancel?)
      else exists k :: 0 <= k < |steps| && steps[k].RetryCampaign?
  {
    if steps != [] {
      var n := |steps| - 1;
      var before := After(cfg, s, steps[..n]);
      if before.Main().status != s.Main().status {
        LeftOnlyBy(cfg, s, steps[..n]);
        assert forall k :: 0 <= k < n ==> steps[..n][k] == steps[k];
      } else {
        OnlyTheseLeave(cfg, before, steps[n]);
      }
    }
  }
}
