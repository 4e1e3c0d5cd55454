/** Who holds a row, over whole runs: when a row may be claimed, and how far apart two claims of it are. */
module Claims {
  import opened Status
  import opened TaskRows
  import opened Aggregation
  import opened Retry
  import opened Protocol
  import opened Invariant
  import opened AnyRun
  import opened CampaignTheorems
  import opened Targets

  /** A claim of row `id` that takes effect. */
  predicate Claims(s: Sys, step: Step, id: nat) {
    step.Claim? && step.id == id && s.store.db.ClaimSubTask(id, step.worker, step.now, step.claimTimeoutSec).ok
  }

  /** A claim or a renewal of row `id` that takes effect. */
  predicate Touches(s: Sys, step: Step, id: nat) {
    || Claims(s, step, id)
    || (step.RenewClaim? && step.id == id && s.store.db.RenewSubTaskClaim(id, step.worker, step.now).ok)
  }

  predicate IsRunning(s: Sys, id: nat) {
    id in s.Subs() && s.Subs()[id].status == Running
  }

  /** A claim takes effect exactly for a row of a running campaign nobody is splitting that waits to be sent, or is
      running and was last claimed or renewed more than the timeout ago; and then the row is the worker's from now on. */
  lemma ClaimsIff(cfg: Config, s: Sys, step: Step, id: nat)
    requires step.Claim? && step.id == id
    ensures Claims(s, step, id) <==>
      && id in s.Subs() && s.Main().status == Running && s.Main().owner == ""
      && (s.Subs()[id].status in {Pending, Retrying}
          || (IsRunning(s, id) && s.Subs()[id].claimedAt.Some? && step.now - s.Subs()[id].claimedAt.value > step.claimTimeoutSec))
    ensures Claims(s, step, id) ==> HeldBy(Next(cfg, s, step), id, step.worker, step.now)
    ensures !Claims(s, step, id) ==> Next(cfg, s, step) == s
  {
  }

  predicate HeldBy(s: Sys, id: nat, worker: string, now: int) {
    IsRunning(s, id) && s.Subs()[id].worker == worker && s.Subs()[id].claimedAt == Some(now)
  }

  /** In every run nothing is claimed before the split has finished. */
  lemma ClaimedAfterSplit(cfg: Config, steps: seq<Step>, step: Step, id: nat)
    requires Claims(After(cfg, Init(), steps), step, id)
    ensures var s := After(cfg, Init(), steps); s.Main().subTotal == |s.Subs()| > 0
  {
    TotalIsRowCount(cfg, steps);
    assert id in After(cfg, Init(), steps).Subs().Keys;
  }

  // ---- a row that stays running keeps the time of its last claim or renewal ----

  predicate SameTime(subs: map<nat, SubTask>, subs': map<nat, SubTask>, id: nat) {
    id in subs && id in subs' && subs'[id].status == Running && subs[id].status == Running ==> subs'[id].claimedAt == subs[id].claimedAt
  }

  lemma RowStepTime(s: Sys, step: Step, id: nat)
    requires IsRowStep(step) && !Touches(s, step, id)
    ensures SameTime(s.Subs(), RowMoves(s.store.db, step).subs, id)
  {
  }

  lemma PageTime(cfg: Config, w: SplitWork, step: Step, id: nat)
    requires step.WritePage? && id < w.db.nextId
    ensures SameTime(w.db.subs, PageWritten(cfg, w, step.owner, step.users, step.now).db.subs, id)
  {
    if id in w.db.subs { PageLeavesRow(cfg, w, step.owner, step.users, step.now, id); }
  }

  lemma SplitStepTime(cfg: Config, w: SplitWork, step: Step, id: nat)
    requires IsSplitStep(step) && id < w.db.nextId
    ensures SameTime(w.db.subs, SplitMoves(cfg, w, step).db.subs, id)
  {
    if step.WritePage? { PageTime(cfg, w, step, id); }
  }

  lemma CallTime(s: Sys, step: Step, id: nat)
    requires IsCallStep(step)
    ensures SameTime(s.Subs(), CallMoves(s, step).Subs(), id)
  {
    if step.Aggregate? { CallsLeaveRows(s, step.call, step.now); }
  }

  lemma BeginTime(s: Sys, step: Step, id: nat)
    requires BeginsCall(step)
    ensures SameTime(s.Subs(), BeginMoves(s, step).Subs(), id)
  {
  }

  lemma RetriedTime(cfg: Config, st: Store, step: Step, id: nat)
    requires step.RetryCampaign? && cfg.batchSize > 0 && (forall k :: k in st.db.subs ==> k < st.db.nextId)
    requires RetryMain(st, step.pushFailed, cfg.batchSize, step.outcomes, step.now).Retried?
    ensures SameTime(st.db.subs, RetryMain(st, step.pushFailed, cfg.batchSize, step.outcomes, step.now).store.db.subs, id)
  {
    RetryRows(st, step.pushFailed, cfg.batchSize, step.outcomes, step.now);
  }

  lemma RetryTime(cfg: Config, s: Sys, step: Step, id: nat)
    requires step.RetryCampaign? && RowsOk(s.store.db)
    ensures SameTime(s.Subs(), RetryStep(cfg, s, step.pushFailed, step.outcomes, step.now).Subs(), id)
  {
    if cfg.batchSize > 0 && RetryMain(s.store, step.pushFailed, cfg.batchSize, step.outcomes, step.now).Retried? {
      RetriedTime(cfg, s.store, step, id);
    }
  }

  lemma TimeStays(cfg: Config, s: Sys, step: Step, id: nat)
    requires RowsOk(s.store.db) && id in s.Subs() && !Touches(s, step, id)
    ensures SameTime(s.Subs(), Next(cfg, s, step).Subs(), id)
  {
    if IsRowStep(step) {
      RowStepTime(s, step, id);
    } else if IsSplitStep(step) {
      SplitStepTime(cfg, s.Work(), step, id);
    } else if IsCallStep(step) {
      CallTime(s, step, id);
    } else if BeginsCall(step) {
      BeginTime(s, step, id);
    } else if step.RetryCampaign? {
      RetryTime(cfg, s, step, id);
    }
  }

  // ---- two claims ----

  ghost predicate RunningAt(cfg: Config, steps: seq<Step>, k: nat, id: nat)
    requires k <= |steps|
  {
    IsRunning(After(cfg, Init(), steps[..k]), id)
  }

  ghost predicate ClaimsAt(cfg: Config, steps: seq<Step>, k: nat, id: nat) {
    k < |steps| && Claims(After(cfg, Init(), steps[..k]), steps[k], id)
  }

  ghost predicate TouchesAt(cfg: Config, steps: seq<Step>, k: nat, id: nat) {
    k < |steps| && Touches(After(cfg, Init(), steps[..k]), steps[k], id)
  }

  /** Step m is the last before step j that claimed or renewed row `id`, none earlier than step i being looked at. */
  ghost predicate LastTouch(cfg: Config, steps: seq<Step>, i: nat, m: nat, j: nat, id: nat) {
    i <= m < j <= |steps| && TouchesAt(cfg, steps, m, id) && forall n :: m < n < j ==> !TouchesAt(cfg, steps, n, id)
  }

  lemma TouchDates(cfg: Config, s: Sys, step: Step, id: nat)
    requires Touches(s, step, id)
    ensures IsRunning(Next(cfg, s, step), id) && Next(cfg, s, step).Subs()[id].claimedAt == Some(step.now)
  {
  }

  /** Row `id` is running after the first k steps and bears this time. */
  ghost predicate DatedAt(cfg: Config, steps: seq<Step>, k: nat, id: nat, time: int)
    requires k <= |steps|
  {
    var s := After(cfg, Init(), steps[..k]); IsRunning(s, id) && s.Subs()[id].claimedAt == Some(time)
  }

  lemma TouchedHere(cfg: Config, steps: seq<Step>, n: nat, id: nat)
    requires n < |steps| && TouchesAt(cfg, steps, n, id)
    ensures DatedAt(cfg, steps, n + 1, id, steps[n].now)
  {
    PrefixStep(cfg, steps, n);
    TouchDates(cfg, After(cfg, Init(), steps[..n]), steps[n], id);
  }

  lemma UntouchedHere(cfg: Config, steps: seq<Step>, n: nat, id: nat, time: int)
    requires n < |steps| && !TouchesAt(cfg, steps, n, id) && DatedAt(cfg, steps, n, id, time) && RunningAt(cfg, steps, n + 1, id)
    ensures DatedAt(cfg, steps, n + 1, id, time)
  {
    RowsAlways(cfg, steps[..n]);
    RowsOfErased(After(cfg, Init(), steps[..n]));
    StaysDated(cfg, After(cfg, Init(), steps[..n]), steps[n], id);
    PrefixStep(cfg, steps, n);
  }

  lemma StaysDated(cfg: Config, s: Sys, step: Step, id: nat)
    requires RowsOk(s.store.db) && IsRunning(s, id) && !Touches(s, step, id)
    ensures IsRunning(Next(cfg, s, step), id) ==> Next(cfg, s, step).Subs()[id].claimedAt == s.Subs()[id].claimedAt
  {
    TimeStays(cfg, s, step, id);
  }

  /** As long as the row has been running, it bears the time of the last claim or renewal. */
  lemma {:induction false} TimeOfLastTouch(cfg: Config, steps: seq<Step>, i: nat, j: nat, id: nat) returns (m: nat)
    requires i < j <= |steps| && ClaimsAt(cfg, steps, i, id)
    requires forall k :: i < k <= j ==> RunningAt(cfg, steps, k, id)
    ensures LastTouch(cfg, steps, i, m, j, id) && DatedAt(cfg, steps, j, id, steps[m].now)
  {
    var n := j - 1;
    if TouchesAt(cfg, steps, n, id) {
      m := n;
      TouchedHere(cfg, steps, n, id);
    } else {
      m := TimeOfLastTouch(cfg, steps, i, n, id);
      assert RunningAt(cfg, steps, j, id);
      UntouchedHere(cfg, steps, n, id, steps[m].now);
    }
  }

  /** In every run: between two claims of a row that take effect the row was not running at some moment, or the second
      comes more than its timeout after the last claim or renewal before it. */
  lemma ClaimsApart(cfg: Config, steps: seq<Step>, i: nat, j: nat, id: nat)
    requires i < j && ClaimsAt(cfg, steps, i, id) && ClaimsAt(cfg, steps, j, id)
    ensures || (exists k :: i < k <= j && !RunningAt(cfg, steps, k, id))
            || (exists m: nat :: LastTouch(cfg, steps, i, m, j, id) && steps[j].now - steps[m].now > steps[j].claimTimeoutSec)
  {
    if forall k :: i < k <= j ==> RunningAt(cfg, steps, k, id) {
      var m := TimeOfLastTouch(cfg, steps, i, j, id);
      ClaimsIff(cfg, After(cfg, Init(), steps[..j]), steps[j], id);
    }
  }
}
