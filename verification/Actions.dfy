/** What each action on a campaign or on one of its rows does, and when it does nothing: the diagram of statuses, and the
    lease of a split over whole runs. */
module Actions {
  import opened Status
  import opened TaskRows
  import opened Aggregation
  import opened Audience
  import opened Protocol

  // ---- the diagram ----

  /** The status an operator's action or the start of a split takes a campaign to, if it applies to it. */
  predicate Applies(step: Step, from: TaskStatus) {
    match step
    case Publish(_) => from == Draft
    case Pause(_) => from in {Pending, Running, Retrying}
    case Resume(_) => from == Paused
    case Cancel(_) => from in {Pending, Running, Paused, Retrying}
    case _ => false
  }

  predicate Reaches(step: Step, m: MainTask, to: TaskStatus) {
    match step
    case Publish(_) => to == Pending
    case Pause(_) => to == Paused
    case Resume(_) => to == if m.subTotal > 0 then Running else Pending
    case Cancel(_) => to == Cancelled
    case _ => false
  }

  /** All but status, version and time of the row. */
  predicate SameWork(m: MainTask, m': MainTask) {
    && m'.owner == m.owner && m'.leaseAt == m.leaseAt && m'.subTotal == m.subTotal && m'.subDone == m.subDone
    && m'.totalCount == m.totalCount && m'.successCount == m.successCount && m'.failCount == m.failCount
  }

  predicate Open(row: SubTask) {
    row.status in {Pending, Running, Retrying}
  }

  /** Cancelling closes the open rows and leaves the others; nothing else about a row changes. */
  predicate OpenRowsClosed(subs: map<nat, SubTask>, subs': map<nat, SubTask>) {
    && subs'.Keys == subs.Keys
    && forall id :: id in subs ==>
         && subs'[id].status == (if Open(subs[id]) then Cancelled else subs[id].status)
         && subs'[id] == subs[id].(status := subs'[id].status)
  }

  /** An operator's action takes effect exactly on the statuses it applies to; all but a publication raise the version. */
  lemma OperatorActs(cfg: Config, s: Sys, step: Step)
    requires step.Publish? || step.Pause? || step.Resume? || step.Cancel?
    ensures var s' := Next(cfg, s, step);
      if Applies(step, s.Main().status) then
        && Reaches(step, s.Main(), s'.Main().status) && SameWork(s.Main(), s'.Main())
        && s'.Main().version == s.Main().version + (if step.Publish? then 0 else 1)
        && (if step.Cancel? then OpenRowsClosed(s.Subs(), s'.Subs()) else s'.Subs() == s.Subs())
      else s' == s
  {
  }

  /** Counts are added in any case. A final status is written only over the version it was decided on, and over none that
      is final or paused; running only over pending, running or retrying; no other status is. */
  lemma StatsAct(db: Db, version: int, success: int, fail: int, subDone: int, status: TaskStatus, now: int)
    ensures var r := db.UpdateMainStats(version, success, fail, subDone, status, now);
      var m, m' := db.main, r.db.main;
      && r.db.subs == db.subs
      && m'.successCount == m.successCount + success && m'.failCount == m.failCount + fail && m'.subDone == m.subDone + subDone
      && (if status in {Success, Partial, Failed, Cancelled} then
            && (r.ok <==> m.version == version && m.status in {Draft, Pending, Running, Retrying})
            && m'.status == (if r.ok then status else m.status) && m'.version == (if r.ok then version + 1 else m.version)
          else
            && r.ok && m'.version == m.version
            && m'.status == if status == Running && m.status in {Pending, Running, Retrying} then Running else m.status)
  {
  }

  // ---- rows ----

  /** The row under `id` is the one given, and all others are as before. */
  predicate OnlyRow(s: Sys, s': Sys, id: nat, row: SubTask) {
    && s'.Main() == s.Main() && s'.Subs().Keys == s.Subs().Keys && id in s.Subs() && s'.Subs()[id] == row
    && forall k :: k in s.Subs() && k != id ==> s'.Subs()[k] == s.Subs()[k]
  }

  /** A release takes a running row back, whoever claimed it; a renewal is for the worker who holds it. */
  lemma RowActs(cfg: Config, s: Sys, step: Step, id: nat)
    requires (step.Release? || step.RenewClaim?) && step.id == id
    ensures var s' := Next(cfg, s, step);
      if id in s.Subs() && s.Subs()[id].status == Running && (step.RenewClaim? ==> s.Subs()[id].worker == step.worker)
      then OnlyRow(s, s', id, if step.Release? then s.Subs()[id].(status := Pending, worker := "", claimedAt := None)
                              else s.Subs()[id].(claimedAt := Some(step.now)))
      else s' == s
  {
  }

  /** A result is taken from the worker a row was last claimed by, as long as the row is running or to be sent again, and
      exactly then, unless the row was only cancelled, an aggregator call begins. */
  lemma ReportActs(cfg: Config, s: Sys, step: Step, id: nat)
    requires step.Report? && step.id == id && id in s.Subs()
    requires Reportable(s.Main(), s.Subs()[id], step.success, step.fail, step.status)
    ensures var s', row := Next(cfg, s, step), s.Subs()[id];
      if row.worker == step.worker && row.status in {Running, Retrying} then
        && OnlyRow(s, s', id, row.(success := step.success, fail := step.fail, status := step.status))
        && (if step.status == Cancelled then s'.calls == s.calls
            else s'.calls == s.calls[s.nextCall := Call(Some(id), step.success, step.fail, Begin)])
      else s' == s
  {
    assert Next(cfg, s, step) == BeginMoves(s, step);
    ReportWrites(s, step, id);
  }

  lemma ReportWrites(s: Sys, step: Step, id: nat)
    requires step.Report? && step.id == id && id in s.Subs()
    requires Reportable(s.Main(), s.Subs()[id], step.success, step.fail, step.status)
    ensures var s', row := BeginMoves(s, step), s.Subs()[id];
      if row.worker == step.worker && row.status in {Running, Retrying} then
        && s'.store.db == s.store.db.(subs := s.Subs()[id := row.(success := step.success, fail := step.fail, status := step.status)])
        && (if step.status == Cancelled then s'.calls == s.calls
            else s'.calls == s.calls[s.nextCall := Call(Some(id), step.success, step.fail, Begin)])
      else s' == s
  {
  }

  /** The reaper takes up a running campaign nobody is splitting whose rows were all counted a while ago. */
  lemma ReaperActs(cfg: Config, s: Sys, step: Step)
    requires step.Reap?
    ensures var s', m := Next(cfg, s, step), s.Main();
      if m.status == Running && m.owner == "" && 0 < m.subTotal <= m.subDone
         && step.now - m.updatedAt > (if step.staleSec > 0 then step.staleSec else 60)
      then s'.store == s.store && s'.calls == s.calls[s.nextCall := Call(None, 0, 0, Begin)]
      else s' == s
  {
  }

  // ---- the lease of a split ----

  predicate FreeName(s: Sys, owner: string) {
    owner != "" && owner !in s.splits
  }

  /** The step writes the lease: a start, a take-over of a lease that ran out, a renewal, or a page with users. */
  predicate WritesLease(cfg: Config, s: Sys, step: Step) {
    var m := s.Main();
    match step
    case StartSplit(owner, now) => m.status == Pending && FreeName(s, owner)
    case TakeOverSplit(owner, timeout, now) =>
      && m.status == Running && m.owner != "" && FreeName(s, owner)
      && (m.leaseAt.None? || now - m.leaseAt.value > (if timeout > 0 then timeout else 90))
    case RenewSplit(owner, now) => m.status == Running && m.owner == owner
    case WritePage(owner, users, now) =>
      && owner in s.splits && !s.splits[owner].failing && KeptIds(cfg.filter, users) != []
      && m.status == Running && m.owner == owner
    case _ => false
  }

  predicate SameLease(m: MainTask, m': MainTask) {
    m'.owner == m.owner && m'.leaseAt == m.leaseAt
  }

  predicate NoLease(m: MainTask) {
    m.owner == "" && m.leaseAt.None?
  }

  predicate LeaseOf(m: MainTask, owner: string, now: int) {
    m.owner == owner && m.leaseAt == Some(now)
  }

  lemma RowStepLease(cfg: Config, s: Sys, step: Step)
    requires IsRowStep(step)
    ensures var m' := RowMoves(s.store.db, step).main;
      if WritesLease(cfg, s, step) then LeaseOf(m', step.owner, step.now) else SameLease(s.Main(), m')
  {
  }

  lemma PageLease(cfg: Config, s: Sys, step: Step)
    requires step.WritePage? && "" !in s.splits
    ensures var m' := PageWritten(cfg, s.Work(), step.owner, step.users, step.now).db.main;
      if WritesLease(cfg, s, step) then LeaseOf(m', step.owner, step.now) else SameLease(s.Main(), m')
  {
  }

  lemma EndLease(cfg: Config, s: Sys, step: Step)
    requires step.FinishSplit? || step.FailSplit? || step.CrashSplit?
    ensures var m' := SplitMoves(cfg, s.Work(), step).db.main; SameLease(s.Main(), m') || NoLease(m')
  {
  }

  lemma BegunLease(cfg: Config, s: Sys, step: Step)
    requires step.StartSplit? || step.TakeOverSplit?
    ensures var m' := SplitMoves(cfg, s.Work(), step).db.main;
      if WritesLease(cfg, s, step) then LeaseOf(m', step.owner, step.now) else SameLease(s.Main(), m')
  {
  }

  lemma CallLease(st: Store, call: Call, now: int)
    ensures SameLease(st.db.main, CallStep(st, call, now).store.db.main)
  {
  }

  lemma CallsLease(s: Sys, step: Step)
    requires IsCallStep(step)
    ensures SameLease(s.Main(), CallMoves(s, step).Main())
  {
    if step.Aggregate? && step.call in s.calls { CallLease(s.store, s.calls[step.call], step.now); }
  }

  lemma RetryLease(cfg: Config, s: Sys, step: Step)
    requires step.RetryCampaign?
    ensures SameLease(s.Main(), RetryStep(cfg, s, step.pushFailed, step.outcomes, step.now).Main())
  {
  }

  /** Every step writes the lease, leaves it, or gives it up. */
  lemma LeaseMoves(cfg: Config, s: Sys, step: Step)
    requires "" !in s.splits
    ensures var m' := Next(cfg, s, step).Main();
      if WritesLease(cfg, s, step) then LeaseOf(m', step.owner, step.now) else SameLease(s.Main(), m') || NoLease(m')
  {
    if IsRowStep(step) {
      RowStepLease(cfg, s, step);
    } else if step.WritePage? {
      PageLease(cfg, s, step);
    } else if step.StartSplit? || step.TakeOverSplit? {
      BegunLease(cfg, s, step);
    } else if IsSplitStep(step) {
      EndLease(cfg, s, step);
    } else if IsCallStep(step) {
      CallsLease(s, step);
    } else if BeginsCall(step) {
    } else if step.RetryCampaign? {
      RetryLease(cfg, s, step);
    }
  }

  lemma NamesStay(cfg: Config, s: Sys, step: Step)
    requires "" !in s.splits
    ensures "" !in Next(cfg, s, step).splits
  {
    if IsSplitStep(step) {
      SplitNames(cfg, s.Work(), step);
    } else if step.RetryCampaign? {
      RetrySplits(cfg, s, step);
    }
  }

  lemma SplitNames(cfg: Config, w: SplitWork, step: Step)
    requires IsSplitStep(step) && "" !in w.splits
    ensures "" !in SplitMoves(cfg, w, step).splits
  {
  }

  lemma RetrySplits(cfg: Config, s: Sys, step: Step)
    requires step.RetryCampaign?
    ensures RetryStep(cfg, s, step.pushFailed, step.outcomes, step.now).splits == s.splits
  {
  }

  // ---- leases in runs ----

  lemma {:induction false} NoNameless(cfg: Config, steps: seq<Step>)
    ensures "" !in After(cfg, Init(), steps).splits
  {
    if steps != [] {
      NoNameless(cfg, steps[..|steps| - 1]);
      NamesStay(cfg, After(cfg, Init(), steps[..|steps| - 1]), steps[|steps| - 1]);
    }
  }

  ghost predicate WritesLeaseAt(cfg: Config, steps: seq<Step>, k: nat) {
    k < |steps| && WritesLease(cfg, After(cfg, Init(), steps[..k]), steps[k])
  }

  /** Step k is the last before step n that wrote the lease. */
  ghost predicate LastLease(cfg: Config, steps: seq<Step>, k: nat, n: nat) {
    k < n <= |steps| && WritesLeaseAt(cfg, steps, k) && forall j :: k < j < n ==> !WritesLeaseAt(cfg, steps, j)
  }

  ghost predicate LeaseAfter(cfg: Config, steps: seq<Step>, n: nat, owner: string, time: int)
    requires n <= |steps|
  {
    LeaseOf(After(cfg, Init(), steps[..n]).Main(), owner, time)
  }

  /** A campaign with a split owner bears the owner and the time of the last step that wrote the lease. */
  lemma {:induction false} LeaseSince(cfg: Config, steps: seq<Step>, n: nat) returns (k: nat)
    requires n <= |steps| && After(cfg, Init(), steps[..n]).Main().owner != ""
    ensures LastLease(cfg, steps, k, n) && LeaseAfter(cfg, steps, n, steps[k].owner, steps[k].now)
  {
    if n == 0 {
      assert false;
    } else {
      if WritesLeaseAt(cfg, steps, n - 1) {
        k := n - 1;
        LeaseWritten(cfg, steps, k);
      } else {
        LeaseLeft(cfg, steps, n - 1);
        k := LeaseSince(cfg, steps, n - 1);
      }
    }
  }

  lemma LeaseWritten(cfg: Config, steps: seq<Step>, k: nat)
    requires WritesLeaseAt(cfg, steps, k)
    ensures LeaseAfter(cfg, steps, k + 1, steps[k].owner, steps[k].now)
  {
    assert steps[..k + 1][..k] == steps[..k];
    NoNameless(cfg, steps[..k]);
    LeaseMoves(cfg, After(cfg, Init(), steps[..k]), steps[k]);
  }

  lemma LeaseLeft(cfg: Config, steps: seq<Step>, k: nat)
    requires k < |steps| && !WritesLeaseAt(cfg, steps, k) && After(cfg, Init(), steps[..k + 1]).Main().owner != ""
    ensures SameLease(After(cfg, Init(), steps[..k]).Main(), After(cfg, Init(), steps[..k + 1]).Main())
  {
    assert steps[..k + 1][..k] == steps[..k];
    NoNameless(cfg, steps[..k]);
    LeaseMoves(cfg, After(cfg, Init(), steps[..k]), steps[k]);
  }

  /** In every run: a split is taken over only more than the timeout after the last start, take-over, renewal or page of its
      owner. */
  lemma TakenOverLate(cfg: Config, steps: seq<Step>, step: Step) returns (k: nat)
    requires step.TakeOverSplit? && WritesLease(cfg, After(cfg, Init(), steps), step)
    ensures LastLease(cfg, steps, k, |steps|) && steps[k].owner == After(cfg, Init(), steps).Main().owner
    ensures step.now - steps[k].now > (if step.leaseTimeoutSec > 0 then step.leaseTimeoutSec else 90)
  {
    assert steps[..|steps|] == steps;
    k := LeaseSince(cfg, steps, |steps|);
  }

  /** And shards are written only by the owner of the lease: a page of anyone else ends that split with an error and leaves
      the campaign alone. */
  lemma OnlyOwnerWrites(cfg: Config, s: Sys, step: Step)
    requires step.WritePage? && "" !in s.splits && step.owner in s.splits && !s.splits[step.owner].failing
    requires KeptIds(cfg.filter, step.users) != []
    ensures var s' := Next(cfg, s, step);
      if WritesLease(cfg, s, step) then
        && s'.Subs() == s.Subs()[s.store.db.nextId := Shard(|s.splits[step.owner].shards|, KeptIds(cfg.filter, step.users))]
      else s'.store == s.store && s'.splits[step.owner].failing
  {
    var row := Shard(|s.splits[step.owner].shards|, KeptIds(cfg.filter, step.users));
    InsertedRow(s.store.db.RenewSplitLease(step.owner, step.now).db, row);
  }
}
