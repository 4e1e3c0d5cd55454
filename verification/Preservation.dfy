/** Operator and worker steps keep the invariant. */
module Preservation {
  import opened Status
  import opened SetSums
  import opened TaskRows
  import opened Protocol
  import opened Invariant

  /** A write of the main row that leaves owner and counters alone and never leaves a final status. */
  predicate OnlyMain(s: Sys, s': Sys) {
    && s' == s.WithDb(s'.store.db)
    && s'.Subs() == s.Subs() && s'.store.db.nextId == s.store.db.nextId
    && s'.Main().owner == s.Main().owner
    && s'.Main().subTotal == s.Main().subTotal && s'.Main().subDone == s.Main().subDone
    && (s.Main().status.IsTerminal() ==> s'.Main().status == s.Main().status)
  }

  lemma MainWrite(cfg: Config, s: Sys, s': Sys)
    requires Inv(cfg, s) && OnlyMain(s, s')
    requires PhaseOk(s')
    requires s'.Main().owner != "" && s'.Main().status == Running ==>
               s.Main().status == Running && s'.Main().version == s.Main().version
    ensures Inv(cfg, s')
  {
    forall c | c in s'.calls ensures PcOk(s', s'.calls[c]) && CallRowOk(s', s'.calls[c]) {
      assert PcOk(s, s.calls[c]) && CallRowOk(s, s.calls[c]);
    }
    forall w | w in s'.splits ensures SplitOk(cfg, s'.store.db, w, s'.splits[w]) {
      assert SplitOk(cfg, s.store.db, w, s.splits[w]);
    }
    assert RowsOk(s'.store.db);
  }

  predicate IsOperatorStep(step: Step) {
    step.Publish? || step.Pause? || step.Resume? || step.SyncUsers? || step.RenewSplit?
  }

  lemma OperatorMain(db: Db, step: Step)
    requires IsOperatorStep(step)
    ensures var main, main' := db.main, RowMoves(db, step).main;
      && RowMoves(db, step) == db.(main := main')
      && main' == main.(status := main'.status, version := main'.version, leaseAt := main'.leaseAt,
                        successCount := main'.successCount, failCount := main'.failCount, updatedAt := main'.updatedAt)
      && (main'.status != main.status ==>
            || (main.status, main'.status) == (Draft, Pending)
            || (main.status.IsPausable() && main'.status == Paused)
            || (main.status == Paused && main'.status == if main.subTotal > 0 then Running else Pending))
      && (main'.status == Running && main.status == Running ==> main'.version == main.version)
  {
  }

  lemma OperatorPhase(s: Sys, db: Db)
    requires PhaseOk(s) && db == s.store.db.(main := db.main)
    requires db.main.owner == s.Main().owner && db.main.subTotal == s.Main().subTotal
    requires db.main.status != s.Main().status ==>
      || (s.Main().status, db.main.status) == (Draft, Pending)
      || (s.Main().status.IsPausable() && db.main.status == Paused)
      || (s.Main().status == Paused && db.main.status == if s.Main().subTotal > 0 then Running else Pending)
    ensures PhaseOk(s.WithDb(db))
  {
    assert s.WithDb(db).Subs() == s.Subs();
  }

  lemma OperatorSteps(cfg: Config, s: Sys, step: Step)
    requires Inv(cfg, s) && IsOperatorStep(step)
    ensures Inv(cfg, s.WithDb(RowMoves(s.store.db, step)))
  {
    OperatorMain(s.store.db, step);
    OperatorPhase(s, RowMoves(s.store.db, step));
    MainWrite(cfg, s, s.WithDb(RowMoves(s.store.db, step)));
  }

  // ---- rows rewritten without touching what was counted ----

  /** Row `r` became `r'`: same users and number, and finished rows stay as they are. */
  predicate OpenRowChange(r: SubTask, r': SubTask) {
    && r'.shard == r.shard && r'.users == r.users
    && (r.status in {Success, Failed, Partial} || r'.status in {Success, Failed, Partial} ==> r' == r)
  }

  predicate OnlyOpenRows(subs: map<nat, SubTask>, subs': map<nat, SubTask>) {
    && subs'.Keys == subs.Keys
    && (forall id :: id in subs ==> OpenRowChange(subs[id], subs'[id]))
  }

  lemma OpenRowsKeepFinished(subs: map<nat, SubTask>, subs': map<nat, SubTask>)
    requires OnlyOpenRows(subs, subs')
    ensures FinishedIds(subs') == FinishedIds(subs)
    ensures FinishedIds(subs) == subs.Keys ==> subs' == subs
  {
    forall id ensures id in FinishedIds(subs') <==> id in FinishedIds(subs) {
      if id in subs { assert OpenRowChange(subs[id], subs'[id]); }
    }
    if FinishedIds(subs) == subs.Keys {
      forall id | id in subs ensures subs'[id] == subs[id] {
        assert id in FinishedIds(subs);
        assert OpenRowChange(subs[id], subs'[id]);
      }
    }
  }

  lemma OpenRowsKeepSums(subs: map<nat, SubTask>, subs': map<nat, SubTask>, ids: set<nat>)
    requires OnlyOpenRows(subs, subs') && ids <= FinishedIds(subs)
    ensures ids <= subs.Keys
    ensures Sum(ids, SuccessOf(subs')) == Sum(ids, SuccessOf(subs))
    ensures Sum(ids, FailOf(subs')) == Sum(ids, FailOf(subs))
  {
    forall id | id in ids ensures subs'[id] == subs[id] {
      assert OpenRowChange(subs[id], subs'[id]);
    }
    SumAgrees(ids, SuccessOf(subs'), SuccessOf(subs));
    SumAgrees(ids, FailOf(subs'), FailOf(subs));
  }

  /** What the calls and the counters look at is the same in both states. */
  predicate SameCounting(s: Sys, s': Sys) {
    && s'.calls == s.calls && s'.nextCall == s.nextCall
    && s'.dbCounted == s.dbCounted && s'.rdCounted == s.rdCounted && s'.clean == s.clean
    && s'.mixed == s.mixed && s'.spoiled == s.spoiled
    && s'.store.redis == s.store.redis
    && s'.Main().subTotal == s.Main().subTotal && s'.Main().subDone == s.Main().subDone
    && (s.Main().status.IsTerminal() ==> s'.Main().status.IsTerminal())
  }

  lemma OpenRowsKeepCalls(s: Sys, s': Sys)
    requires CallsOk(s) && SameCounting(s, s') && OnlyOpenRows(s.Subs(), s'.Subs())
    ensures CallsOk(s')
  {
    OpenRowsKeepFinished(s.Subs(), s'.Subs());
    forall c | c in s'.calls ensures PcOk(s', s'.calls[c]) && CallRowOk(s', s'.calls[c]) {
      assert PcOk(s, s.calls[c]) && CallRowOk(s, s.calls[c]);
      if BeforeRedis(s.calls[c]) {
        var id := s.calls[c].sub.value;
        assert OpenRowChange(s.Subs()[id], s'.Subs()[id]);
      }
    }
  }

  lemma OpenRowsKeepBlank(s: Sys, s': Sys)
    requires Blank(s) && OnlyOpenRows(s.Subs(), s'.Subs())
    ensures Blank(s')
  {
    var x: nat :| BlankBut(s.Subs(), x);
    OpenRowsKeepFinished(s.Subs(), s'.Subs());
    forall id | id in s'.Subs() && id != x
      ensures id in FinishedIds(s'.Subs()) && s'.Subs()[id].success == 0 && s'.Subs()[id].fail == 0
    {
      assert OpenRowChange(s.Subs()[id], s'.Subs()[id]);
    }
    assert BlankBut(s'.Subs(), x);
  }

  lemma OpenRowsKeepCounting(s: Sys, s': Sys)
    requires CountsOk(s) && SumsOk(s) && CallsOk(s) && Exact(s) && MixedOk(s)
    requires SameCounting(s, s') && OnlyOpenRows(s.Subs(), s'.Subs())
    ensures CountsOk(s') && SumsOk(s') && CallsOk(s') && Exact(s') && MixedOk(s')
  {
    OpenRowsKeepFinished(s.Subs(), s'.Subs());
    OpenRowsKeepSums(s.Subs(), s'.Subs(), s.rdCounted);
    OpenRowsKeepCalls(s, s');
    if s.mixed && !s.spoiled { OpenRowsKeepBlank(s, s'); }
  }

  lemma OpenRowsKeepSplit(cfg: Config, db: Db, db': Db, w: string, p: Split)
    requires SplitOk(cfg, db, w, p) && OnlyOpenRows(db.subs, db'.subs)
    requires db'.main.owner == db.main.owner && db'.main.subTotal == db.main.subTotal
    requires db'.main.owner == w && db'.main.status == Running ==>
               db.main.status == Running && db'.main.version == db.main.version
    ensures SplitOk(cfg, db', w, p)
  {
    forall i | 0 <= i < |p.ids| && p.ids[i] in db.subs ensures OpenRowChange(db.subs[p.ids[i]], db'.subs[p.ids[i]]) {}
  }

  lemma RowWrite(cfg: Config, s: Sys, s': Sys)
    requires Inv(cfg, s) && SameCounting(s, s') && s'.splits == s.splits && OnlyOpenRows(s.Subs(), s'.Subs())
    requires RowsOk(s'.store.db) && PhaseOk(s')
    requires s'.Main().owner == s.Main().owner
    requires s'.Main().status == Running ==> s.Main().status == Running && s'.Main().version == s.Main().version
    ensures Inv(cfg, s')
  {
    OpenRowsKeepCounting(s, s');
    forall w | w in s'.splits ensures SplitOk(cfg, s'.store.db, w, s'.splits[w]) {
      OpenRowsKeepSplit(cfg, s.store.db, s'.store.db, w, s.splits[w]);
    }
  }

  lemma CancelledRows(db: Db)
    requires RowsOk(db) && db.main.status == Cancelled
    ensures RowsOk(db.CancelUnfinished()) && OnlyOpenRows(db.subs, db.CancelUnfinished().subs)
    ensures forall id :: id in db.subs && db.subs[id].status in {Pending, Cancelled} ==>
              db.CancelUnfinished().subs[id].status == Cancelled
  {
    var db' := db.CancelUnfinished();
    forall id | id in db'.subs
      ensures id < db'.nextId && RowOk(db'.subs[id], db'.main) && OpenRowChange(db.subs[id], db'.subs[id])
    {
      assert RowOk(db.subs[id], db.main);
    }
  }

  lemma CancelMainRows(db: Db, now: int)
    requires RowsOk(db)
    ensures RowsOk(db.CancelMain(now).db)
  {
    forall id | id in db.subs ensures RowOk(db.subs[id], db.CancelMain(now).db.main) {
      assert RowOk(db.subs[id], db.main);
    }
  }

  lemma CancelKeeps(cfg: Config, s: Sys, now: int)
    requires Inv(cfg, s)
    ensures Inv(cfg, s.WithDb(CancelDb(s.store.db, now)))
  {
    var r := s.store.db.CancelMain(now);
    if r.ok {
      CancelMainRows(s.store.db, now);
      CancelledRows(r.db);
      CancelledPhase(s, r.db);
      RowWrite(cfg, s, s.WithDb(CancelDb(s.store.db, now)));
    }
  }

  lemma CancelledPhase(s: Sys, db: Db)
    requires PhaseOk(s) && db.subs == s.Subs() && db.main.status == Cancelled
    requires db.main.subTotal == s.Main().subTotal && db.main.owner == s.Main().owner
    requires OnlyOpenRows(db.subs, db.CancelUnfinished().subs)
    ensures PhaseOk(s.WithDb(db.CancelUnfinished()))
  {
    var subs' := db.CancelUnfinished().subs;
    assert subs'.Keys == s.Subs().Keys;
    assert |subs'| == |subs'.Keys| && |s.Subs()| == |s.Subs().Keys|;
  }

  /** Cancelling the rows of a campaign that is cancelled already. */
  lemma CancelAgain(cfg: Config, s: Sys)
    requires Inv(cfg, s) && s.Main().status == Cancelled
    ensures Inv(cfg, s.WithDb(s.store.db.CancelUnfinished()))
  {
    CancelledRows(s.store.db);
    CancelledPhase(s, s.store.db);
    RowWrite(cfg, s, s.WithDb(s.store.db.CancelUnfinished()));
  }

  function WithRow(s: Sys, id: nat, row: SubTask): Sys {
    s.WithDb(s.store.db.(subs := s.Subs()[id := row]))
  }

  /** One open row changed, after the split has finished. */
  lemma OneRowWrite(cfg: Config, s: Sys, id: nat, row: SubTask)
    requires Inv(cfg, s) && id in s.Subs() && s.Main().subTotal > 0
    requires OpenRowChange(s.Subs()[id], row) && RowOk(row, s.Main())
    ensures Inv(cfg, WithRow(s, id, row))
  {
    assert RowsOk(WithRow(s, id, row).store.db);
    assert s.Subs()[id := row].Keys == s.Subs().Keys;
    RowWrite(cfg, s, WithRow(s, id, row));
  }

  predicate IsWorkerStep(step: Step) {
    step.Claim? || step.Release? || step.RenewClaim?
  }

  /** Claiming, releasing and renewing only move a row between pending and running. */
  lemma WorkerRow(db: Db, step: Step)
    requires IsWorkerStep(step) && RowMoves(db, step) != db
    ensures step.id in db.subs && step.id in RowMoves(db, step).subs
    ensures var row, row' := db.subs[step.id], RowMoves(db, step).subs[step.id];
      && RowMoves(db, step) == db.(subs := db.subs[step.id := row'])
      && row' == row.(status := row'.status, worker := row'.worker, claimedAt := row'.claimedAt)
      && row.status in {Pending, Retrying, Running} && row'.status in {Pending, Running}
      && (row.status == Running || (db.main.status == Running && db.main.owner == ""))
  {
  }

  lemma SealedRow(s: Sys, id: nat)
    requires RowsOk(s.store.db) && PhaseOk(s) && id in s.Subs()
    requires s.Subs()[id].status == Running || (s.Main().status == Running && s.Main().owner == "")
    ensures s.Main().subTotal > 0 && RowOk(s.Subs()[id], s.Main())
  {
  }

  lemma WorkerSteps(cfg: Config, s: Sys, step: Step)
    requires Inv(cfg, s) && IsWorkerStep(step)
    ensures Inv(cfg, s.WithDb(RowMoves(s.store.db, step)))
  {
    var db := RowMoves(s.store.db, step);
    if db != s.store.db {
      WorkerRow(s.store.db, step);
      SealedRow(s, step.id);
      OneRowWrite(cfg, s, step.id, db.subs[step.id]);
    }
  }
}
