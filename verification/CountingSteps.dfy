/** Reporting a row and counting it keep the invariant. */
module CountingSteps {
  import opened Status
  import opened SetSums
  import opened TaskRows
  import opened Aggregation
  import opened Protocol
  import opened Invariant
  import opened Preservation

  // ---- a worker's report ----

  lemma RunningRowIsSealed(s: Sys, id: nat)
    requires RowsOk(s.store.db) && PhaseOk(s) && id in s.Subs() && s.Subs()[id].status in {Running, Retrying}
    ensures s.Subs()[id].status == Running && s.Main().subTotal > 0 && s.Main().owner == ""
    ensures s.Subs()[id].success == 0 && s.Subs()[id].fail == 0
  {
    assert RowOk(s.Subs()[id], s.Main());
  }

  function Finished(row: SubTask, success: int, fail: int, status: TaskStatus): SubTask {
    row.(success := success, fail := fail, status := status)
  }

  /** A row finished for good, and the call that will count it. */
  function Reported(s: Sys, id: nat, success: int, fail: int, status: TaskStatus): Sys
    requires id in s.Subs()
  {
    WithRow(s, id, Finished(s.Subs()[id], success, fail, status))
      .(calls := s.calls[s.nextCall := Call(Some(id), success, fail, Begin)], nextCall := s.nextCall + 1)
  }

  lemma ReportedRows(s: Sys, id: nat, success: int, fail: int, status: TaskStatus)
    requires RowsOk(s.store.db) && PhaseOk(s) && id in s.Subs() && s.Subs()[id].status == Running
    requires status in {Success, Failed} && Reportable(s.Main(), s.Subs()[id], success, fail, status)
    ensures var s' := Reported(s, id, success, fail, status);
      RowsOk(s'.store.db) && s'.Subs().Keys == s.Subs().Keys
      && FinishedIds(s'.Subs()) == FinishedIds(s.Subs()) + {id} && id !in FinishedIds(s.Subs())
  {
    var s' := Reported(s, id, success, fail, status);
    forall k | k in s'.Subs() ensures k < s'.store.db.nextId && RowOk(s'.Subs()[k], s'.Main()) {
      assert RowOk(s.Subs()[k], s.Main());
    }
  }

  lemma ReportedCounts(s: Sys, id: nat, success: int, fail: int, status: TaskStatus)
    requires CountsOk(s) && SumsOk(s) && id in s.Subs() && id !in FinishedIds(s.Subs())
    requires var s' := Reported(s, id, success, fail, status);
      s'.Subs().Keys == s.Subs().Keys && FinishedIds(s'.Subs()) == FinishedIds(s.Subs()) + {id}
    ensures CountsOk(Reported(s, id, success, fail, status)) && SumsOk(Reported(s, id, success, fail, status))
  {
    var s' := Reported(s, id, success, fail, status);
    SumAgrees(s.rdCounted, SuccessOf(s.Subs()), SuccessOf(s'.Subs()));
    SumAgrees(s.rdCounted, FailOf(s.Subs()), FailOf(s'.Subs()));
  }

  lemma ReportedCalls(s: Sys, id: nat, success: int, fail: int, status: TaskStatus)
    requires CallsOk(s) && CountsOk(s) && id in s.Subs() && id !in FinishedIds(s.Subs())
    requires status in {Success, Failed}
    ensures CallsOk(Reported(s, id, success, fail, status))
  {
    var s' := Reported(s, id, success, fail, status);
    forall c | c in s'.calls ensures c < s'.nextCall && PcOk(s', s'.calls[c]) && CallRowOk(s', s'.calls[c]) {
      if c != s.nextCall {
        assert PcOk(s, s.calls[c]) && CallRowOk(s, s.calls[c]);
        assert BeforeRedis(s.calls[c]) ==> s.calls[c].sub.value in FinishedIds(s.Subs());
      }
    }
    forall c, d | c in s'.calls && d in s'.calls && c != d && BeforeRedis(s'.calls[c]) && BeforeRedis(s'.calls[d])
      ensures s'.calls[c].sub != s'.calls[d].sub
    {
      if c != s.nextCall { assert CallRowOk(s, s.calls[c]) && s.calls[c].sub.value in FinishedIds(s.Subs()); }
      if d != s.nextCall { assert CallRowOk(s, s.calls[d]) && s.calls[d].sub.value in FinishedIds(s.Subs()); }
    }
  }

  lemma ReportedExact(s: Sys, id: nat, success: int, fail: int, status: TaskStatus)
    requires Exact(s) && CallsOk(s) && id in s.Subs()
    requires FinishedIds(Reported(s, id, success, fail, status).Subs()) == FinishedIds(s.Subs()) + {id}
    ensures Exact(Reported(s, id, success, fail, status))
  {
    var s' := Reported(s, id, success, fail, status);
    if s'.clean && !s'.Main().status.IsTerminal() {
      forall k | k in FinishedIds(s'.Subs())
        ensures k in s'.dbCounted || exists c :: c in s'.calls && BeforeDb(s'.calls[c]) && s'.calls[c].sub == Some(k)
      {
        if k == id {
          assert s.nextCall in s'.calls && BeforeDb(s'.calls[s.nextCall]);
        } else if k !in s.dbCounted {
          var c :| c in s.calls && BeforeDb(s.calls[c]) && s.calls[c].sub == Some(k);
          assert c in s'.calls && s'.calls[c] == s.calls[c];
        }
      }
    }
  }

  lemma ReportedMixed(s: Sys, id: nat, success: int, fail: int, status: TaskStatus)
    requires MixedOk(s) && id in s.Subs() && id !in FinishedIds(s.Subs())
    requires FinishedIds(Reported(s, id, success, fail, status).Subs()) == FinishedIds(s.Subs()) + {id}
    ensures MixedOk(Reported(s, id, success, fail, status))
  {
    var s' := Reported(s, id, success, fail, status);
    if s.mixed {
      assert |FinishedIds(s'.Subs())| == |s'.Subs().Keys|;
      SubsetCard(FinishedIds(s'.Subs()), s'.Subs().Keys);
    }
    if s.mixed && !s.spoiled {
      var x: nat :| BlankBut(s.Subs(), x);
      assert id == x;
      assert BlankBut(s'.Subs(), x);
    }
  }

  lemma ReportKeeps(cfg: Config, s: Sys, id: nat, worker: string, success: int, fail: int, status: TaskStatus)
    requires Inv(cfg, s)
    ensures Inv(cfg, ReportStep(s, id, worker, success, fail, status))
  {
    var s' := ReportStep(s, id, worker, success, fail, status);
    if s' != s {
      RunningRowIsSealed(s, id);
      var row := Finished(s.Subs()[id], success, fail, status);
      if status == Cancelled {
        assert RowOk(s.Subs()[id], s.Main());
        OneRowWrite(cfg, s, id, row);
      } else {
        ReportedRows(s, id, success, fail, status);
        ReportedCounts(s, id, success, fail, status);
        ReportedCalls(s, id, success, fail, status);
        ReportedExact(s, id, success, fail, status);
        ReportedMixed(s, id, success, fail, status);
        SealedSplits(cfg, s, Reported(s, id, success, fail, status));
      }
    }
  }

  /** Once nobody owns the split, the rows are no business of the splits still running. */
  lemma SealedSplits(cfg: Config, s: Sys, s': Sys)
    requires SplitsOk(cfg, s) && s'.splits == s.splits && s'.Main().owner == ""
    ensures SplitsOk(cfg, s')
  {
    forall w | w in s'.splits ensures SplitOk(cfg, s'.store.db, w, s'.splits[w]) {
      assert SplitOk(cfg, s.store.db, w, s.splits[w]);
    }
  }

  // ---- one aggregator call moving on ----

  function WithCall(s: Sys, c: nat, call: Call): Sys {
    s.(calls := s.calls[c := call])
  }

  function WithoutCall(s: Sys, c: nat): Sys {
    s.(calls := s.calls - {c})
  }

  lemma PhaseOfCall(s: Sys, c: nat)
    requires PhaseOk(s) && c in s.calls
    ensures s.Main().subTotal > 0 && s.Main().subTotal == |s.Subs()| && s.Main().owner == ""
    ensures s.Main().status !in {Draft, Pending, Retrying}
  {
  }

  lemma CallMoved(cfg: Config, s: Sys, c: nat, call: Call)
    requires Inv(cfg, s) && c in s.calls
    requires call == s.calls[c].(pc := call.pc)
    requires PcOk(s, call) && CallRowOk(s, call)
    requires BeforeRedis(call) ==> BeforeRedis(s.calls[c])
    requires BeforeDb(s.calls[c]) ==> BeforeDb(call)
    ensures Inv(cfg, WithCall(s, c, call))
  {
    var s' := WithCall(s, c, call);
    PhaseOfCall(s, c);
    assert CallsOk(s') by {
      forall d | d in s'.calls ensures d < s'.nextCall && PcOk(s', s'.calls[d]) && CallRowOk(s', s'.calls[d]) {
        if d != c { assert PcOk(s, s.calls[d]) && CallRowOk(s, s.calls[d]); }
      }
    }
    assert Exact(s') by { MovedExact(s, c, call); }
  }

  lemma MovedExact(s: Sys, c: nat, call: Call)
    requires Exact(s) && c in s.calls && call.sub == s.calls[c].sub
    requires BeforeDb(s.calls[c]) ==> BeforeDb(call)
    ensures Exact(WithCall(s, c, call))
  {
    var s' := WithCall(s, c, call);
    if s'.clean && !s'.Main().status.IsTerminal() {
      forall k | k in FinishedIds(s'.Subs())
        ensures k in s'.dbCounted || exists d :: d in s'.calls && BeforeDb(s'.calls[d]) && s'.calls[d].sub == Some(k)
      {
        if k !in s.dbCounted {
          var d :| d in s.calls && BeforeDb(s.calls[d]) && s.calls[d].sub == Some(k);
          assert d in s'.calls && BeforeDb(s'.calls[d]) && s'.calls[d].sub == Some(k);
        }
      }
    }
  }

  /** A call may end once its row is counted, or when the campaign is closed, or when calls were lost anyway. */
  lemma CallEnded(cfg: Config, s: Sys, c: nat)
    requires Inv(cfg, s) && c in s.calls
    requires !BeforeDb(s.calls[c]) || !s.clean || s.Main().status.IsTerminal()
    ensures Inv(cfg, WithoutCall(s, c))
  {
    var s' := WithoutCall(s, c);
    PhaseOfCall(s, c);
    assert CallsOk(s') by {
      forall d | d in s'.calls ensures d < s'.nextCall && PcOk(s', s'.calls[d]) && CallRowOk(s', s'.calls[d]) {
        assert PcOk(s, s.calls[d]) && CallRowOk(s, s.calls[d]);
      }
    }
    assert Exact(s') by { EndedExact(s, c); }
  }

  lemma EndedExact(s: Sys, c: nat)
    requires Exact(s) && c in s.calls
    requires !BeforeDb(s.calls[c]) || !s.clean || s.Main().status.IsTerminal()
    ensures Exact(WithoutCall(s, c))
  {
    var s' := WithoutCall(s, c);
    if s'.clean && !s'.Main().status.IsTerminal() {
      forall k | k in FinishedIds(s'.Subs())
        ensures k in s'.dbCounted || exists d :: d in s'.calls && BeforeDb(s'.calls[d]) && s'.calls[d].sub == Some(k)
      {
        if k !in s.dbCounted {
          var d :| d in s.calls && BeforeDb(s.calls[d]) && s.calls[d].sub == Some(k);
          assert d in s'.calls;
        }
      }
    }
  }

  // ---- the marks ----

  function WithRedis(s: Sys, redis: Counters): Sys {
    s.(store := s.store.(redis := redis))
  }

  /** The set of marks may change as long as rows still to be marked stay out of it. */
  lemma MarksChange(cfg: Config, s: Sys, finished: set<nat>)
    requires Inv(cfg, s)
    requires s.clean ==> finished <= FinishedIds(s.Subs())
    requires forall c :: s.clean && c in s.calls && s.calls[c].sub.Some? && (s.calls[c].pc.Begin? || s.calls[c].pc.Loaded?)
               ==> s.calls[c].sub.value !in finished
    ensures Inv(cfg, WithRedis(s, s.store.redis.(finished := finished)))
  {
    var s' := WithRedis(s, s.store.redis.(finished := finished));
    forall c | c in s'.calls ensures PcOk(s', s'.calls[c]) && CallRowOk(s', s'.calls[c]) {
      assert PcOk(s, s.calls[c]) && CallRowOk(s, s.calls[c]);
    }
  }

  lemma MarkKeeps(cfg: Config, s: Sys, id: nat)
    requires Inv(cfg, s) && id in FinishedIds(s.Subs())
    requires forall c :: c in s.calls && s.calls[c].sub == Some(id) ==> !(s.calls[c].pc.Begin? || s.calls[c].pc.Loaded?)
    ensures Inv(cfg, WithRedis(s, s.store.redis.Mark(id)))
  {
    forall c | s.clean && c in s.calls && s.calls[c].sub.Some? && (s.calls[c].pc.Begin? || s.calls[c].pc.Loaded?)
      ensures s.calls[c].sub.value !in s.store.redis.finished + {id}
    {
      assert CallRowOk(s, s.calls[c]) && BeforeRedis(s.calls[c]);
    }
    MarksChange(cfg, s, s.store.redis.finished + {id});
  }

  /** Where a call goes with its mark: on to the count, or out if the campaign it read was closed. */
  function MarkedOut(s: Sys, c: nat): Sys
    requires c in s.calls && s.calls[c].pc.Loaded?
  {
    if s.calls[c].pc.main.status.IsTerminal() then WithoutCall(s, c)
    else WithCall(s, c, s.calls[c].(pc := Marked(s.calls[c].pc.main)))
  }

  lemma LoadedStepIs(s: Sys, c: nat, now: int)
    requires c in s.calls && s.calls[c].pc.Loaded? && s.calls[c].sub.Some?
    ensures AggregateStep(s, c, now) ==
      if s.calls[c].sub.value in s.store.redis.finished then WithoutCall(s, c)
      else WithRedis(MarkedOut(s, c), s.store.redis.Mark(s.calls[c].sub.value))
  {
  }

  lemma MarkedOn(cfg: Config, s: Sys, c: nat)
    requires Inv(cfg, s) && c in s.calls && s.calls[c].pc.Loaded?
    ensures Inv(cfg, MarkedOut(s, c))
  {
    var call := s.calls[c];
    assert PcOk(s, call) && CallRowOk(s, call);
    if call.pc.main.status.IsTerminal() {
      CallEnded(cfg, s, c);
    } else {
      CallMoved(cfg, s, c, call.(pc := Marked(call.pc.main)));
    }
  }

  lemma LoadedRow(s: Sys, c: nat)
    requires CallsOk(s) && c in s.calls && s.calls[c].pc.Loaded?
    ensures s.calls[c].sub.Some? && s.calls[c].sub.value in FinishedIds(s.Subs())
    ensures !s.calls[c].pc.main.status.IsTerminal() || s.Main().status.IsTerminal()
    ensures s.clean && !s.Main().status.IsTerminal() ==> s.calls[c].sub.value !in s.store.redis.finished
    ensures forall d :: d in s.calls && d != c && s.calls[d].sub == s.calls[c].sub ==> !BeforeRedis(s.calls[d])
  {
    assert PcOk(s, s.calls[c]) && CallRowOk(s, s.calls[c]) && BeforeRedis(s.calls[c]);
  }

  lemma LoadedKeeps(cfg: Config, s: Sys, c: nat, now: int)
    requires Inv(cfg, s) && c in s.calls && s.calls[c].pc.Loaded?
    ensures Inv(cfg, AggregateStep(s, c, now))
  {
    LoadedRow(s, c);
    LoadedStepIs(s, c, now);
    if s.calls[c].sub.value in s.store.redis.finished {
      CallEnded(cfg, s, c);
    } else {
      MarkSet(cfg, s, c, AggregateStep(s, c, now));
    }
  }

  lemma MarkSet(cfg: Config, s: Sys, c: nat, s': Sys)
    requires Inv(cfg, s) && c in s.calls && s.calls[c].pc.Loaded? && s.calls[c].sub.Some?
    requires s' == WithRedis(MarkedOut(s, c), s.store.redis.Mark(s.calls[c].sub.value))
    ensures Inv(cfg, s')
  {
    MarkedOthers(s, c);
    MarkedOn(cfg, s, c);
    MarkKeeps(cfg, MarkedOut(s, c), s.calls[c].sub.value);
  }

  /** No call has that row still to mark. */
  lemma MarkedOthers(s: Sys, c: nat)
    requires CallsOk(s) && c in s.calls && s.calls[c].pc.Loaded?
    ensures var t := MarkedOut(s, c);
      && t.store == s.store && s.calls[c].sub.Some? && s.calls[c].sub.value in FinishedIds(t.Subs())
      && (forall d :: d in t.calls && t.calls[d].sub == s.calls[c].sub ==> !(t.calls[d].pc.Begin? || t.calls[d].pc.Loaded?))
  {
    LoadedRow(s, c);
  }

  // ---- the database count ----

  function DbCounted(s: Sys, c: nat, db: Db): Sys
    requires c in s.calls && s.calls[c].pc.Marked? && s.calls[c].sub.Some?
  {
    WithCall(s.WithDb(db), c, s.calls[c].(pc := Counted(s.calls[c].pc.main)))
      .(dbCounted := s.dbCounted + {s.calls[c].sub.value})
  }

  lemma DbCountWrites(db: Db, snap: MainTask, now: int)
    requires !snap.status.IsTerminal() && db.main.status !in {Draft, Pending, Retrying}
    ensures var db' := db.UpdateMainStats(snap.version, 0, 0, 1, snap.status, now).db;
      db' == db.(main := db'.main) && db'.main == db.main.(subDone := db.main.subDone + 1, updatedAt := db'.main.updatedAt)
  {
  }

  lemma MarkedKeeps(cfg: Config, s: Sys, c: nat, now: int)
    requires Inv(cfg, s) && c in s.calls && s.calls[c].pc.Marked? && c !in s.earlier
    ensures Inv(cfg, AggregateStep(s, c, now))
  {
    var call := s.calls[c];
    assert PcOk(s, call) && CallRowOk(s, call);
    PhaseOfCall(s, c);
    DbCountWrites(s.store.db, call.pc.main, now);
    var db := s.store.db.UpdateMainStats(call.pc.main.version, 0, 0, 1, call.pc.main.status, now).db;
    var s' := DbCounted(s, c, db);
    assert s' == AggregateStep(s, c, now);
    assert RowsOk(db);
    SealedSplits(cfg, s, s');
    DbCountedCounts(s, c, db);
    DbCountedCalls(s, c, db);
    DbCountedExact(s, c, db);
  }

  lemma DbCountedCounts(s: Sys, c: nat, db: Db)
    requires CountsOk(s) && SumsOk(s) && CallsOk(s) && c in s.calls && s.calls[c].pc.Marked?
    requires db.subs == s.Subs() && db.main.subDone == s.Main().subDone + 1
    ensures s.calls[c].sub.Some?
    ensures CountsOk(DbCounted(s, c, db)) && SumsOk(DbCounted(s, c, db))
  {
    assert PcOk(s, s.calls[c]) && CallRowOk(s, s.calls[c]);
  }

  lemma DbCountedCalls(s: Sys, c: nat, db: Db)
    requires CallsOk(s) && CountsOk(s) && c in s.calls && s.calls[c].pc.Marked?
    requires db.subs == s.Subs() && db.main.subTotal == s.Main().subTotal && db.main.status == s.Main().status
    ensures s.calls[c].sub.Some?
    ensures CallsOk(DbCounted(s, c, db))
  {
    assert PcOk(s, s.calls[c]) && CallRowOk(s, s.calls[c]);
    var s' := DbCounted(s, c, db);
    assert |s'.dbCounted| == |s.dbCounted| + 1;
    forall d | d in s'.calls ensures d < s'.nextCall && PcOk(s', s'.calls[d]) && CallRowOk(s', s'.calls[d]) {
      assert PcOk(s, s.calls[d]) && CallRowOk(s, s.calls[d]);
    }
  }

  lemma DbCountedExact(s: Sys, c: nat, db: Db)
    requires Exact(s) && c in s.calls && s.calls[c].pc.Marked? && s.calls[c].sub.Some?
    requires db.subs == s.Subs() && db.main.status == s.Main().status
    ensures Exact(DbCounted(s, c, db))
  {
    var s' := DbCounted(s, c, db);
    if s'.clean && !s'.Main().status.IsTerminal() {
      forall k | k in FinishedIds(s'.Subs())
        ensures k in s'.dbCounted || exists d :: d in s'.calls && BeforeDb(s'.calls[d]) && s'.calls[d].sub == Some(k)
      {
        if k !in s'.dbCounted {
          var d :| d in s.calls && BeforeDb(s.calls[d]) && s.calls[d].sub == Some(k);
          assert d in s'.calls && s'.calls[d] == s.calls[d];
        }
      }
    }
  }

  // ---- the Redis count ----

  /** A row counted in Redis. */
  function RowCounted(s: Sys, id: nat, success: int, fail: int): Sys {
    WithRedis(s, s.store.redis.IncrSubDone(success, fail)).(rdCounted := s.rdCounted + {id})
  }

  /** Where a call goes once it has counted in Redis, or failed to. */
  function CountedOut(s: Sys, c: nat, done: int): Sys
    requires c in s.calls && s.calls[c].pc.Counted?
  {
    if s.calls[c].pc.main.status == Paused then WithoutCall(s, c)
    else WithCall(s, c, s.calls[c].(pc := Deciding(s.calls[c].pc.main, done)))
  }

  lemma CountedStepIs(s: Sys, c: nat, now: int)
    requires c in s.calls && s.calls[c].pc.Counted? && s.calls[c].sub.Some? && c !in s.earlier
    ensures var call := s.calls[c];
      AggregateStep(s, c, now) == RowCounted(CountedOut(s, c, Max(call.pc.main.subDone + 1, s.store.redis.done + 1)),
                                             call.sub.value, call.success, call.fail)
  {
  }

  /** No more than is counted in the database, or no row is left to count. */
  predicate Enough(s: Sys, done: int) {
    done <= |s.dbCounted| || AllFinished(s)
  }

  lemma CountedDone(s: Sys, c: nat)
    requires CountsOk(s) && CallsOk(s) && c in s.calls && s.calls[c].pc.Counted?
    requires MixedOk(s)
    ensures s.calls[c].sub.Some? && s.calls[c].pc.main.subDone + 1 <= |s.dbCounted|
    ensures Enough(s, s.store.redis.done + 1)
  {
    assert PcOk(s, s.calls[c]) && CallRowOk(s, s.calls[c]);
    assert BeforeRedis(s.calls[c]);
    var counted := s.rdCounted + {s.calls[c].sub.value};
    assert |counted| == |s.rdCounted| + 1;
    SubsetCard(counted, s.dbCounted);
  }

  /** The call goes on to the decision, or ends. */
  lemma CountedOn(cfg: Config, s: Sys, c: nat, done: int, s': Sys)
    requires Inv(cfg, s) && c in s.calls && s.calls[c].pc.Counted? && Enough(s, done)
    requires s' == CountedOut(s, c, done)
    ensures Inv(cfg, s')
  {
    var call := s.calls[c].(pc := Deciding(s.calls[c].pc.main, done));
    assert PcOk(s, s.calls[c]);
    if s.calls[c].pc.main.status == Paused {
      CallEnded(cfg, s, c);
    } else {
      CallMoved(cfg, s, c, call);
    }
  }

  lemma RowCountedCounts(s: Sys, id: nat)
    requires CountsOk(s) && SumsOk(s) && id in s.dbCounted && id !in s.rdCounted
    ensures id in s.Subs()
    ensures var s' := RowCounted(s, id, s.Subs()[id].success, s.Subs()[id].fail); CountsOk(s') && SumsOk(s')
  {
    assert id in FinishedIds(s.Subs());
    SumAdd(s.rdCounted, SuccessOf(s.Subs()), id);
    SumAdd(s.rdCounted, FailOf(s.Subs()), id);
  }

  lemma RowCountedCalls(s: Sys, id: nat, success: int, fail: int)
    requires CallsOk(s)
    requires forall c :: c in s.calls && BeforeRedis(s.calls[c]) ==> s.calls[c].sub != Some(id)
    ensures CallsOk(RowCounted(s, id, success, fail))
  {
    var s' := RowCounted(s, id, success, fail);
    forall c | c in s'.calls ensures c < s'.nextCall && PcOk(s', s'.calls[c]) && CallRowOk(s', s'.calls[c]) {
      assert PcOk(s, s.calls[c]) && CallRowOk(s, s.calls[c]);
    }
  }

  lemma RowCountedKeeps(cfg: Config, s: Sys, id: nat, success: int, fail: int)
    requires Inv(cfg, s) && id in s.dbCounted && id !in s.rdCounted
    requires id in s.Subs() && s.Subs()[id].success == success && s.Subs()[id].fail == fail
    requires forall c :: c in s.calls && BeforeRedis(s.calls[c]) ==> s.calls[c].sub != Some(id)
    ensures Inv(cfg, RowCounted(s, id, success, fail))
  {
    RowCountedCounts(s, id);
    RowCountedCalls(s, id, success, fail);
  }

  lemma SameInv(cfg: Config, s: Sys, s': Sys)
    requires s == s' && Inv(cfg, s')
    ensures Inv(cfg, s)
  {
  }

  /** The row of a call that is about to count it in Redis. */
  lemma CountedRow(s: Sys, c: nat, done: int)
    requires CallsOk(s) && c in s.calls && s.calls[c].pc.Counted?
    ensures s.calls[c].sub.Some? && s.calls[c].sub.value in s.dbCounted && s.calls[c].sub.value !in s.rdCounted
    ensures var id := s.calls[c].sub.value;
      id in s.Subs() && s.Subs()[id].success == s.calls[c].success && s.Subs()[id].fail == s.calls[c].fail
    ensures var s' := CountedOut(s, c, done);
      forall d :: d in s'.calls && BeforeRedis(s'.calls[d]) ==> s'.calls[d].sub != s.calls[c].sub
  {
    assert PcOk(s, s.calls[c]) && CallRowOk(s, s.calls[c]) && BeforeRedis(s.calls[c]);
  }

  lemma CountedKeeps(cfg: Config, s: Sys, c: nat, now: int)
    requires Inv(cfg, s) && c in s.calls && s.calls[c].pc.Counted? && c !in s.earlier
    ensures Inv(cfg, AggregateStep(s, c, now))
  {
    CountedDone(s, c);
    var done := Max(s.calls[c].pc.main.subDone + 1, s.store.redis.done + 1);
    CountedRow(s, c, done);
    CountedOn(cfg, s, c, done, CountedOut(s, c, done));
    CountedStepIs(s, c, now);
    CountRow(cfg, CountedOut(s, c, done), s.calls[c], AggregateStep(s, c, now));
  }

  lemma CountRow(cfg: Config, s: Sys, call: Call, s': Sys)
    requires Inv(cfg, s) && call.sub.Some? && call.sub.value in s.dbCounted && call.sub.value !in s.rdCounted
    requires call.sub.value in s.Subs()
    requires s.Subs()[call.sub.value].success == call.success && s.Subs()[call.sub.value].fail == call.fail
    requires forall c :: c in s.calls && BeforeRedis(s.calls[c]) ==> s.calls[c].sub != call.sub
    requires s' == RowCounted(s, call.sub.value, call.success, call.fail)
    ensures Inv(cfg, s')
  {
    RowCountedKeeps(cfg, s, call.sub.value, call.success, call.fail);
  }

  lemma CountedMissKeeps(cfg: Config, s: Sys, c: nat)
    requires Inv(cfg, s) && c in s.calls && s.calls[c].pc.Counted? && c !in s.earlier
    ensures Inv(cfg, MissRedisStep(s, c))
  {
    CountedDone(s, c);
    MissedStepIs(s, c);
    CountedOn(cfg, s, c, s.calls[c].pc.main.subDone + 1, MissRedisStep(s, c));
  }

  lemma MissedStepIs(s: Sys, c: nat)
    requires c in s.calls && s.calls[c].pc.Counted?
    ensures MissRedisStep(s, c) == CountedOut(s, c, s.calls[c].pc.main.subDone + 1)
  {
  }

  lemma MissRedisKeeps(cfg: Config, s: Sys, c: nat)
    requires Inv(cfg, s) && c !in s.earlier
    ensures Inv(cfg, MissRedisStep(s, c))
  {
    if c in s.calls {
      if s.calls[c].pc.Counted? {
        CountedMissKeeps(cfg, s, c);
      } else {
        NothingMissed(s, c);
      }
    }
  }

  lemma NothingMissed(s: Sys, c: nat)
    requires c in s.calls && !s.calls[c].pc.Counted?
    ensures MissRedisStep(s, c) == s
  {
    assert s.calls[c := s.calls[c]] == s.calls;
  }

  // ---- closing the campaign ----

  lemma BeginStepKeeps(cfg: Config, s: Sys, c: nat, now: int)
    requires Inv(cfg, s) && c in s.calls && s.calls[c].pc.Begin?
    ensures Inv(cfg, AggregateStep(s, c, now))
  {
    var call := s.calls[c];
    assert PcOk(s, call) && CallRowOk(s, call);
    if call.sub.Some? {
      CallMoved(cfg, s, c, call.(pc := Loaded(s.Main())));
    } else if s.Main().status != Running {
      CallEnded(cfg, s, c);
    } else {
      CallMoved(cfg, s, c, call.(pc := Deciding(s.Main(), s.Main().subDone)));
    }
  }

  /** Enough counted rows means every row is finished. */
  lemma AllCounted(s: Sys)
    requires CountsOk(s) && |s.dbCounted| >= |s.Subs()|
    ensures FinishedIds(s.Subs()) == s.Subs().Keys
  {
    SubsetCard(s.dbCounted, s.Subs().Keys);
  }

  lemma TotalsExact(s: Sys)
    requires CountsOk(s) && SumsOk(s) && MixedOk(s) && s.store.redis.done == |s.Subs()| && !s.spoiled
    requires s.store.redis.success != 0 || s.store.redis.fail != 0
    ensures Verdict(s.store.redis.success, s.store.redis.fail) == TrueVerdict(s.Subs())
  {
    SubsetCard(s.rdCounted, s.Subs().Keys);
    if s.mixed {
      var x: nat :| BlankBut(s.Subs(), x);
      BlankTotals(s.Subs(), s.rdCounted, x);
    }
  }

  /** In sums that are not both zero the one row that may hold something is counted, and nothing is missing then. */
  lemma BlankTotals(subs: map<nat, SubTask>, ids: set<nat>, x: nat)
    requires BlankBut(subs, x) && ids <= subs.Keys
    requires Sum(ids, SuccessOf(subs)) != 0 || Sum(ids, FailOf(subs)) != 0
    ensures Sum(ids, SuccessOf(subs)) == Sum(subs.Keys, SuccessOf(subs))
    ensures Sum(ids, FailOf(subs)) == Sum(subs.Keys, FailOf(subs))
  {
    var rest := subs.Keys - ids;
    if x !in ids {
      SumZero(ids, SuccessOf(subs));
      SumZero(ids, FailOf(subs));
    }
    SumZero(rest, SuccessOf(subs));
    SumZero(rest, FailOf(subs));
    SumSplit(ids, rest, SuccessOf(subs));
    SumSplit(ids, rest, FailOf(subs));
    assert ids + rest == subs.Keys;
  }

  lemma DecidingKeeps(cfg: Config, s: Sys, c: nat, now: int)
    requires Inv(cfg, s) && c in s.calls && s.calls[c].pc.Deciding?
    ensures Inv(cfg, AggregateStep(s, c, now))
  {
    var call := s.calls[c];
    assert PcOk(s, call);
    PhaseOfCall(s, c);
    var snap, done := call.pc.main, call.pc.done;
    if snap.subTotal <= 0 || done < snap.subTotal {
      CallEnded(cfg, s, c);
    } else {
      if done <= |s.dbCounted| { AllCounted(s); }
      var exact := s.store.redis.done == snap.subTotal && (s.store.redis.success != 0 || s.store.redis.fail != 0);
      if exact && !s.spoiled { TotalsExact(s); }
      CallMoved(cfg, s, c, call.(pc := Swapping(snap, FinalStatus(s.store.redis, snap), exact)));
    }
  }

  lemma SwapKeeps(cfg: Config, s: Sys, c: nat, version: int, final: TaskStatus, now: int)
    requires Inv(cfg, s) && c in s.calls && final in {Success, Partial, Failed}
    ensures Inv(cfg, s.WithDb(s.store.db.UpdateMainStats(version, 0, 0, 0, final, now).db))
  {
    PhaseOfCall(s, c);
    MainWrite(cfg, s, s.WithDb(s.store.db.UpdateMainStats(version, 0, 0, 0, final, now).db));
  }

  function Swap(s: Sys, pc: Pc, now: int): Reply
    requires pc.Swapping? || pc.SwappingAgain?
  {
    s.store.db.UpdateMainStats(pc.main.version, 0, 0, 0, pc.final, now)
  }

  lemma SwappingIs(s: Sys, c: nat, now: int)
    requires c in s.calls && s.calls[c].pc.Swapping?
    ensures var call := s.calls[c];
      AggregateStep(s, c, now) ==
        if Swap(s, call.pc, now).ok then WithoutCall(s.WithDb(Swap(s, call.pc, now).db), c)
        else WithCall(s, c, call.(pc := Rereading(call.pc.final, call.pc.exact)))
  {
  }

  lemma SwappingKeeps(cfg: Config, s: Sys, c: nat, now: int)
    requires Inv(cfg, s) && c in s.calls && s.calls[c].pc.Swapping?
    ensures Inv(cfg, AggregateStep(s, c, now))
  {
    var call := s.calls[c];
    assert PcOk(s, call);
    SwappingIs(s, c, now);
    if Swap(s, call.pc, now).ok {
      SwapKeeps(cfg, s, c, call.pc.main.version, call.pc.final, now);
      CallEnded(cfg, s.WithDb(Swap(s, call.pc, now).db), c);
    } else {
      CallMoved(cfg, s, c, call.(pc := Rereading(call.pc.final, call.pc.exact)));
    }
  }

  lemma RereadingKeeps(cfg: Config, s: Sys, c: nat, now: int)
    requires Inv(cfg, s) && c in s.calls && s.calls[c].pc.Rereading?
    ensures Inv(cfg, AggregateStep(s, c, now))
  {
    var call := s.calls[c];
    assert PcOk(s, call);
    if s.Main().status.IsTerminal() || s.Main().status == Paused {
      CallEnded(cfg, s, c);
    } else {
      CallMoved(cfg, s, c, call.(pc := SwappingAgain(s.Main(), call.pc.final, call.pc.exact)));
    }
  }

  lemma SwappingAgainIs(s: Sys, c: nat, now: int)
    requires c in s.calls && s.calls[c].pc.SwappingAgain?
    ensures AggregateStep(s, c, now) == WithoutCall(s.WithDb(Swap(s, s.calls[c].pc, now).db), c)
  {
  }

  lemma SwappingAgainKeeps(cfg: Config, s: Sys, c: nat, now: int)
    requires Inv(cfg, s) && c in s.calls && s.calls[c].pc.SwappingAgain?
    ensures Inv(cfg, AggregateStep(s, c, now))
  {
    var call := s.calls[c];
    assert PcOk(s, call);
    var s1 := s.WithDb(Swap(s, call.pc, now).db);
    SwapKeeps(cfg, s, c, call.pc.main.version, call.pc.final, now);
    CallEnded(cfg, s1, c);
    SwappingAgainIs(s, c, now);
    SameInv(cfg, AggregateStep(s, c, now), WithoutCall(s1, c));
  }

  lemma AggregateKeeps(cfg: Config, s: Sys, c: nat, now: int)
    requires Inv(cfg, s) && c !in s.earlier
    ensures Inv(cfg, AggregateStep(s, c, now))
  {
    if c in s.calls {
      match s.calls[c].pc
      case Begin => BeginStepKeeps(cfg, s, c, now);
      case Loaded(_) => LoadedKeeps(cfg, s, c, now);
      case Marked(_) => MarkedKeeps(cfg, s, c, now);
      case Counted(_) => CountedKeeps(cfg, s, c, now);
      case Deciding(_, _) => DecidingKeeps(cfg, s, c, now);
      case Swapping(_, _, _) => SwappingKeeps(cfg, s, c, now);
      case Rereading(_, _) => RereadingKeeps(cfg, s, c, now);
      case SwappingAgain(_, _, _) => SwappingAgainKeeps(cfg, s, c, now);
    }
  }

  // ---- faults ----

  lemma LoseCallKeeps(cfg: Config, s: Sys, c: nat, unmark: bool)
    requires Inv(cfg, s) && c !in s.earlier
    ensures Inv(cfg, LoseCallStep(s, c, unmark))
  {
    if c in s.calls {
      if BeforeDb(s.calls[c]) {
        UncleanKeeps(cfg, s);
        CallEnded(cfg, s.(clean := false), c);
        LoseUnmarked(cfg, s.(clean := false), c, unmark);
      } else {
        CallEnded(cfg, s, c);
        LoseUnmarked(cfg, s, c, unmark);
      }
    }
  }

  lemma LoseUnmarked(cfg: Config, s: Sys, c: nat, unmark: bool)
    requires c in s.calls && Inv(cfg, WithoutCall(s, c))
    ensures Inv(cfg, if unmark && s.calls[c].sub.Some? then WithRedis(WithoutCall(s, c), s.store.redis.Unmark(s.calls[c].sub.value))
                     else WithoutCall(s, c))
  {
    if unmark && s.calls[c].sub.Some? {
      UnmarkKeeps(cfg, WithoutCall(s, c), s.calls[c].sub.value);
    }
  }

  lemma UncleanKeeps(cfg: Config, s: Sys)
    requires Inv(cfg, s)
    ensures Inv(cfg, s.(clean := false))
  {
    var s' := s.(clean := false);
    forall c | c in s'.calls ensures PcOk(s', s'.calls[c]) && CallRowOk(s', s'.calls[c]) {
      assert PcOk(s, s.calls[c]) && CallRowOk(s, s.calls[c]);
    }
  }

  lemma UnmarkKeeps(cfg: Config, s: Sys, id: nat)
    requires Inv(cfg, s)
    ensures Inv(cfg, WithRedis(s, s.store.redis.Unmark(id)))
  {
    forall c | s.clean && c in s.calls && s.calls[c].sub.Some? && (s.calls[c].pc.Begin? || s.calls[c].pc.Loaded?)
      ensures s.calls[c].sub.value !in s.store.redis.finished - {id}
    {
      assert CallRowOk(s, s.calls[c]) && BeforeRedis(s.calls[c]);
    }
    MarksChange(cfg, s, s.store.redis.finished - {id});
  }

  lemma LoseRedisKeeps(cfg: Config, s: Sys, hash: bool, marks: bool)
    requires Inv(cfg, s)
    ensures Inv(cfg, LoseRedisStep(s, hash, marks))
  {
    var s1 := LoseRedisStep(s, hash, false);
    HashLost(cfg, s, hash, s1);
    if marks {
      MarksChange(cfg, s1, {});
      SameInv(cfg, LoseRedisStep(s, hash, marks), WithRedis(s1, s1.store.redis.(finished := {})));
    } else {
      SameInv(cfg, LoseRedisStep(s, hash, marks), s1);
    }
  }

  lemma HashLost(cfg: Config, s: Sys, hash: bool, s': Sys)
    requires Inv(cfg, s) && s' == LoseRedisStep(s, hash, false)
    ensures Inv(cfg, s')
  {
    forall c | c in s'.calls ensures PcOk(s', s'.calls[c]) && CallRowOk(s', s'.calls[c]) {
      assert PcOk(s, s.calls[c]) && CallRowOk(s, s.calls[c]);
    }
  }

  lemma ReapKeeps(cfg: Config, s: Sys, staleSec: int, now: int)
    requires Inv(cfg, s)
    ensures Inv(cfg, ReapStep(s, staleSec, now))
  {
    var s' := ReapStep(s, staleSec, now);
    if s.store.db.Finishable(now, staleSec) {
      forall c | c in s'.calls ensures c < s'.nextCall && PcOk(s', s'.calls[c]) && CallRowOk(s', s'.calls[c]) {
        if c != s.nextCall { assert PcOk(s, s.calls[c]) && CallRowOk(s, s.calls[c]); }
      }
      assert Exact(s') by { ReapExact(s); }
    }
  }

  lemma ReapExact(s: Sys)
    requires Exact(s) && forall c :: c in s.calls ==> c < s.nextCall
    ensures Exact(s.(calls := s.calls[s.nextCall := Call(None, 0, 0, Begin)], nextCall := s.nextCall + 1))
  {
    var s' := s.(calls := s.calls[s.nextCall := Call(None, 0, 0, Begin)], nextCall := s.nextCall + 1);
    if s'.clean && !s'.Main().status.IsTerminal() {
      forall k | k in FinishedIds(s'.Subs())
        ensures k in s'.dbCounted || exists d :: d in s'.calls && BeforeDb(s'.calls[d]) && s'.calls[d].sub == Some(k)
      {
        if k !in s.dbCounted {
          var d :| d in s.calls && BeforeDb(s.calls[d]) && s.calls[d].sub == Some(k);
          assert d in s'.calls && s'.calls[d] == s.calls[d];
        }
      }
    }
  }
}
