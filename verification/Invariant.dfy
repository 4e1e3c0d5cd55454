/** What every step of the campaign protocol keeps, as far as the calls begun since the counters were last aligned
    are concerned. */
module Invariant {
  import opened Status
  import opened SetSums
  import opened TaskRows
  import opened Aggregation
  import opened Audience
  import opened Protocol

  // ---- rows ----

  predicate RowOk(row: SubTask, main: MainTask) {
    && row.total == |row.users| > 0
    && match row.status
       case Pending => row.success == 0 && row.fail == 0
       case Running => row.success == 0 && row.fail == 0
       case Cancelled => row.success == 0 && row.fail == 0 && main.status == Cancelled
       case Success => 0 <= row.success <= row.total && row.fail == 0
       case Failed => row.success == 0 && row.fail == row.total
       case _ => false
  }

  predicate RowsOk(db: Db) {
    forall id :: id in db.subs ==> id < db.nextId && RowOk(db.subs[id], db.main)
  }

  // ---- the split and its total ----

  /** The rows are exactly the shards the split wrote, in order. */
  predicate Holds(db: Db, p: Split) {
    && |p.ids| == |p.shards|
    && (forall i, j :: 0 <= i < j < |p.ids| ==> p.ids[i] < p.ids[j])
    && (forall i :: 0 <= i < |p.ids| ==> p.ids[i] in db.subs)
    && (forall id :: id in db.subs ==> id in p.ids)
    && (forall i :: 0 <= i < |p.ids| && p.ids[i] in db.subs ==>
          db.subs[p.ids[i]].shard == i && db.subs[p.ids[i]].users == p.shards[i])
  }

  predicate SplitOk(cfg: Config, db: Db, owner: string, p: Split) {
    && owner != ""
    && Flatten(p.shards) == KeptIds(cfg.filter, p.raw)
    && (forall i :: 0 <= i < |p.shards| ==> |p.shards[i]| > 0)
    && (db.main.owner == owner ==> db.main.subTotal == 0 && Holds(db, p))
    && (db.main.owner == owner && db.main.status == Running ==> p.version == db.main.version)
  }

  predicate SplitsOk(cfg: Config, s: Sys) {
    forall w :: w in s.splits ==> SplitOk(cfg, s.store.db, w, s.splits[w])
  }

  /** Before the split finishes nothing is claimed or counted, and a running campaign has a split owner.
      From then on the total is the number of rows and nobody owns the split. */
  predicate PhaseOk(s: Sys) {
    var main := s.Main();
    && main.subTotal >= 0
    && main.status != Retrying
    && (main.status in {Draft, Success, Partial, Failed} ==> main.owner == "")
    && (main.subTotal == 0 ==>
          && s.calls == map[]
          && s.dbCounted == {}
          && main.status !in {Success, Partial}
          && (main.status == Running ==> main.owner != "")
          && (forall id :: id in s.Subs() ==> s.Subs()[id].status in {Pending, Cancelled}))
    && (main.subTotal > 0 ==>
          && main.subTotal == |s.Subs()|
          && main.owner == ""
          && main.status !in {Draft, Pending})
  }

  // ---- counting ----

  predicate CountsOk(s: Sys) {
    && s.rdCounted <= s.dbCounted <= FinishedIds(s.Subs())
    && s.Main().subDone == |s.dbCounted|
    && (!s.mixed ==> s.store.redis.done == |s.rdCounted|)
    && (s.clean ==> s.store.redis.finished <= FinishedIds(s.Subs()))
  }

  ghost predicate SumsOk(s: Sys) {
    && s.rdCounted <= s.Subs().Keys
    && (!s.spoiled ==>
          && s.store.redis.success == Sum(s.rdCounted, SuccessOf(s.Subs()))
          && s.store.redis.fail == Sum(s.rdCounted, FailOf(s.Subs())))
  }

  predicate AllFinished(s: Sys) {
    FinishedIds(s.Subs()) == s.Subs().Keys
  }

  /** One row is open and no row's count is on its way to Redis. */
  predicate Lone(s: Sys) {
    |FinishedIds(s.Subs())| + 1 == |s.Subs()| && forall c :: c in s.calls ==> !BeforeRedis(s.calls[c])
  }

  /** A state in which a count too many in Redis cannot close the campaign early. */
  predicate Sheltered(s: Sys) {
    s.Main().subTotal > 0 && (AllFinished(s) || Lone(s))
  }

  /** All rows but `x` are finished, and nobody succeeded or failed in them. */
  predicate BlankBut(subs: map<nat, SubTask>, x: nat) {
    forall id :: id in subs && id != x ==> id in FinishedIds(subs) && subs[id].success == 0 && subs[id].fail == 0
  }

  /** A state in which a count of nothing in Redis cannot change the verdict. */
  ghost predicate Blank(s: Sys) {
    exists x: nat :: BlankBut(s.Subs(), x)
  }

  /** Rows whose aggregator call has not yet counted them in Redis. */
  predicate BeforeRedis(c: Call) {
    BeforeDb(c) || (c.sub.Some? && c.pc.Counted?)
  }

  /** A snapshot of the main row held by a call. */
  predicate SnapshotOk(snap: MainTask, main: MainTask) {
    && snap.subTotal == main.subTotal
    && (snap.status.IsTerminal() ==> main.status.IsTerminal())
  }

  /** The status the rows themselves give. */
  ghost function TrueVerdict(subs: map<nat, SubTask>): TaskStatus {
    Verdict(Sum(subs.Keys, SuccessOf(subs)), Sum(subs.Keys, FailOf(subs)))
  }

  ghost predicate ClosingOk(s: Sys, final: TaskStatus, exact: bool) {
    && AllFinished(s)
    && final in {Success, Partial, Failed}
    && (exact && !s.spoiled ==> final == TrueVerdict(s.Subs()))
  }

  ghost predicate PcOk(s: Sys, c: Call) {
    match c.pc
    case Begin => true
    case Loaded(snap) => c.sub.Some? && SnapshotOk(snap, s.Main()) && snap.subDone <= |s.dbCounted|
    case Marked(snap) => c.sub.Some? && SnapshotOk(snap, s.Main()) && snap.subDone <= |s.dbCounted|
                         && !snap.status.IsTerminal()
    case Counted(snap) => c.sub.Some? && SnapshotOk(snap, s.Main()) && snap.subDone + 1 <= |s.dbCounted|
                          && c.sub.value in s.dbCounted
    case Deciding(snap, done) => SnapshotOk(snap, s.Main()) && (done <= |s.dbCounted| || AllFinished(s))
    case Swapping(snap, final, exact) => ClosingOk(s, final, exact)
    case Rereading(final, exact) => ClosingOk(s, final, exact)
    case SwappingAgain(snap, final, exact) => ClosingOk(s, final, exact)
  }

  predicate CallRowOk(s: Sys, c: Call) {
    BeforeRedis(c) ==>
      && c.sub.value in s.Subs()
      && s.Subs()[c.sub.value].status in {Success, Failed}
      && s.Subs()[c.sub.value].success == c.success
      && s.Subs()[c.sub.value].fail == c.fail
      && c.sub.value !in s.rdCounted
      && (BeforeDb(c) ==> c.sub.value !in s.dbCounted)
      && (s.clean && (c.pc.Begin? || c.pc.Loaded?) ==> c.sub.value !in s.store.redis.finished)
  }

  ghost predicate CallsOk(s: Sys) {
    && (forall c :: c in s.calls ==> c < s.nextCall && PcOk(s, s.calls[c]) && CallRowOk(s, s.calls[c]))
    && (forall c, d :: c in s.calls && d in s.calls && c != d && BeforeRedis(s.calls[c]) && BeforeRedis(s.calls[d])
          ==> s.calls[c].sub != s.calls[d].sub)
  }

  /** With no call lost, a finished row of a live campaign is counted or has a call that will count it. */
  predicate Exact(s: Sys) {
    s.clean && !s.Main().status.IsTerminal() ==>
      forall id :: id in FinishedIds(s.Subs()) ==>
        id in s.dbCounted || exists c :: c in s.calls && BeforeDb(s.calls[c]) && s.calls[c].sub == Some(id)
  }

  /** What a call from before the last Retry that is about to count in Redis may find. */
  ghost predicate MixedOk(s: Sys) {
    && (s.spoiled ==> s.mixed)
    && (s.mixed ==> Sheltered(s))
    && (s.mixed && !s.spoiled ==> Blank(s))
  }

  ghost predicate Inv(cfg: Config, s: Sys) {
    && RowsOk(s.store.db)
    && SplitsOk(cfg, s)
    && PhaseOk(s)
    && CountsOk(s)
    && SumsOk(s)
    && CallsOk(s)
    && Exact(s)
    && MixedOk(s)
  }

  lemma InitInv(cfg: Config)
    ensures Inv(cfg, Init())
  {
    assert FinishedIds(Init().Subs()) == {};
  }
}
