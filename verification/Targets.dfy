/** Who the rows of a campaign are for, over whole runs. */
module Targets {
  import opened TaskRows
  import opened Aggregation
  import opened Audience
  import opened Retry
  import opened Protocol
  import opened Invariant
  import opened AnyRun
  import opened CampaignTheorems

  /** Nobody who must not get the campaign: not excluded, not in the control group of an experiment, in the sample. */
  predicate Allowed(f: Filter, user: string) {
    && user != "" && user !in f.excluded
    && (f.experiment ==> user !in f.control)
    && (f.sampling && !f.experiment ==> user in f.sampled)
  }

  /** Users added by some Retry of the run because they failed at the provider. */
  predicate AddedByRetry(steps: seq<Step>, user: string) {
    exists k :: 0 <= k < |steps| && steps[k].RetryCampaign? && user in steps[k].pushFailed
  }

  /** Where the users of a row come from: the row as it was, the page just written, or the Retry's list. */
  predicate UsersFrom(cfg: Config, subs: map<nat, SubTask>, step: Step, id: nat, users: seq<string>) {
    || (id in subs && users == subs[id].users)
    || (step.WritePage? && users == KeptIds(cfg.filter, step.users))
    || (step.RetryCampaign? && forall u :: u in users ==> u in step.pushFailed)
  }

  predicate RowsFrom(cfg: Config, subs: map<nat, SubTask>, step: Step, subs': map<nat, SubTask>) {
    forall id :: id in subs' ==> UsersFrom(cfg, subs, step, id, subs'[id].users)
  }

  lemma RowStepUsers(cfg: Config, db: Db, step: Step)
    requires IsRowStep(step)
    ensures RowsFrom(cfg, db.subs, step, RowMoves(db, step).subs)
  {
  }

  lemma PageUsers(cfg: Config, w: SplitWork, step: Step)
    requires step.WritePage?
    ensures RowsFrom(cfg, w.db.subs, step, PageWritten(cfg, w, step.owner, step.users, step.now).db.subs)
  {
    if step.owner in w.splits {
      InsertedRow(w.db.RenewSplitLease(step.owner, step.now).db, Shard(|w.splits[step.owner].shards|, KeptIds(cfg.filter, step.users)));
      InsertedRow(w.db, Shard(|w.splits[step.owner].shards|, KeptIds(cfg.filter, step.users)));
    }
  }

  lemma SplitStepUsers(cfg: Config, w: SplitWork, step: Step)
    requires IsSplitStep(step)
    ensures RowsFrom(cfg, w.db.subs, step, SplitMoves(cfg, w, step).db.subs)
  {
    if step.WritePage? { PageUsers(cfg, w, step); }
  }

  lemma BeginUsers(cfg: Config, s: Sys, step: Step)
    requires BeginsCall(step)
    ensures RowsFrom(cfg, s.Subs(), step, BeginMoves(s, step).Subs())
  {
  }

  lemma CallUsers(cfg: Config, s: Sys, step: Step)
    requires IsCallStep(step)
    ensures RowsFrom(cfg, s.Subs(), step, CallMoves(s, step).Subs())
  {
    if step.Aggregate? { CallsLeaveRows(s, step.call, step.now); }
  }

  lemma RetriedFrom(cfg: Config, st: Store, step: Step)
    requires step.RetryCampaign? && cfg.batchSize > 0 && (forall id :: id in st.db.subs ==> id < st.db.nextId)
    requires RetryMain(st, step.pushFailed, cfg.batchSize, step.outcomes, step.now).Retried?
    ensures RowsFrom(cfg, st.db.subs, step, RetryMain(st, step.pushFailed, cfg.batchSize, step.outcomes, step.now).store.db.subs)
  {
    RetryRows(st, step.pushFailed, cfg.batchSize, step.outcomes, step.now);
  }

  lemma RetryUsers(cfg: Config, s: Sys, step: Step)
    requires step.RetryCampaign? && RowsOk(s.store.db)
    ensures RowsFrom(cfg, s.Subs(), step, RetryStep(cfg, s, step.pushFailed, step.outcomes, step.now).Subs())
  {
    if cfg.batchSize > 0 && RetryMain(s.store, step.pushFailed, cfg.batchSize, step.outcomes, step.now).Retried? {
      RetriedFrom(cfg, s.store, step);
    }
  }

  lemma StepUsers(cfg: Config, s: Sys, step: Step)
    requires RowsOk(s.store.db)
    ensures RowsFrom(cfg, s.Subs(), step, Next(cfg, s, step).Subs())
  {
    if IsRowStep(step) {
      RowStepUsers(cfg, s.store.db, step);
    } else if IsSplitStep(step) {
      SplitStepUsers(cfg, s.Work(), step);
    } else if IsCallStep(step) {
      CallUsers(cfg, s, step);
    } else if BeginsCall(step) {
      BeginUsers(cfg, s, step);
    } else if step.RetryCampaign? {
      RetryUsers(cfg, s, step);
    }
  }

  predicate AllAllowed(cfg: Config, steps: seq<Step>, subs: map<nat, SubTask>) {
    forall id, u :: id in subs && u in subs[id].users ==> Allowed(cfg.filter, u) || AddedByRetry(steps, u)
  }

  lemma AddedStays(steps: seq<Step>, step: Step, user: string)
    ensures AddedByRetry(steps, user) ==> AddedByRetry(steps + [step], user)
    ensures step.RetryCampaign? && user in step.pushFailed ==> AddedByRetry(steps + [step], user)
  {
    if AddedByRetry(steps, user) {
      var k :| 0 <= k < |steps| && steps[k].RetryCampaign? && user in steps[k].pushFailed;
      assert (steps + [step])[k] == steps[k];
    }
    assert (steps + [step])[|steps|] == step;
  }

  lemma AllowedOn(cfg: Config, steps: seq<Step>, step: Step, subs: map<nat, SubTask>, subs': map<nat, SubTask>)
    requires AllAllowed(cfg, steps, subs) && RowsFrom(cfg, subs, step, subs')
    ensures AllAllowed(cfg, steps + [step], subs')
  {
    forall id, u | id in subs' && u in subs'[id].users ensures Allowed(cfg.filter, u) || AddedByRetry(steps + [step], u) {
      assert UsersFrom(cfg, subs, step, id, subs'[id].users);
      AddedStays(steps, step, u);
      if step.WritePage? { KeptIdsMembers(cfg.filter, step.users, u); }
    }
  }

  /** In every run: whoever a row is for has an id, is not excluded, is in no control group and is in the sample, unless some
      Retry added the user as failed at the provider. */
  lemma {:induction false} OnlyAllowedUsers(cfg: Config, steps: seq<Step>)
    ensures AllAllowed(cfg, steps, After(cfg, Init(), steps).Subs())
  {
    if steps != [] {
      var n := |steps| - 1;
      OnlyAllowedUsers(cfg, steps[..n]);
      RowsAlways(cfg, steps[..n]);
      RowsOfErased(After(cfg, Init(), steps[..n]));
      StepUsers(cfg, After(cfg, Init(), steps[..n]), steps[n]);
      AllowedOn(cfg, steps[..n], steps[n], After(cfg, Init(), steps[..n]).Subs(), After(cfg, Init(), steps).Subs());
      assert steps[..n] + [steps[n]] == steps;
    }
  }

  lemma RowsOfErased(s: Sys)
    requires RowsOk(Erased(s).store.db)
    ensures RowsOk(s.store.db)
  {
    forall id | id in s.Subs() ensures id < s.store.db.nextId && RowOk(s.Subs()[id], s.Main()) {
      assert RowOk(Erased(s).Subs()[id], Erased(s).Main());
    }
  }

  lemma {:induction false} InSomeShard(shards: seq<seq<string>>, i: nat, u: string)
    requires i < |shards| && u in shards[i]
    ensures u in Flatten(shards)
  {
    if i < |shards| - 1 { InSomeShard(shards[..|shards| - 1], i, u); }
  }

  /** When a split finishes, in whatever run, every user of its rows is allowed and was listed on a page with a channel the
      campaign goes out on. */
  lemma OnlyTargets(cfg: Config, steps: seq<Step>, step: Step, id: nat, u: string)
    requires Finishes(After(cfg, Init(), steps), step)
    requires var s' := Next(cfg, After(cfg, Init(), steps), step); id in s'.Subs() && u in s'.Subs()[id].users
    ensures Allowed(cfg.filter, u)
    ensures exists t :: t in After(cfg, Init(), steps).splits[step.owner].raw && t.id == u && Reachable(cfg.filter.channels, t.channels)
  {
    SplitPartition(cfg, steps, step);
    HeldTarget(cfg, Next(cfg, After(cfg, Init(), steps), step).store.db, After(cfg, Init(), steps).splits[step.owner], id, u);
  }

  lemma HeldTarget(cfg: Config, db: Db, p: Split, id: nat, u: string)
    requires Holds(db, p) && Flatten(p.shards) == KeptIds(cfg.filter, p.raw)
    requires id in db.subs && u in db.subs[id].users
    ensures Allowed(cfg.filter, u) && exists t :: t in p.raw && t.id == u && Reachable(cfg.filter.channels, t.channels)
  {
    var i :| 0 <= i < |p.ids| && p.ids[i] == id;
    InSomeShard(p.shards, i, u);
    KeptIdsMembers(cfg.filter, p.raw, u);
  }

  /** And nobody on those pages who is allowed and can be reached was left out. */
  lemma NoTargetLeftOut(cfg: Config, steps: seq<Step>, step: Step, t: TargetUser)
    requires Finishes(After(cfg, Init(), steps), step)
    requires t in After(cfg, Init(), steps).splits[step.owner].raw
    requires Allowed(cfg.filter, t.id) && Reachable(cfg.filter.channels, t.channels)
    ensures var s' := Next(cfg, After(cfg, Init(), steps), step);
      exists id :: id in s'.Subs() && t.id in s'.Subs()[id].users
  {
    SplitPartition(cfg, steps, step);
    HeldSomewhere(cfg, Next(cfg, After(cfg, Init(), steps), step).store.db, After(cfg, Init(), steps).splits[step.owner], t);
  }

  lemma HeldSomewhere(cfg: Config, db: Db, p: Split, t: TargetUser)
    requires Holds(db, p) && Flatten(p.shards) == KeptIds(cfg.filter, p.raw)
    requires t in p.raw && Allowed(cfg.filter, t.id) && Reachable(cfg.filter.channels, t.channels)
    ensures exists id :: id in db.subs && t.id in db.subs[id].users
  {
    KeptIdsMembers(cfg.filter, p.raw, t.id);
    var i := ShardWith(p.shards, t.id);
    assert t.id in db.subs[p.ids[i]].users;
  }

  lemma {:induction false} ShardWith(shards: seq<seq<string>>, u: string) returns (i: nat)
    requires u in Flatten(shards)
    ensures i < |shards| && u in shards[i]
  {
    i := |shards| - 1;
    if u !in shards[i] { i := ShardWith(shards[..i], u); }
  }
}
