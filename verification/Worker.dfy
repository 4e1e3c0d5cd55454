/** A scheduler worker: what one claimed row turns into, and the error exit of a split. Every result it writes
    is one the protocol's Report step allows. */
module Worker {
  import opened Status
  import opened TaskRows
  import opened Aggregation
  import opened Audience
  import opened Protocol
  import opened TaskRepository
  import opened AggregatorService
  import opened Splitter

  /** A claimed row is renewed before every message whose index is a multiple of this. */
  const RENEW_CLAIM_EVERY := 50

  datatype Message = Message(subTask: nat, user: string, channels: seq<Channel>)

  datatype PublishEnd = Published | PublishFailed | ContextDone | ClaimLost

  /** What became of a claimed row. */
  datatype RowEnd = MainCancelled | MainPaused | Lost | Finished(success: int, fail: int, status: TaskStatus)

  /** How far the queue and the context let a publish go: the first message they refuse, if any. */
  datatype Outside = Outside(refused: Option<nat>, cancelled: Option<nat>)

  /** The queue or the context ends the publishing at message i. */
  predicate StopsAt(outside: Outside, i: nat) {
    outside.refused == Some(i) || (i > 0 && outside.cancelled == Some(i))
  }

  /** Nothing keeps `n` messages from going out: paced, they go one by one, else in one call. */
  predicate AllGoOut(outside: Outside, pace: int, n: nat) {
    if pace > 0 then forall i :: 0 <= i < n ==> !StopsAt(outside, i) else n == 0 || outside.refused.None?
  }

  /** The claim was renewed before these of the first `n` messages. */
  ghost predicate RenewedBefore(renewals: set<nat>, n: nat) {
    forall i :: i in renewals <==> 0 < i < n && i % RENEW_CLAIM_EVERY == 0
  }

  lemma RenewedBeforeNext(renewals: set<nat>, n: nat)
    requires RenewedBefore(renewals, n) && n > 0
    ensures RenewedBefore(if n % RENEW_CLAIM_EVERY == 0 then renewals + {n} else renewals, n + 1)
  {
  }

  /** How paced publishing of `n` messages ended after `out` of them. */
  predicate EndsAfter(end: PublishEnd, outside: Outside, held: bool, n: nat, out: nat) {
    && (forall i :: 0 <= i < out ==> !StopsAt(outside, i))
    && match end
       case Published => out == n
       case ContextDone => 0 < out < n && outside.cancelled == Some(out)
       case ClaimLost => !held && out == RENEW_CLAIM_EVERY < n && outside.cancelled != Some(out)
       case PublishFailed => out < n && outside.refused == Some(out) && !(out > 0 && outside.cancelled == Some(out))
  }

  lemma EndTells(end: PublishEnd, outside: Outside, pace: int, n: nat, out: nat)
    requires pace > 0 && EndsAfter(end, outside, true, n, out)
    ensures end == Published <==> AllGoOut(outside, pace, n)
  {
    if end != Published { assert StopsAt(outside, out); }
  }

  /** Channels a user of a row is sent on: those of the split if there are any, else the campaign's. */
  function ChannelsFor(task: seq<Channel>, chosen: map<string, seq<Channel>>, user: string): seq<Channel> {
    if user in chosen && |chosen[user]| > 0 then chosen[user] else task
  }

  /** One message for every user that has a channel, in order. */
  function Messages(id: nat, users: seq<string>, task: seq<Channel>, chosen: map<string, seq<Channel>>): (msgs: seq<Message>)
    ensures |msgs| <= |users|
    ensures |msgs| == |users| <==> forall i :: 0 <= i < |users| ==> |ChannelsFor(task, chosen, users[i])| > 0
  {
    if users == [] then []
    else
      var n := |users| - 1;
      var chs := ChannelsFor(task, chosen, users[n]);
      Messages(id, users[..n], task, chosen) + (if |chs| > 0 then [Message(id, users[n], chs)] else [])
  }

  /** Message m is for this user of the row, on the channels chosen for the user at the split or else the campaign's. */
  predicate IsFor(m: Message, id: nat, user: string, task: seq<Channel>, chosen: map<string, seq<Channel>>) {
    && m.subTask == id && m.user == user && m.channels != []
    && (user in chosen && chosen[user] != [] ==> m.channels == chosen[user])
    && (user !in chosen || chosen[user] == [] ==> m.channels == task)
  }

  /** The user has no channel at all. */
  predicate HasNoChannel(user: string, task: seq<Channel>, chosen: map<string, seq<Channel>>) {
    task == [] && (user in chosen ==> chosen[user] == [])
  }

  /** `at` names the users the messages are for, in the order of the row; those passed over have no channel. */
  ghost predicate Matched(msgs: seq<Message>, at: seq<nat>, id: nat, users: seq<string>, task: seq<Channel>, chosen: map<string, seq<Channel>>) {
    && |at| == |msgs|
    && (forall k :: 0 <= k < |at| ==> at[k] < |users| && IsFor(msgs[k], id, users[at[k]], task, chosen))
    && (forall j, k :: 0 <= j < k < |at| ==> at[j] < at[k])
    && (forall i :: 0 <= i < |users| ==> i in at || HasNoChannel(users[i], task, chosen))
  }

  /** The messages of a row are one for each of its users that has a channel, in the order of the row. */
  lemma {:induction false} MessagesAre(id: nat, users: seq<string>, task: seq<Channel>, chosen: map<string, seq<Channel>>) returns (at: seq<nat>)
    ensures Matched(Messages(id, users, task, chosen), at, id, users, task, chosen)
  {
    at := [];
    if users != [] {
      var n := |users| - 1;
      var before := MessagesAre(id, users[..n], task, chosen);
      var chs := ChannelsFor(task, chosen, users[n]);
      var msgs := Messages(id, users[..n], task, chosen);
      if chs != [] {
        at := before + [n];
        OneMessageMore(msgs, before, id, users, task, chosen, Message(id, users[n], chs));
      } else {
        at := before;
        OneUserMore(msgs, before, id, users, task, chosen);
      }
    }
  }

  lemma OneMessageMore(msgs: seq<Message>, at: seq<nat>, id: nat, users: seq<string>, task: seq<Channel>, chosen: map<string, seq<Channel>>, m: Message)
    requires users != [] && Matched(msgs, at, id, users[..|users| - 1], task, chosen)
    requires IsFor(m, id, users[|users| - 1], task, chosen)
    ensures Matched(msgs + [m], at + [|users| - 1], id, users, task, chosen)
  {
    var n := |users| - 1;
    forall i | 0 <= i < |users| ensures i in at + [n] || HasNoChannel(users[i], task, chosen) {
      if i < n { assert users[i] == users[..n][i]; } else { assert (at + [n])[|at|] == n; }
    }
  }

  lemma OneUserMore(msgs: seq<Message>, at: seq<nat>, id: nat, users: seq<string>, task: seq<Channel>, chosen: map<string, seq<Channel>>)
    requires users != [] && Matched(msgs, at, id, users[..|users| - 1], task, chosen) && HasNoChannel(users[|users| - 1], task, chosen)
    ensures Matched(msgs, at, id, users, task, chosen)
  {
    var n := |users| - 1;
    forall i | 0 <= i < |users| ensures i in at || HasNoChannel(users[i], task, chosen) {
      if i < n { assert users[i] == users[..n][i]; }
    }
  }

  /** Pages leave status, owner and version of the campaign alone. */
  predicate SameHolder(m: MainTask, m': MainTask) {
    m'.status == m.status && m'.owner == m.owner && m'.version == m.version
  }

  lemma WritePageHolder(cfg: Config, s: Sys, owner: string, users: seq<TargetUser>, now: int)
    ensures SameHolder(s.Main(), WritePageStep(cfg, s, owner, users, now).Main())
  {
  }

  lemma {:induction false} PagedHolder(cfg: Config, db: Db, owner: string, version: int, pages: seq<Page>, now: int)
    ensures SameHolder(db.main, Paged(cfg, Begun(db, owner, version), owner, pages, now).Main())
  {
    if pages != [] {
      var n := |pages| - 1;
      PagedHolder(cfg, db, owner, version, pages[..n], now);
      var before := Paged(cfg, Begun(db, owner, version), owner, pages[..n], now);
      WritePageHolder(cfg, before.WithDb(before.store.db.RenewSplitLease(owner, now).db), owner, pages[n].users, now);
    }
  }

  /** The campaign after a split by the lease holder: sealed if it went well, else still the holder's. */
  lemma EndedMain(cfg: Config, maxPages: nat, resolve: Resolver, db: Db, owner: string, end: SplitEnd, pages: seq<Page>, after: Db, now: int)
    requires Live(db.main, owner)
    requires Ended(cfg, maxPages, resolve, db, owner, db.main.version, end, pages, after, now)
    ensures end != SplitDone ==> SameHolder(db.main, after.main)
    ensures end == SplitDone ==> after.main.status == Running && after.main.owner == ""
  {
    PagedHolder(cfg, db, owner, db.main.version, pages, now);
    if end == SplitDone {
      PagedFollows(cfg, db, owner, db.main.version, pages, now);
      FinishedHolder(cfg, Paged(cfg, Begun(db, owner, db.main.version), owner, pages, now), owner, now);
    }
  }

  lemma FinishedHolder(cfg: Config, s: Sys, owner: string, now: int)
    requires owner in s.splits && !s.splits[owner].failing && Live(s.Main(), owner)
    requires Flatten(s.splits[owner].shards) != []
    ensures FinishSplitStep(s, owner, now).Main().status == Running && FinishSplitStep(s, owner, now).Main().owner == ""
  {
  }

  /** The rows after the claim was renewed, or not. */
  function Renewed(db: Db, renewed: bool, id: nat, worker: string, now: int): Db {
    if renewed then db.RenewSubTaskClaim(id, worker, now).db else db
  }

  lemma RenewedTwice(db: Db, renewed: bool, id: nat, worker: string, now: int)
    ensures Renewed(db, renewed, id, worker, now).RenewSubTaskClaim(id, worker, now).db == Renewed(db, true, id, worker, now)
  {
    if id in db.subs {
      var row := db.subs[id].(claimedAt := Some(now));
      assert db.subs[id := row][id := row] == db.subs[id := row];
    }
  }

  /** A result written and counted, the claim having been renewed on the way or not. */
  function Reported(st: Store, renewed: bool, id: nat, worker: string, success: int, fail: int, status: TaskStatus, now: int): Store {
    var db := Renewed(st.db, renewed, id, worker, now);
    Completed(st.(db := db.UpdateSubTaskResult(id, worker, success, fail, status).db), Call(Some(id), success, fail, Begin), true, now)
  }

  /** The result was written and counted. */
  predicate WasReported(st: Store, st': Store, id: nat, worker: string, end: RowEnd, now: int)
    requires end.Finished?
  {
    exists renewed :: st' == Reported(st, renewed, id, worker, end.success, end.fail, end.status, now)
  }

  lemma ReportIs(st: Store, st': Store, renewed: bool, id: nat, worker: string, end: RowEnd, now: int)
    requires end.Finished? && st' == Reported(st, renewed, id, worker, end.success, end.fail, end.status, now)
    ensures WasReported(st, st', id, worker, end, now)
  {
  }

  class Worker {
    const tasks: TaskRepo
    const agg: Aggregator
    const splitter: Splitter
    var sent: seq<Message>

    constructor (repo: TaskRepo, aggregator: Aggregator, split: Splitter)
      requires aggregator.tasks == repo && split.tasks == repo
      ensures tasks == repo && agg == aggregator && splitter == split && sent == []
    {
      tasks, agg, splitter, sent := repo, aggregator, split, [];
    }

    predicate Valid() {
      agg.tasks == tasks && splitter.tasks == tasks
    }

    predicate HoldsClaim(id: nat, worker: string)
      reads tasks
    {
      id in tasks.subs && tasks.subs[id].worker == worker && tasks.subs[id].status == Running
    }

    method BuildMessages(id: nat, users: seq<string>, task: seq<Channel>, chosen: map<string, seq<Channel>>) returns (msgs: seq<Message>)
      ensures msgs == Messages(id, users, task, chosen)
    {
      msgs := [];
      for i := 0 to |users|
        invariant msgs == Messages(id, users[..i], task, chosen)
      {
        assert users[..i + 1][..i] == users[..i];
        var chs := task;
        if users[i] in chosen && |chosen[users[i]]| > 0 {
          chs := chosen[users[i]];
        }
        if |chs| > 0 {
          msgs := msgs + [Message(id, users[i], chs)];
        }
      }
      assert users[..|users|] == users;
    }

    /** Without pacing all messages go in one call. Paced, they go one by one up to the first that is refused or that the
        context ends at; the claim is renewed before every fiftieth, and a row that is not (or no longer) claimed gets
        no further than the first of these. */
    method PublishMsgs(id: nat, worker: string, msgs: seq<Message>, pace: int, outside: Outside, now: int)
      returns (end: PublishEnd, ghost renewals: set<nat>)
      modifies tasks, this`sent
      ensures tasks.main == old(tasks.main) && HoldsClaim(id, worker) == old(HoldsClaim(id, worker))
      ensures old(sent) <= sent <= old(sent) + msgs
      ensures pace > 0 ==> EndsAfter(end, outside, old(HoldsClaim(id, worker)), |msgs|, |sent| - |old(sent)|)
      ensures pace > 0 && !old(HoldsClaim(id, worker)) ==> |sent| <= |old(sent)| + RENEW_CLAIM_EVERY
      ensures pace <= 0 ==> end == if AllGoOut(outside, pace, |msgs|) then Published else PublishFailed
      ensures pace <= 0 ==> sent == if end == Published then old(sent) + msgs else old(sent)
      ensures old(HoldsClaim(id, worker)) && pace > 0 ==>
        RenewedBefore(renewals, |sent| - |old(sent)| + (if end == PublishFailed then 1 else 0))
      ensures tasks.State() == Renewed(old(tasks.State()), renewals != {}, id, worker, now)
    {
      renewals := {};
      assert tasks.State() == Renewed(old(tasks.State()), false, id, worker, now);
      if |msgs| == 0 {
        return Published, renewals;
      }
      if pace <= 0 {
        if outside.refused.Some? {
          return PublishFailed, renewals;
        }
        sent := sent + msgs;
        return Published, renewals;
      }
      for i := 0 to |msgs|
        invariant tasks.main == old(tasks.main) && HoldsClaim(id, worker) == old(HoldsClaim(id, worker))
        invariant tasks.State() == Renewed(old(tasks.State()), renewals != {}, id, worker, now)
        invariant sent == old(sent) + msgs[..i]
        invariant !HoldsClaim(id, worker) ==> i <= RENEW_CLAIM_EVERY
        invariant forall j :: 0 <= j < i ==> !StopsAt(outside, j)
        invariant RenewedBefore(renewals, i)
      {
        if i > 0 {
          if outside.cancelled == Some(i) {
            return ContextDone, renewals;
          }
          RenewedBeforeNext(renewals, i);
          if i % RENEW_CLAIM_EVERY == 0 {
            RenewedTwice(old(tasks.State()), renewals != {}, id, worker, now);
            var ok := tasks.RenewSubTaskClaim(id, worker, now);
            renewals := renewals + {i};
            if !ok {
              return ClaimLost, renewals;
            }
          }
        }
        if outside.refused == Some(i) {
          return PublishFailed, renewals;
        }
        assert msgs[..i + 1] == msgs[..i] + [msgs[i]];
        sent := sent + [msgs[i]];
      }
      assert msgs[..|msgs|] == msgs;
      end := Published;
    }

    /** Writes a result and, if the row was still this worker's, lets the aggregator count it. */
    method Report(id: nat, worker: string, success: int, fail: int, status: TaskStatus, now: int) returns (end: RowEnd)
      requires Valid()
      modifies tasks, agg.cache
      ensures end == if old(HoldsClaim(id, worker)) || old(id in tasks.subs && tasks.subs[id].worker == worker && tasks.subs[id].status == Retrying)
                     then Finished(success, fail, status) else Lost
      ensures end == Lost ==> agg.State() == old(agg.State())
      ensures end != Lost && id > 0 ==>
        var r := old(tasks.State()).UpdateSubTaskResult(id, worker, success, fail, status);
        agg.State() == Completed(old(agg.State()).(db := r.db), Call(Some(id), success, fail, Begin), true, now)
    {
      var updated := tasks.UpdateSubTaskResult(id, worker, success, fail, status);
      if !updated {
        return Lost;
      }
      end := Finished(success, fail, status);
      var _ := agg.OnSubFinished(id, success, fail, true, true, now);
    }

    /** The messages of a claimed row, published and reported. */
    method PublishRow(id: nat, worker: string, task: seq<Channel>, chosen: map<string, seq<Channel>>,
                      pace: int, outside: Outside, now: int) returns (end: RowEnd)
      requires Valid() && id in tasks.subs && tasks.subs[id].total == |tasks.subs[id].users|
      modifies tasks, agg.cache, this`sent
      ensures end.Lost? || end.Finished?
      ensures old(sent) <= sent <= old(sent) + Messages(id, old(tasks.subs)[id].users, task, chosen)
      ensures end.Lost? ==> agg.State() == old(agg.State())
      ensures !(end.Finished? && id > 0) || WasReported(old(agg.State()), agg.State(), id, worker, end, now)
      ensures end.Finished? ==>
        || (end.status == Success && end.fail == 0 && sent == old(sent) + Messages(id, old(tasks.subs)[id].users, task, chosen)
            && end.success == |Messages(id, old(tasks.subs)[id].users, task, chosen)|)
        || (end.status == Failed && end.success == 0 && end.fail == old(tasks.subs)[id].total)
      ensures old(HoldsClaim(id, worker)) ==> end.Finished?
      ensures end.Finished? && old(HoldsClaim(id, worker)) ==>
        (end.status == Success <==> AllGoOut(outside, pace, |Messages(id, old(tasks.subs)[id].users, task, chosen)|))
    {
      var row := tasks.subs[id];
      ghost var st := agg.State();
      var msgs := BuildMessages(id, row.users, task, chosen);
      var published; ghost var renewals;
      published, renewals := PublishMsgs(id, worker, msgs, pace, outside, now);
      if pace > 0 && old(HoldsClaim(id, worker)) { EndTells(published, outside, pace, |msgs|, |sent| - |old(sent)|); }
      match published {
        case Published => end := Report(id, worker, |msgs|, 0, Success, now);
        case ClaimLost => end := Lost;
        case _ => end := Report(id, worker, 0, row.total, Failed, now);
      }
      if end.Finished? && id > 0 { ReportIs(st, agg.State(), renewals != {}, id, worker, end, now); }
    }

    /** A claimed row from the status check to its result. */
    method ProcessSubTask(id: nat, worker: string, task: seq<Channel>, chosen: map<string, seq<Channel>>,
                          expired: bool, pace: int, outside: Outside, now: int) returns (end: RowEnd)
      requires Valid() && id in tasks.subs && tasks.subs[id].total == |tasks.subs[id].users|
      modifies tasks, agg.cache, this`sent
      ensures old(sent) <= sent <= old(sent) + Messages(id, old(tasks.subs)[id].users, task, chosen)
      ensures end.MainCancelled? <==> old(tasks.main).status == Cancelled
      ensures end.MainPaused? <==> old(tasks.main).status == Paused
      ensures end.MainCancelled? || end.MainPaused? || expired ==> sent == old(sent)
      ensures end.MainCancelled? ==> agg.State() == old(agg.State()).(db := old(tasks.State()).UpdateSubTaskResult(id, worker, 0, 0, Cancelled).db)
      ensures end.MainPaused? ==> agg.State() == old(agg.State()).(db := old(tasks.State()).ReleaseSubTask(id))
      ensures end.Lost? ==> agg.State() == old(agg.State())
      ensures !(end.Finished? && id > 0) || WasReported(old(agg.State()), agg.State(), id, worker, end, now)
      ensures old(HoldsClaim(id, worker)) && old(tasks.main).status !in {Cancelled, Paused} ==>
        var n := |Messages(id, old(tasks.subs)[id].users, task, chosen)|;
        end == if !expired && AllGoOut(outside, pace, n) then Finished(n, 0, Success) else Finished(0, old(tasks.subs)[id].total, Failed)
      ensures end.Finished? ==> Reportable(old(tasks.main), old(tasks.subs)[id], end.success, end.fail, end.status)
      ensures end.Finished? && end.status == Success ==> sent == old(sent) + Messages(id, old(tasks.subs)[id].users, task, chosen)
    {
      var row := tasks.subs[id];
      if tasks.main.status == Cancelled {
        var _ := tasks.UpdateSubTaskResult(id, worker, 0, 0, Cancelled);
        return MainCancelled;
      }
      if tasks.main.status == Paused {
        tasks.ReleaseSubTask(id);
        return MainPaused;
      }
      if expired {
        end := Report(id, worker, 0, row.total, Failed, now);
        if end.Finished? && id > 0 { ReportIs(old(agg.State()), agg.State(), false, id, worker, end, now); }
        return;
      }
      end := PublishRow(id, worker, task, chosen, pace, outside, now);
    }

    /** The whole of a split by the worker that took the lease: old rows away, split, error exit. `split` is what the
        split itself left. */
    method RunSplit(owner: string, resolve: Resolver, expired: bool, now: int)
      returns (end: SplitEnd, ghost pages: seq<Page>, ghost split: Db)
      requires Valid() && owner != ""
      modifies tasks
      ensures var before := old(tasks.State());
        match before.main.status
        case Cancelled => end == CampaignCancelled && tasks.State() == before.CancelUnfinished().ClearSplitLease(now)
        case Paused => end == CampaignPaused && tasks.State() == before.ClearSplitLease(now)
        case _ =>
          && (end != SplitDone ==> tasks.State() == FailSplitDb(split, before.main.version, owner, now))
          && (end == SplitDone ==> tasks.State() == split)
          && (expired ==> end == CampaignExpired && split == before.DeleteSubTasks())
          && (!Live(before.main, owner) ==> end != SplitDone && split == before.DeleteSubTasks())
          && (Live(before.main, owner) && !expired ==>
                Ended(splitter.cfg, splitter.maxPages, resolve, before.DeleteSubTasks(), owner, before.main.version, end, pages, split, now))
      ensures Live(old(tasks.main), owner) ==>
        && tasks.main.owner == ""
        && tasks.main.status == (if end == SplitDone then Running else Failed)
        && (end != SplitDone ==> tasks.main.version == old(tasks.main).version + 1)
    {
      pages, split := [], tasks.State();
      var task := tasks.main;
      if task.status == Cancelled {
        tasks.CancelUnfinishedSubTasks();
        tasks.ClearSplitLease(now);
        return CampaignCancelled, pages, split;
      }
      if task.status == Paused {
        tasks.ClearSplitLease(now);
        return CampaignPaused, pages, split;
      }
      var _ := tasks.DeleteSubTasksByMainTask();
      ghost var db := tasks.State();
      end, pages := splitter.Split(task, owner, resolve, expired, now);
      split := tasks.State();
      if Live(db.main, owner) && !expired {
        EndedMain(splitter.cfg, splitter.maxPages, resolve, db, owner, end, pages, split, now);
      }
      if end != SplitDone {
        FailSplit(task.version, owner, now);
      }
    }

    /** What a split that returned an error does to the campaign: the protocol's error exit. */
    method FailSplit(version: int, owner: string, now: int)
      modifies tasks
      ensures tasks.State() == FailSplitDb(old(tasks.State()), version, owner, now)
    {
      var cur := tasks.main;
      if cur.status == Cancelled {
        tasks.CancelUnfinishedSubTasks();
        tasks.ClearSplitLease(now);
        return;
      }
      if cur.owner != "" && cur.owner != owner {
        return;
      }
      if cur.status == Paused {
        tasks.ClearSplitLease(now);
        return;
      }
      var _ := tasks.UpdateMainTaskStats(version, 0, 0, 0, Failed, now);
      tasks.ClearSplitLease(now);
    }
  }
}
