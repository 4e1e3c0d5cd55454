/** The versions that running splits have read, over every run. */
module SplitVersions {
  import opened Status
  import opened Protocol
  import opened CallRows
  import Fencing

  /** No split read a version of the future; outside a running campaign, or a finished one, none holds the current one. */
  predicate VersionsOk(s: Sys) {
    forall w :: w in s.splits ==>
      && s.splits[w].version <= s.Main().version
      && (s.Main().status in {Draft, Pending, Paused} ==> s.splits[w].version < s.Main().version)
  }

  /** A split keeps the version it read when it began, while the campaign was running. */
  predicate VersionsKept(w: SplitWork, w': SplitWork) {
    forall o :: o in w'.splits ==>
      || (o in w.splits && w'.splits[o].version == w.splits[o].version)
      || (w'.splits[o].version == w'.db.main.version && w'.db.main.status == Running)
  }

  lemma BeginKeepsVersions(w: SplitWork, owner: string, leaseSec: int, now: int)
    ensures VersionsKept(w, SplitBegun(w, w.db.MarkRunning(owner, now), owner))
    ensures VersionsKept(w, SplitBegun(w, w.db.ClaimStaleSplit(owner, now, leaseSec), owner))
  {
  }

  lemma MovesKeepVersions(cfg: Config, w: SplitWork, step: Step)
    requires IsSplitStep(step)
    ensures VersionsKept(w, SplitMoves(cfg, w, step))
  {
    match step
    case StartSplit(owner, now) => BeginKeepsVersions(w, owner, 0, now);
    case TakeOverSplit(owner, lease, now) => BeginKeepsVersions(w, owner, lease, now);
    case _ =>
  }

  lemma NextKeepsVersions(cfg: Config, s: Sys, step: Step)
    ensures VersionsKept(s.Work(), Next(cfg, s, step).Work())
  {
    if IsSplitStep(step) {
      MovesKeepVersions(cfg, s.Work(), step);
    } else {
      OthersLeaveSplits(cfg, s, step);
    }
  }

  lemma OthersLeaveSplits(cfg: Config, s: Sys, step: Step)
    requires !IsSplitStep(step)
    ensures Next(cfg, s, step).splits == s.splits
  {
  }

  lemma VersionsStay(s: Sys, s': Sys)
    requires VersionsOk(s) && VersionsKept(s.Work(), s'.Work()) && Fencing.Raised(s.Main(), s'.Main())
    ensures VersionsOk(s')
  {
  }

  lemma {:induction false} VersionsAlways(cfg: Config, steps: seq<Step>)
    ensures VersionsOk(After(cfg, Init(), steps))
  {
    if steps != [] {
      var n := |steps| - 1;
      var s := After(cfg, Init(), steps[..n]);
      VersionsAlways(cfg, steps[..n]);
      NextKeepsVersions(cfg, s, steps[n]);
      Fencing.NextRaises(cfg, s, steps[n]);
      VersionsStay(s, Next(cfg, s, steps[n]));
    }
  }

  // ---- once the split is done ----

  /** No split still under way holds the current version. */
  predicate AllStale(s: Sys) {
    forall w :: w in s.splits ==> w != "" && s.splits[w].version < s.Main().version
  }

  lemma StaleKept(s: Sys, s': Sys)
    requires AllStale(s) && Fencing.Raised(s.Main(), s'.Main())
    requires forall o :: o in s'.splits ==> o in s.splits && s'.splits[o].version == s.splits[o].version
    ensures AllStale(s')
  {
  }

  lemma StaleStay(cfg: Config, s: Sys, step: Step)
    requires Sealing(s) && s.Main().subTotal > 0 && AllStale(s)
    ensures AllStale(Next(cfg, s, step))
  {
    Fencing.NextRaises(cfg, s, step);
    if IsSplitStep(step) {
      DoneSplitMoves(cfg, s.Work(), step);
    } else {
      OthersLeaveSplits(cfg, s, step);
    }
    StaleKept(s, Next(cfg, s, step));
  }
}
