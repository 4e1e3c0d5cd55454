/** The review of templates over whole runs of interleaved operations: which status each action leads to, and that nothing
    is approved that was not in review as it is. Writes use the default version, the one their operation read. */
module Reviews {
  import opened Status
  import opened Text
  import opened Templates

  /** A field of an update that is given is taken over, one that is not stays. */
  predicate Taken<T(==)>(given: Option<T>, before: T, after: T) {
    (given.Some? ==> after == given.value) && (given.None? ==> after == before)
  }

  predicate EditTaken(c: Content, e: Edit, c': Content) {
    && Taken(e.name, c.name, c'.name) && Taken(e.body, c.body, c'.body) && Taken(e.contents, c.contents, c'.contents)
    && Taken(e.schema, c.schema, c'.schema) && Taken(e.defaultLocale, c.defaultLocale, c'.defaultLocale)
    && Taken(e.locales, c.locales, c'.locales) && Taken(e.scene, c.scene, c'.scene) && Taken(e.hint, c.hint, c'.hint)
    && (e.policy.None? ==> c'.policy == c.policy)
    && (e.policy.Some? && e.policy.value in {"error", "keep", "default", "empty"} ==> c'.policy == e.policy.value)
    && (e.policy == Some("") ==> c'.policy == "empty")
  }

  /** An update names the template, leaves a text on some channel, and knows its policy and its channel. */
  predicate Acceptable(e: Edit, c': Content) {
    && e.name != Some("")
    && (TrimSpace(c'.body) != "" || exists ch :: ch in c'.contents && TrimSpace(c'.contents[ch].body) != "")
    && (e.policy.Some? ==> e.policy.value in {"", "error", "keep", "default", "empty"})
    && (e.hint.Some? ==> e.hint.value in {"", "app_push", "sms", "email", "inbox", "wecom", "dingtalk"})
  }

  predicate SnapshotWith(versions: seq<Version>, revision: int, c: Content) {
    exists i :: 0 <= i < |versions| && versions[i].revision == revision && Restored(versions[i].content, c)
  }

  /** The snapshot's content; a policy that is none of the four is read as leaving gaps empty. */
  predicate Restored(kept: Content, c: Content) {
    c == kept.(policy := c.policy) && c.policy == (if kept.policy in POLICIES then kept.policy else "empty")
  }

  /** From status to status. */
  predicate Leads(a: Action, from: TemplateStatus, to: TemplateStatus) {
    match a
    case Update(_) => from in {TemplateStatus.Draft, Rejected} && to == from
    case Submit => from in {TemplateStatus.Draft, Rejected} && to == PendingReview
    case Approve => from == PendingReview && to == Approved
    case Reject(_) => from == PendingReview && to == Rejected
    case Disable => from == Approved && to == Disabled
    case Enable => from == Disabled && to == PendingReview
    case Rollback(_) => to == TemplateStatus.Draft
  }

  /** What an action makes of the template it read. */
  predicate Makes(a: Action, row: Row, row': Row, versions: seq<Version>) {
    && Leads(a, row.status, row'.status)
    && (if a.Update? then EditTaken(row.content, a.edit, row'.content) && Acceptable(a.edit, row'.content)
        else if a.Rollback? then SnapshotWith(versions, a.revision, row'.content)
        else row'.content == row.content)
    && row'.revision == row.revision + (if a.Update? || a.Approve? || a.Rollback? then 1 else 0)
    && (if a.Reject? then a.reason != "" && row'.rejectReason == a.reason
        else a.Disable? || a.Enable? || row'.rejectReason == "")
  }

  lemma EditMakes(c: Content, e: Edit)
    requires !BadEdit(e) && HasBody(Edited(c, e))
    ensures EditTaken(c, e, Edited(c, e)) && Acceptable(e, Edited(c, e))
  {
  }

  lemma PreparedMakes(a: Action, row: Row, versions: seq<Version>)
    requires Prepare(a, row, versions).Some?
    ensures Makes(a, row, Prepare(a, row, versions).value, versions)
  {
    if a.Update? { EditMakes(row.content, a.edit); }
    if a.Rollback? {
      FoundVersion(versions, a.revision);
      var i :| 0 <= i < |versions| && versions[i] == FindVersion(versions, a.revision).value && versions[i].revision == a.revision;
      assert Restored(versions[i].content, Prepare(a, row, versions).value.content);
    }
  }

  /** An action is taken up exactly on the statuses it leads from, with what it needs. */
  lemma PreparedIff(a: Action, row: Row, versions: seq<Version>)
    ensures Prepare(a, row, versions).Some? <==>
      match a
      case Update(e) => row.status in {TemplateStatus.Draft, Rejected} && Acceptable(e, Edited(row.content, e))
      case Submit => row.status in {TemplateStatus.Draft, Rejected}
      case Approve => row.status == PendingReview
      case Reject(reason) => row.status == PendingReview && reason != ""
      case Disable => row.status == Approved
      case Enable => row.status == Disabled
      case Rollback(revision) => exists i :: 0 <= i < |versions| && versions[i].revision == revision
  {
    if a.Rollback? { FoundVersion(versions, a.revision); }
  }

  // ---- runs ----

  /** Every write under way is one its action makes of what it read. */
  ghost predicate AllMade(d: Desk) {
    forall op :: op in d.ops && d.ops[op].Writing? ==> Makes(d.ops[op].action, d.ops[op].read, d.ops[op].next, d.versions)
  }

  lemma MadeStays(a: Action, row: Row, row': Row, versions: seq<Version>, v: Version)
    requires Makes(a, row, row', versions)
    ensures Makes(a, row, row', versions + [v])
  {
    if a.Rollback? {
      var i :| 0 <= i < |versions| && versions[i].revision == a.revision && Restored(versions[i].content, row'.content);
      assert (versions + [v])[i] == versions[i];
    }
  }

  lemma SnapMade(d: Desk, op: nat)
    requires AllMade(d) && op in d.ops && d.ops[op].Snapping?
    ensures AllMade(Next(d, Snap(op)))
  {
    var d' := Next(d, Snap(op));
    forall o | o in d'.ops && d'.ops[o].Writing? ensures Makes(d'.ops[o].action, d'.ops[o].read, d'.ops[o].next, d'.versions) {
      MadeStays(d.ops[o].action, d.ops[o].read, d.ops[o].next, d.versions, d.ops[op].version);
    }
  }

  lemma ReadMade(d: Desk, a: Action, expected: Option<int>)
    requires AllMade(d)
    ensures AllMade(ReadStep(d, a, expected))
  {
    if d.row.Some? && Prepare(a, d.row.value, d.versions).Some? { PreparedMakes(a, d.row.value, d.versions); }
  }

  lemma SwapMade(d: Desk, op: nat)
    requires AllMade(d)
    ensures AllMade(SwapStep(d, op))
  {
  }

  lemma NextMade(d: Desk, step: Step)
    requires AllMade(d)
    ensures AllMade(Next(d, step))
  {
    match step
    case Read(a, expected) => ReadMade(d, a, expected);
    case Swap(op) => SwapMade(d, op);
    case Snap(op) => if op in d.ops && d.ops[op].Snapping? { SnapMade(d, op); }
    case _ =>
  }

  lemma {:induction false} AlwaysMade(c: Content, steps: seq<Step>)
    ensures AllMade(After(Created(c), steps))
  {
    if steps != [] {
      AlwaysMade(c, steps[..|steps| - 1]);
      NextMade(After(Created(c), steps[..|steps| - 1]), steps[|steps| - 1]);
    }
  }

  lemma SwapWrites(d: Desk, op: nat)
    requires Swaps(d, op)
    ensures SwapStep(d, op).row == Some(d.ops[op].next.(version := d.row.value.version + 1))
  {
  }

  /** In every run: a write that takes effect does to the template as it stands what its action is for, and raises its
      version by one. */
  lemma DiagramFollowed(c: Content, steps: seq<Step>, op: nat)
    requires DefaultRun(Created(c), steps) && Swaps(After(Created(c), steps), op)
    ensures var d := After(Created(c), steps);
      var row' := Next(d, Swap(op)).row;
      && row'.Some? && row'.value.version == d.row.value.version + 1
      && Makes(d.ops[op].action, d.row.value, row'.value, d.versions)
  {
    var d := After(Created(c), steps);
    DefaultExpects(Created(c), steps);
    AlwaysMade(c, steps);
    SwapWrites(d, op);
    assert d.ops[op].read == d.row.value;
  }

  /** Only writes that take effect change a template, but for its deletion. */
  lemma OnlySwapsWrite(d: Desk, step: Step)
    requires !(step.Swap? && Swaps(d, step.op))
    ensures Next(d, step).row == d.row || Next(d, step).row.None?
  {
  }

  /** After the first n steps the template has this status and this content. */
  predicate Stands(c: Content, steps: seq<Step>, n: nat, status: TemplateStatus, content: Content)
    requires n <= |steps|
  {
    var row := After(Created(c), steps[..n]).row;
    row.Some? && row.value.status == status && row.value.content == content
  }

  lemma {:induction false} DefaultPrefix(d: Desk, steps: seq<Step>, n: nat)
    requires DefaultRun(d, steps) && n <= |steps|
    ensures DefaultRun(d, steps[..n])
  {
    if n < |steps| {
      DefaultPrefix(d, steps[..|steps| - 1], n);
      assert steps[..|steps| - 1][..n] == steps[..n];
    } else {
      assert steps[..n] == steps;
    }
  }

  lemma OneStepOn(c: Content, steps: seq<Step>, n: nat)
    requires n < |steps|
    ensures After(Created(c), steps[..n + 1]) == Next(After(Created(c), steps[..n]), steps[n])
  {
    assert steps[..n + 1][..n] == steps[..n];
  }

  lemma ApprovedFrom(c: Content, steps: seq<Step>, n: nat, content: Content)
    requires DefaultRun(Created(c), steps) && n < |steps| && Stands(c, steps, n + 1, Approved, content)
    ensures Stands(c, steps, n, PendingReview, content) || Stands(c, steps, n, Approved, content)
  {
    DefaultPrefix(Created(c), steps, n);
    OneStepOn(c, steps, n);
    var d := After(Created(c), steps[..n]);
    if steps[n].Swap? && Swaps(d, steps[n].op) {
      DiagramFollowed(c, steps[..n], steps[n].op);
    } else {
      OnlySwapsWrite(d, steps[n]);
    }
  }

  /** In every run: what is approved was in review before, exactly as it is. */
  lemma {:induction false} ApprovedWasInReview(c: Content, steps: seq<Step>, n: nat, content: Content) returns (i: nat)
    requires DefaultRun(Created(c), steps) && n <= |steps| && Stands(c, steps, n, Approved, content)
    ensures i < n && Stands(c, steps, i, PendingReview, content)
  {
    if n == 0 {
      assert false;
    } else {
      ApprovedFrom(c, steps, n - 1, content);
      if Stands(c, steps, n - 1, PendingReview, content) {
        i := n - 1;
      } else {
        i := ApprovedWasInReview(c, steps, n - 1, content);
      }
    }
  }
}
