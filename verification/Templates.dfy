/** Message templates: content with a review status, a lock version, and content revisions with a snapshot each.
    Every operation reads the template, changes its copy, writes it back by compare-and-swap on the version, and
    may then append a snapshot; these three are separate steps here, and any operations may interleave. */
module Templates {
  import opened Status
  import opened Text

  datatype TemplateStatus = Draft | PendingReview | Approved | Rejected | Disabled
  {
    predicate Editable() { Draft? || Rejected? }
    predicate CanSubmit() { Draft? || Rejected? }
    predicate CanReview() { PendingReview? }
  }

  const POLICIES: set<string> := {"error", "keep", "default", "empty"}

  function Normalize(policy: string): string {
    if policy in POLICIES then policy else "empty"
  }

  datatype ChannelContent = ChannelContent(title: string, body: string)

  /** Everything a snapshot keeps. */
  datatype Content = Content(
    name: string, body: string, contents: map<string, ChannelContent>, schema: string, policy: string,
    defaultLocale: string, locales: string, scene: string, hint: string)

  datatype Row = Row(content: Content, status: TemplateStatus, version: int, revision: int, rejectReason: string)

  datatype Version = Version(revision: int, content: Content)

  /** Fields of an update; None leaves a field alone. */
  datatype Edit = Edit(
    name: Option<string>, body: Option<string>, contents: Option<map<string, ChannelContent>>, schema: Option<string>,
    policy: Option<string>, defaultLocale: Option<string>, locales: Option<string>, scene: Option<string>, hint: Option<string>)

  datatype Action =
    | Update(edit: Edit) | Submit | Approve | Reject(reason: string) | Disable | Enable | Rollback(revision: int)
  {
    /** The action makes a new content revision. */
    predicate Snapshots() {
      Update? || Approve? || Rollback?
    }
  }

  predicate HasBody(c: Content) {
    TrimSpace(c.body) != "" || exists ch :: ch in c.contents && TrimSpace(c.contents[ch].body) != ""
  }

  function Or<T>(o: Option<T>, old_: T): T {
    if o.Some? then o.value else old_
  }

  function Edited(c: Content, e: Edit): Content {
    Content(Or(e.name, c.name), Or(e.body, c.body), Or(e.contents, c.contents), Or(e.schema, c.schema),
            if e.policy.Some? then Normalize(e.policy.value) else c.policy,
            Or(e.defaultLocale, c.defaultLocale), Or(e.locales, c.locales), Or(e.scene, c.scene), Or(e.hint, c.hint))
  }

  const CHANNELS: set<string> := {"app_push", "sms", "email", "inbox", "wecom", "dingtalk"}

  predicate BadEdit(e: Edit) {
    || e.name == Some("")
    || (e.policy.Some? && e.policy.value != "" && e.policy.value !in POLICIES)
    || (e.hint.Some? && e.hint.value != "" && e.hint.value !in CHANNELS)
  }

  function FindVersion(versions: seq<Version>, revision: int): Option<Version> {
    if versions == [] then None
    else if versions[0].revision == revision then Some(versions[0])
    else FindVersion(versions[1..], revision)
  }

  /** The changed copy, or None when the operation is refused. */
  function Prepare(a: Action, row: Row, versions: seq<Version>): Option<Row> {
    match a
    case Update(e) =>
      if !row.status.Editable() || BadEdit(e) || !HasBody(Edited(row.content, e)) then None
      else Some(row.(content := Edited(row.content, e), rejectReason := "", revision := row.revision + 1))
    case Submit => if row.status.CanSubmit() then Some(row.(status := PendingReview, rejectReason := "")) else None
    case Approve =>
      if row.status.CanReview() then Some(row.(status := Approved, rejectReason := "", revision := row.revision + 1)) else None
    case Reject(reason) =>
      if row.status.CanReview() && reason != "" then Some(row.(status := Rejected, rejectReason := reason)) else None
    case Disable => if row.status.Approved? then Some(row.(status := Disabled)) else None
    case Enable => if row.status.Disabled? then Some(row.(status := PendingReview)) else None
    case Rollback(revision) =>
      match FindVersion(versions, revision)
      case None => None
      case Some(v) =>
        Some(row.(content := v.content.(policy := Normalize(v.content.policy)), status := TemplateStatus.Draft, rejectReason := "",
                  revision := row.revision + 1))
  }

  // ---- operations under way ----

  /** An operation that has read the template and prepared its copy, or that has written and owes its snapshot. */
  datatype Op = Writing(action: Action, read: Row, next: Row, expected: int) | Snapping(version: Version)

  /** `held` is history: the content while each revision was current; revision 0 is the template as created. */
  datatype Desk = Desk(row: Option<Row>, versions: seq<Version>, ops: map<nat, Op>, nextOp: nat, held: map<int, Content>)

  datatype Step =
    | Read(action: Action, expected: Option<int>)
    | Swap(op: nat)
    | Snap(op: nat)
    | Abandon(op: nat)
    | Delete

  function Created(c: Content): Desk {
    Desk(Some(Row(c, TemplateStatus.Draft, 0, 0, "")), [], map[], 0, map[0 := c])
  }

  function ReadStep(d: Desk, a: Action, expected: Option<int>): Desk {
    if d.row.None? || Prepare(a, d.row.value, d.versions).None? then d
    else
      var row := d.row.value;
      var next := Prepare(a, row, d.versions).value;
      d.(ops := d.ops[d.nextOp := Writing(a, row, next, Or(expected, row.version))], nextOp := d.nextOp + 1)
  }

  /** The write takes effect. */
  predicate Swaps(d: Desk, op: nat) {
    op in d.ops && d.ops[op].Writing? && d.row.Some? && d.row.value.version == d.ops[op].expected
  }

  function SwapStep(d: Desk, op: nat): Desk {
    if op !in d.ops || !d.ops[op].Writing? then d
    else if !Swaps(d, op) then d.(ops := d.ops - {op})
    else
      var o := d.ops[op];
      var next := o.next.(version := o.expected + 1);
      if o.action.Snapshots() then
        d.(row := Some(next), held := d.held[next.revision := next.content],
           ops := d.ops[op := Snapping(Version(next.revision, next.content))])
      else d.(row := Some(next), ops := d.ops - {op})
  }

  function Next(d: Desk, step: Step): Desk {
    match step
    case Read(a, expected) => ReadStep(d, a, expected)
    case Swap(op) => SwapStep(d, op)
    case Snap(op) =>
      if op in d.ops && d.ops[op].Snapping? then d.(versions := d.versions + [d.ops[op].version], ops := d.ops - {op}) else d
    case Abandon(op) => if op in d.ops && d.ops[op].Writing? then d.(ops := d.ops - {op}) else d
    case Delete =>
      if d.row.Some? && d.row.value.status.Editable() then d.(row := None) else d
  }

  function After(d: Desk, steps: seq<Step>): Desk {
    if steps == [] then d else Next(After(d, steps[..|steps| - 1]), steps[|steps| - 1])
  }

  // ---- the invariant ----

  predicate Normal(c: Content) {
    Normalize(c.policy) == c.policy
  }

  /** Revision numbers run from 0 without a gap; the template holds the last. */
  predicate HeldOk(d: Desk) {
    && (forall r :: r in d.held ==> 0 <= r && Normal(d.held[r]))
    && (d.row.Some? ==>
          && d.row.value.revision in d.held && d.held[d.row.value.revision] == d.row.value.content
          && (forall r :: r in d.held ==> r <= d.row.value.revision)
          && (forall r :: 0 <= r <= d.row.value.revision ==> r in d.held)
          && (d.row.value.status in {Approved, Disabled} ==> d.row.value.revision >= 1))
  }

  predicate SnapOk(d: Desk, v: Version) {
    v.revision in d.held && v.revision >= 1 && v.content == d.held[v.revision]
  }

  predicate VersionsOk(d: Desk) {
    && (forall i :: 0 <= i < |d.versions| ==> SnapOk(d, d.versions[i]))
    && (forall i, j :: 0 <= i < j < |d.versions| ==> d.versions[i].revision != d.versions[j].revision)
  }

  predicate HasVersion(d: Desk, r: int) {
    exists i :: 0 <= i < |d.versions| && d.versions[i].revision == r
  }

  predicate Owed(d: Desk, r: int) {
    exists op :: op in d.ops && d.ops[op].Snapping? && d.ops[op].version.revision == r
  }

  /** What a write under way may do to the template it read. */
  predicate WriteOk(d: Desk, o: Op)
    requires o.Writing?
  {
    && o.read.revision in d.held && d.held[o.read.revision] == o.read.content
    && Normal(o.next.content)
    && (if o.action.Snapshots() then o.next.revision == o.read.revision + 1
        else o.next.revision == o.read.revision && o.next.content == o.read.content)
    && (o.next.status in {Approved, Disabled} ==> o.action.Approve? || o.read.revision >= 1)
    && (o.action.Rollback? ==> o.action.revision in d.held && o.next.content == d.held[o.action.revision])
  }

  predicate OpsOk(d: Desk) {
    && (forall op :: op in d.ops ==> op < d.nextOp)
    && (forall op :: op in d.ops && d.ops[op].Writing? ==> WriteOk(d, d.ops[op]))
    && (forall op :: op in d.ops && d.ops[op].Snapping? ==>
          SnapOk(d, d.ops[op].version) && !HasVersion(d, d.ops[op].version.revision))
    && (forall a, b :: a in d.ops && b in d.ops && a != b && d.ops[a].Snapping? && d.ops[b].Snapping? ==>
          d.ops[a].version.revision != d.ops[b].version.revision)
  }

  /** Every revision since creation has its snapshot, or one is owed. */
  predicate AllSnapped(d: Desk) {
    forall r :: r in d.held && r >= 1 ==> HasVersion(d, r) || Owed(d, r)
  }

  predicate Inv(d: Desk) {
    HeldOk(d) && VersionsOk(d) && OpsOk(d) && AllSnapped(d)
  }

  /** A write that takes effect was made from a copy with the current revision. */
  predicate FromCurrent(d: Desk, step: Step) {
    step.Swap? && Swaps(d, step.op) ==> d.ops[step.op].read.revision == d.row.value.revision
  }

  lemma CreatedInv(c: Content)
    requires Normal(c)
    ensures Inv(Created(c))
  {
  }

  lemma {:induction false} FoundVersion(versions: seq<Version>, revision: int)
    ensures FindVersion(versions, revision).Some? ==>
              exists i :: 0 <= i < |versions| && versions[i] == FindVersion(versions, revision).value && versions[i].revision == revision
    ensures FindVersion(versions, revision).None? ==> forall i :: 0 <= i < |versions| ==> versions[i].revision != revision
  {
    if versions != [] && versions[0].revision != revision {
      FoundVersion(versions[1..], revision);
      if FindVersion(versions, revision).Some? {
        var i :| 0 <= i < |versions[1..]| && versions[1..][i] == FindVersion(versions, revision).value && versions[1..][i].revision == revision;
        assert versions[i + 1] == versions[1..][i];
      }
    }
  }

  lemma EditedNormal(c: Content, e: Edit)
    requires Normal(c)
    ensures Normal(Edited(c, e))
  {
  }

  lemma PreparedOk(d: Desk, a: Action, expected: int)
    requires Inv(d) && d.row.Some? && Prepare(a, d.row.value, d.versions).Some?
    ensures WriteOk(d, Writing(a, d.row.value, Prepare(a, d.row.value, d.versions).value, expected))
  {
    var row := d.row.value;
    if a.Update? { EditedNormal(row.content, a.edit); }
    if a.Rollback? {
      FoundVersion(d.versions, a.revision);
      var i :| 0 <= i < |d.versions| && d.versions[i] == FindVersion(d.versions, a.revision).value && d.versions[i].revision == a.revision;
      assert SnapOk(d, d.versions[i]);
    }
  }

  lemma OwedStays(d: Desk, d': Desk)
    requires forall op :: op in d.ops && d.ops[op].Snapping? ==> op in d'.ops && d'.ops[op] == d.ops[op]
    requires d'.held == d.held && d'.versions == d.versions && AllSnapped(d)
    ensures AllSnapped(d')
  {
    forall r | r in d'.held && r >= 1 ensures HasVersion(d', r) || Owed(d', r) {
      if HasVersion(d, r) {
        assert HasVersion(d', r);
      } else {
        var op :| op in d.ops && d.ops[op].Snapping? && d.ops[op].version.revision == r;
        assert d'.ops[op].version.revision == r;
      }
    }
  }

  lemma WritingAdded(d: Desk, o: Op)
    requires OpsOk(d) && o.Writing? && WriteOk(d, o)
    ensures OpsOk(d.(ops := d.ops[d.nextOp := o], nextOp := d.nextOp + 1))
  {
    var d' := d.(ops := d.ops[d.nextOp := o], nextOp := d.nextOp + 1);
    assert forall r :: HasVersion(d', r) == HasVersion(d, r);
    forall op | op in d'.ops && d'.ops[op].Writing? ensures WriteOk(d', d'.ops[op]) {
      assert op != d.nextOp ==> WriteOk(d, d.ops[op]);
    }
    forall op | op in d'.ops && d'.ops[op].Snapping?
      ensures SnapOk(d', d'.ops[op].version) && !HasVersion(d', d'.ops[op].version.revision)
    {
      assert SnapOk(d, d.ops[op].version);
    }
  }

  lemma ReadKeeps(d: Desk, a: Action, expected: Option<int>)
    requires Inv(d)
    ensures Inv(ReadStep(d, a, expected))
  {
    if d.row.Some? && Prepare(a, d.row.value, d.versions).Some? {
      var version := Or(expected, d.row.value.version);
      PreparedOk(d, a, version);
      WritingAdded(d, Writing(a, d.row.value, Prepare(a, d.row.value, d.versions).value, version));
      OwedStays(d, ReadStep(d, a, expected));
    }
  }

  lemma EndedOps(d: Desk, d': Desk, op: nat)
    requires OpsOk(d) && d' == d.(ops := d.ops - {op})
    ensures OpsOk(d')
  {
    assert forall r :: HasVersion(d', r) == HasVersion(d, r);
    forall o | o in d'.ops && d'.ops[o].Writing? ensures WriteOk(d', d'.ops[o]) {
      assert WriteOk(d, d.ops[o]);
    }
    forall o | o in d'.ops && d'.ops[o].Snapping?
      ensures SnapOk(d', d'.ops[o].version) && !HasVersion(d', d'.ops[o].version.revision)
    {
      assert SnapOk(d, d.ops[o].version);
    }
  }

  /** Ending an operation that owes nothing. */
  lemma EndKeeps(d: Desk, op: nat)
    requires Inv(d) && op in d.ops && d.ops[op].Writing?
    ensures Inv(d.(ops := d.ops - {op}))
  {
    var d' := d.(ops := d.ops - {op});
    EndedOps(d, d', op);
    OwedStays(d, d');
    forall i | 0 <= i < |d'.versions| ensures SnapOk(d', d'.versions[i]) {
      assert SnapOk(d, d.versions[i]);
    }
  }

  /** A write that makes no new revision. */
  lemma PlainSwapKeeps(d: Desk, op: nat)
    requires Inv(d) && Swaps(d, op) && !d.ops[op].action.Snapshots() && FromCurrent(d, Swap(op))
    ensures Inv(SwapStep(d, op))
  {
    assert WriteOk(d, d.ops[op]);
    EndKeeps(d, op);
    var d' := SwapStep(d, op);
    forall o | o in d'.ops && d'.ops[o].Writing? ensures WriteOk(d', d'.ops[o]) {
      assert WriteOk(d, d.ops[o]);
    }
  }

  /** A write that makes a new revision: its number was never used. */
  lemma NewRevision(d: Desk, op: nat)
    requires Inv(d) && Swaps(d, op) && d.ops[op].action.Snapshots() && FromCurrent(d, Swap(op))
    ensures d.ops[op].next.revision == d.row.value.revision + 1
    ensures d.ops[op].next.revision !in d.held && !HasVersion(d, d.ops[op].next.revision) && !Owed(d, d.ops[op].next.revision)
  {
    assert WriteOk(d, d.ops[op]);
    var r := d.ops[op].next.revision;
    forall i | 0 <= i < |d.versions| ensures d.versions[i].revision != r { assert SnapOk(d, d.versions[i]); }
    forall o | o in d.ops && d.ops[o].Snapping? ensures d.ops[o].version.revision != r { assert SnapOk(d, d.ops[o].version); }
  }

  lemma SnapshotSwapKeeps(d: Desk, op: nat)
    requires Inv(d) && Swaps(d, op) && d.ops[op].action.Snapshots() && FromCurrent(d, Swap(op))
    ensures Inv(SwapStep(d, op))
  {
    NewRevision(d, op);
    var d' := SwapStep(d, op);
    SwappedHeld(d, d', op);
    SwappedOps(d, d', op);
    SwappedSnaps(d, d', op);
  }

  lemma SwappedHeld(d: Desk, d': Desk, op: nat)
    requires HeldOk(d) && VersionsOk(d) && Swaps(d, op) && WriteOk(d, d.ops[op]) && d.ops[op].action.Snapshots()
    requires d.ops[op].read.revision == d.row.value.revision && d.ops[op].next.revision !in d.held
    requires d' == SwapStep(d, op)
    ensures HeldOk(d') && VersionsOk(d')
  {
    forall i | 0 <= i < |d'.versions| ensures SnapOk(d', d'.versions[i]) {
      assert SnapOk(d, d.versions[i]);
    }
  }

  lemma SwappedOps(d: Desk, d': Desk, op: nat)
    requires OpsOk(d) && Swaps(d, op) && d.ops[op].action.Snapshots()
    requires WriteOk(d, d.ops[op])
    requires d.ops[op].next.revision !in d.held && d.ops[op].next.revision >= 1 && !HasVersion(d, d.ops[op].next.revision)
    requires d' == SwapStep(d, op)
    ensures OpsOk(d')
  {
    var r := d.ops[op].next.revision;
    assert forall x :: HasVersion(d', x) == HasVersion(d, x);
    forall o | o in d'.ops && d'.ops[o].Writing? ensures WriteOk(d', d'.ops[o]) {
      assert WriteOk(d, d.ops[o]);
    }
    forall o | o in d'.ops && d'.ops[o].Snapping?
      ensures SnapOk(d', d'.ops[o].version) && !HasVersion(d', d'.ops[o].version.revision)
      ensures o != op ==> d'.ops[o].version.revision != r
    {
      if o != op { assert SnapOk(d, d.ops[o].version); }
    }
  }

  lemma SwappedSnaps(d: Desk, d': Desk, op: nat)
    requires AllSnapped(d) && Swaps(d, op) && d.ops[op].action.Snapshots() && d' == SwapStep(d, op)
    ensures AllSnapped(d')
  {
    forall r | r in d'.held && r >= 1 ensures HasVersion(d', r) || Owed(d', r) {
      if r == d.ops[op].next.revision {
        assert op in d'.ops && d'.ops[op].Snapping?;
      } else if HasVersion(d, r) {
        assert HasVersion(d', r);
      } else {
        var o :| o in d.ops && d.ops[o].Snapping? && d.ops[o].version.revision == r;
        assert o in d'.ops && d'.ops[o] == d.ops[o];
      }
    }
  }

  lemma SnapKeeps(d: Desk, op: nat)
    requires Inv(d) && op in d.ops && d.ops[op].Snapping?
    ensures Inv(Next(d, Snap(op)))
  {
    SnapKeepsVersions(d, op);
    SnapKeepsOps(d, op);
    SnapPaysOne(d, op);
  }

  lemma SnapKeepsVersions(d: Desk, op: nat)
    requires VersionsOk(d) && OpsOk(d) && op in d.ops && d.ops[op].Snapping?
    ensures VersionsOk(Next(d, Snap(op)))
  {
    var d' := Next(d, Snap(op));
    var v := d.ops[op].version;
    forall i | 0 <= i < |d.versions| ensures d.versions[i].revision != v.revision {
      assert !HasVersion(d, v.revision);
    }
    forall i | 0 <= i < |d'.versions| ensures SnapOk(d', d'.versions[i]) {
      assert i < |d.versions| ==> SnapOk(d, d.versions[i]);
      assert SnapOk(d, v);
    }
  }

  lemma SnapKeepsOps(d: Desk, op: nat)
    requires OpsOk(d) && op in d.ops && d.ops[op].Snapping?
    ensures OpsOk(Next(d, Snap(op)))
  {
    var d' := Next(d, Snap(op));
    VersionAdded(d, d', d.ops[op].version);
    forall o | o in d'.ops && d'.ops[o].Writing? ensures WriteOk(d', d'.ops[o]) {
      assert WriteOk(d, d.ops[o]);
    }
    forall o | o in d'.ops && d'.ops[o].Snapping?
      ensures SnapOk(d', d'.ops[o].version) && !HasVersion(d', d'.ops[o].version.revision)
    {
      assert SnapOk(d, d.ops[o].version) && d'.ops[o] == d.ops[o];
    }
  }

  lemma SnapPaysOne(d: Desk, op: nat)
    requires AllSnapped(d) && op in d.ops && d.ops[op].Snapping?
    ensures AllSnapped(Next(d, Snap(op)))
  {
    var d' := Next(d, Snap(op));
    var v := d.ops[op].version;
    VersionAdded(d, d', v);
    forall r | r in d'.held && r >= 1 ensures HasVersion(d', r) || Owed(d', r) {
      if !HasVersion(d, r) && r != v.revision {
        var o :| o in d.ops && d.ops[o].Snapping? && d.ops[o].version.revision == r;
        assert o in d'.ops;
      }
    }
  }

  lemma VersionAdded(d: Desk, d': Desk, v: Version)
    requires d'.versions == d.versions + [v]
    ensures forall r :: HasVersion(d', r) <==> HasVersion(d, r) || r == v.revision
  {
    forall r ensures HasVersion(d', r) <==> HasVersion(d, r) || r == v.revision {
      if HasVersion(d, r) {
        var i :| 0 <= i < |d.versions| && d.versions[i].revision == r;
        assert d'.versions[i] == d.versions[i];
      }
      assert d'.versions[|d.versions|] == v;
    }
  }

  lemma NextKeeps(d: Desk, step: Step)
    requires Inv(d) && FromCurrent(d, step)
    ensures Inv(Next(d, step))
  {
    match step
    case Read(a, expected) => ReadKeeps(d, a, expected);
    case Swap(op) =>
      if Swaps(d, op) {
        if d.ops[op].action.Snapshots() { SnapshotSwapKeeps(d, op); } else { PlainSwapKeeps(d, op); }
      } else if op in d.ops && d.ops[op].Writing? {
        EndKeeps(d, op);
      }
    case Snap(op) => if op in d.ops && d.ops[op].Snapping? { SnapKeeps(d, op); }
    case Abandon(op) => if op in d.ops && d.ops[op].Writing? { EndKeeps(d, op); }
    case Delete => DeleteKeeps(d);
  }

  lemma DeleteKeeps(d: Desk)
    requires Inv(d)
    ensures Inv(Next(d, Delete))
  {
    var d' := Next(d, Delete);
    forall r | Owed(d, r) ensures Owed(d', r) {
      var o :| o in d.ops && d.ops[o].Snapping? && d.ops[o].version.revision == r;
      assert o in d'.ops;
    }
    assert forall r :: HasVersion(d', r) == HasVersion(d, r);
  }

  // ---- runs ----

  /** Every write that takes effect, whether it makes a revision or not, was made from the current revision. */
  predicate CurrentRun(d: Desk, steps: seq<Step>) {
    steps != [] ==>
      var n := |steps| - 1;
      CurrentRun(d, steps[..n]) && FromCurrent(After(d, steps[..n]), steps[n])
  }

  lemma {:induction false} RunKeeps(d: Desk, steps: seq<Step>)
    requires Inv(d) && CurrentRun(d, steps)
    ensures Inv(After(d, steps))
  {
    if steps != [] {
      var n := |steps| - 1;
      RunKeeps(d, steps[..n]);
      NextKeeps(After(d, steps[..n]), steps[n]);
    }
  }

  predicate RevisionsDistinct(versions: seq<Version>) {
    forall i, j :: 0 <= i < j < |versions| ==> versions[i].revision != versions[j].revision
  }

  /** An approved or disabled template whose snapshot is not owed any more is exactly the snapshot of its revision. */
  predicate ApprovedIsSnapshot(d: Desk) {
    d.row.Some? && d.row.value.status in {Approved, Disabled} && !Owed(d, d.row.value.revision) ==>
      FindVersion(d.versions, d.row.value.revision) == Some(Version(d.row.value.revision, d.row.value.content))
  }

  lemma InvAgrees(d: Desk)
    requires Inv(d)
    ensures RevisionsDistinct(d.versions) && ApprovedIsSnapshot(d)
  {
    if d.row.Some? { SnapshotIsContent(d); }
  }

  /** In every run whose writes are made from the current revision, each revision number names at most one snapshot, and
      an approved or disabled template is the snapshot of its revision. */
  lemma HistoryAgrees(c: Content, steps: seq<Step>)
    requires Normal(c) && CurrentRun(Created(c), steps)
    ensures RevisionsDistinct(After(Created(c), steps).versions) && ApprovedIsSnapshot(After(Created(c), steps))
  {
    CreatedInv(c);
    RunKeeps(Created(c), steps);
    InvAgrees(After(Created(c), steps));
  }

  lemma SnapshotIsContent(d: Desk)
    requires Inv(d) && d.row.Some?
    ensures d.row.value.revision >= 1 && !Owed(d, d.row.value.revision) ==>
      FindVersion(d.versions, d.row.value.revision) == Some(Version(d.row.value.revision, d.row.value.content))
  {
    var r := d.row.value.revision;
    FoundVersion(d.versions, r);
    if r >= 1 && !Owed(d, r) {
      assert HasVersion(d, r);
      var i :| 0 <= i < |d.versions| && d.versions[i] == FindVersion(d.versions, r).value && d.versions[i].revision == r;
      assert SnapOk(d, d.versions[i]);
    }
  }

  /** A rollback that takes effect puts back exactly the content held at the revision it names, as a new draft. */
  lemma RollbackRestores(c: Content, steps: seq<Step>, op: nat)
    requires Normal(c) && CurrentRun(Created(c), steps)
    requires var d := After(Created(c), steps); Swaps(d, op) && d.ops[op].action.Rollback? && FromCurrent(d, Swap(op))
    ensures var d := After(Created(c), steps);
      var d' := Next(d, Swap(op));
      var r := d.ops[op].action.revision;
      && r in d.held && d'.row.Some? && d'.row.value.content == d.held[r]
      && d'.row.value.revision == d.row.value.revision + 1 && d'.row.value.revision !in d.held
  {
    CreatedInv(c);
    RunKeeps(Created(c), steps);
    var d := After(Created(c), steps);
    NewRevision(d, op);
    assert WriteOk(d, d.ops[op]);
  }

  /** A revision's content never changes afterwards. */
  lemma HeldStays(d: Desk, step: Step, r: int)
    requires Inv(d) && FromCurrent(d, step) && r in d.held
    ensures r in Next(d, step).held && Next(d, step).held[r] == d.held[r]
  {
    if step.Swap? && Swaps(d, step.op) && d.ops[step.op].action.Snapshots() {
      NewRevision(d, step.op);
    }
  }

  // ---- the default version: the one the operation read ----

  predicate DefaultVersion(d: Desk, step: Step) {
    step.Read? && step.expected.Some? && d.row.Some? ==> step.expected.value == d.row.value.version
  }

  predicate DefaultRun(d: Desk, steps: seq<Step>) {
    steps != [] ==>
      var n := |steps| - 1;
      DefaultRun(d, steps[..n]) && DefaultVersion(After(d, steps[..n]), steps[n])
  }

  /** A write under way expects the version it read, and that version had one content only. */
  predicate Expecting(d: Desk) {
    && (forall op :: op in d.ops ==> op < d.nextOp)
    && (d.row.Some? ==> forall op :: op in d.ops && d.ops[op].Writing? ==>
          var o := d.ops[op];
          && o.expected == o.read.version <= d.row.value.version
          && (o.expected == d.row.value.version ==> o.read == d.row.value))
  }

  lemma ExpectingStays(d: Desk, step: Step)
    requires Expecting(d) && DefaultVersion(d, step)
    ensures Expecting(Next(d, step))
  {
  }

  lemma {:induction false} DefaultExpects(d: Desk, steps: seq<Step>)
    requires Expecting(d) && DefaultRun(d, steps)
    ensures Expecting(After(d, steps))
  {
    if steps != [] {
      var n := |steps| - 1;
      DefaultExpects(d, steps[..n]);
      ExpectingStays(After(d, steps[..n]), steps[n]);
    }
  }

  lemma ExpectingIsCurrent(d: Desk, step: Step)
    requires Expecting(d)
    ensures FromCurrent(d, step)
  {
  }

  /** With default versions, the compare-and-swap itself sees to it that writes are made from the current revision. */
  lemma {:induction false} DefaultIsCurrent(c: Content, steps: seq<Step>)
    requires DefaultRun(Created(c), steps)
    ensures CurrentRun(Created(c), steps)
  {
    if steps != [] {
      var n := |steps| - 1;
      DefaultIsCurrent(c, steps[..n]);
      DefaultExpects(Created(c), steps[..n]);
      ExpectingIsCurrent(After(Created(c), steps[..n]), steps[n]);
    }
  }

  // ---- an explicit expected version ----

  /** Whatever later writes made from the current revision follow, no revision number names two snapshots. */
  ghost predicate StaysDistinct(d: Desk) {
    forall steps :: CurrentRun(d, steps) ==> RevisionsDistinct(After(d, steps).versions)
  }

  /** A write that takes effect, of either kind, leaves a history that stays sound if and only if it was made from a copy
      with the current revision. */
  lemma StaleIff(d: Desk, op: nat)
    requires Inv(d) && Swaps(d, op)
    ensures StaysDistinct(SwapStep(d, op)) <==> d.ops[op].read.revision == d.row.value.revision
  {
    var d' := SwapStep(d, op);
    if d.ops[op].read.revision == d.row.value.revision {
      NextKeeps(d, Swap(op));
      forall steps | CurrentRun(d', steps) ensures RevisionsDistinct(After(d', steps).versions) {
        RunKeeps(d', steps);
        InvAgrees(After(d', steps));
      }
    } else {
      StaleBreaks(d, op);
    }
  }

  /** The desk with the snapshot of revision r stored, if it was owed. */
  predicate HasNow(d: Desk, d': Desk, r: int) {
    HasVersion(d', r) && d'.row == d.row && (forall o :: o in d'.ops ==> o in d.ops && d'.ops[o] == d.ops[o]) && d'.nextOp == d.nextOp
  }

  ghost predicate Reaches(d: Desk, d': Desk) {
    exists steps :: CurrentRun(d, steps) && After(d, steps) == d'
  }

  lemma ReachesOn(d: Desk, d1: Desk, step: Step)
    requires Reaches(d, d1) && FromCurrent(d1, step)
    ensures Reaches(d, Next(d1, step))
  {
    var steps :| CurrentRun(d, steps) && After(d, steps) == d1;
    CurrentMore(d, steps, step, d1);
  }

  lemma CurrentMore(d: Desk, steps: seq<Step>, step: Step, d1: Desk)
    requires CurrentRun(d, steps) && After(d, steps) == d1 && FromCurrent(d1, step)
    ensures CurrentRun(d, steps + [step]) && After(d, steps + [step]) == Next(d1, step)
  {
    assert (steps + [step])[..|steps|] == steps;
  }

  lemma ReachesHere(d: Desk)
    ensures Reaches(d, d)
  {
    assert CurrentRun(d, []) && After(d, []) == d;
  }

  lemma StoreOwed(d0: Desk, d: Desk, r: int) returns (d': Desk)
    requires Reaches(d0, d) && (HasVersion(d, r) || Owed(d, r))
    ensures Reaches(d0, d') && HasNow(d, d', r)
  {
    d' := d;
    if !HasVersion(d, r) {
      var o :| o in d.ops && d.ops[o].Snapping? && d.ops[o].version.revision == r;
      d' := Next(d, Snap(o));
      ReachesOn(d0, d, Snap(o));
      VersionAdded(d, d', d.ops[o].version);
    }
  }

  lemma TwiceIsNotDistinct(versions: seq<Version>, v: Version)
    requires exists i :: 0 <= i < |versions| && versions[i].revision == v.revision
    ensures !RevisionsDistinct(versions + [v])
  {
    var i :| 0 <= i < |versions| && versions[i].revision == v.revision;
    var n := |versions|;
    assert (versions + [v])[i].revision == (versions + [v])[n].revision;
  }

  /** A write that owes the snapshot of a revision that another snapshot already names. */
  lemma SecondSnapshot(d0: Desk, d: Desk, op: nat)
    requires Reaches(d0, d) && op in d.ops && d.ops[op].Snapping? && HasVersion(d, d.ops[op].version.revision)
    ensures !StaysDistinct(d0)
  {
    ReachesOn(d0, d, Snap(op));
    var d' := Next(d, Snap(op));
    TwiceIsNotDistinct(d.versions, d.ops[op].version);
    var steps :| CurrentRun(d0, steps) && After(d0, steps) == d';
  }

  lemma RollbackAlone(d: Desk, r: int)
    requires d.row.Some? && HasVersion(d, r) && r == d.row.value.revision + 1
    ensures var d1 := Next(d, Read(Rollback(r), None));
      var d2 := Next(d1, Swap(d.nextOp));
      && FromCurrent(d1, Swap(d.nextOp)) && d2.versions == d.versions
      && d.nextOp in d2.ops && d2.ops[d.nextOp].Snapping? && d2.ops[d.nextOp].version.revision == r && HasVersion(d2, r)
  {
    FoundVersion(d.versions, r);
    var i :| 0 <= i < |d.versions| && d.versions[i].revision == r;
  }

  /** A rollback reaches the revision after the template's, which already has its snapshot. */
  lemma RollbackRepeats(d0: Desk, d: Desk)
    requires Reaches(d0, d) && d.row.Some? && HasVersion(d, d.row.value.revision + 1)
    ensures !StaysDistinct(d0)
  {
    var r := d.row.value.revision + 1;
    var d1 := Next(d, Read(Rollback(r), None));
    RollbackAlone(d, r);
    ReachesOn(d0, d, Read(Rollback(r), None));
    ReachesOn(d0, d1, Swap(d.nextOp));
    SecondSnapshot(d0, Next(d1, Swap(d.nextOp)), d.nextOp);
  }

  lemma StaleBreaks(d: Desk, op: nat)
    requires Inv(d) && Swaps(d, op) && d.ops[op].read.revision != d.row.value.revision
    ensures !StaysDistinct(SwapStep(d, op))
  {
    var o := d.ops[op];
    var r := o.read.revision + 1;
    assert WriteOk(d, o) && r in d.held;
    var d' := SwapStep(d, op);
    ReachesHere(d');
    StaleKeepsOwed(d, op, r);
    if o.action.Snapshots() {
      if HasVersion(d', r) {
        SecondSnapshot(d', d', op);
      } else {
        var q :| q in d.ops && d.ops[q].Snapping? && d.ops[q].version.revision == r;
        var d1 := Next(d', Snap(q));
        ReachesOn(d', d', Snap(q));
        VersionAdded(d', d1, d.ops[q].version);
        SecondSnapshot(d', d1, op);
      }
    } else {
      var d1 := StoreOwed(d', d', r);
      RollbackRepeats(d', d1);
    }
  }

  lemma StaleKeepsOwed(d: Desk, op: nat, r: int)
    requires Swaps(d, op) && (HasVersion(d, r) || Owed(d, r))
    ensures HasVersion(SwapStep(d, op), r) || Owed(SwapStep(d, op), r)
    ensures HasVersion(SwapStep(d, op), r) == HasVersion(d, r)
  {
    var d' := SwapStep(d, op);
    assert d'.versions == d.versions;
    if !HasVersion(d, r) {
      var q :| q in d.ops && d.ops[q].Snapping? && d.ops[q].version.revision == r;
      assert q in d'.ops && d'.ops[q] == d.ops[q];
    }
  }

  const PLAIN := Content("n", "b", map[], "", "empty", "", "", "", "")

  function Rename(name: string): Action {
    Update(Edit(Some(name), None, None, None, None, None, None, None, None))
  }

  /** Two writers read the same template; the second names the version the first one's write will give it, and so
      overwrites that write under the same revision number. */
  const OVERTAKING: seq<Step> := [Read(Rename("x"), None), Read(Rename("y"), Some(1)), Swap(0), Snap(0), Swap(1), Snap(1)]

  const X := PLAIN.(name := "x")
  const Y := PLAIN.(name := "y")
  const AS_CREATED := Row(PLAIN, TemplateStatus.Draft, 0, 0, "")
  const WRITE_X := Writing(Rename("x"), AS_CREATED, Row(X, TemplateStatus.Draft, 0, 1, ""), 0)
  const WRITE_Y := Writing(Rename("y"), AS_CREATED, Row(Y, TemplateStatus.Draft, 0, 1, ""), 1)
  const ONE_READ := Desk(Some(AS_CREATED), [], map[0 := WRITE_X], 1, map[0 := PLAIN])
  const BOTH_READ := Desk(Some(AS_CREATED), [], map[0 := WRITE_X, 1 := WRITE_Y], 2, map[0 := PLAIN])
  const X_WRITTEN := Desk(Some(Row(X, TemplateStatus.Draft, 1, 1, "")), [Version(1, X)], map[1 := WRITE_Y], 2, map[0 := PLAIN, 1 := X])

  lemma Renamed(name: string)
    requires name != ""
    ensures Prepare(Rename(name), AS_CREATED, []) == Some(Row(PLAIN.(name := name), TemplateStatus.Draft, 0, 1, ""))
  {
    assert TrimSpace("b") == "b";
    assert HasBody(Edited(PLAIN, Rename(name).edit));
  }

  lemma BothRead()
    ensures After(Created(PLAIN), OVERTAKING[..2]) == BOTH_READ
  {
    Renamed("x");
    Renamed("y");
    assert Next(Created(PLAIN), OVERTAKING[0]) == ONE_READ;
    assert Next(ONE_READ, OVERTAKING[1]) == BOTH_READ;
    assert OVERTAKING[..0] == [];
    StepOn(OVERTAKING, 0);
    StepOn(OVERTAKING, 1);
  }

  lemma WriteX()
    ensures Next(Next(BOTH_READ, Swap(0)), Snap(0)) == X_WRITTEN
  {
    var d := Next(BOTH_READ, Swap(0));
    assert d.ops == map[0 := Snapping(Version(1, X)), 1 := WRITE_Y];
  }

  lemma XWritten()
    ensures After(Created(PLAIN), OVERTAKING[..4]) == X_WRITTEN
  {
    BothRead();
    WriteX();
    TwoMore(OVERTAKING, 2);
  }

  lemma TwoMore(steps: seq<Step>, i: nat)
    requires i + 1 < |steps|
    ensures After(Created(PLAIN), steps[..i + 2]) == Next(Next(After(Created(PLAIN), steps[..i]), steps[i]), steps[i + 1])
  {
    StepOn(steps, i);
    StepOn(steps, i + 1);
  }

  lemma YWritten()
    ensures Next(Next(X_WRITTEN, Swap(1)), Snap(1)).versions == [Version(1, X), Version(1, Y)]
  {
  }

  lemma ExplicitVersionReuses()
    ensures After(Created(PLAIN), OVERTAKING).versions == [Version(1, X), Version(1, Y)] && X != Y
  {
    XWritten();
    YWritten();
    assert OVERTAKING[..6] == OVERTAKING;
    StepOn(OVERTAKING, 4);
    StepOn(OVERTAKING, 5);
  }

  lemma StepOn(steps: seq<Step>, i: nat)
    requires i < |steps|
    ensures After(Created(PLAIN), steps[..i + 1]) == Next(After(Created(PLAIN), steps[..i]), steps[i])
  {
    assert steps[..i + 1][..i] == steps[..i];
  }

  /** A rejection made from a stale copy, by a reviewer who names a version still to come, takes the template back to
      revision 0 and to the content it had then; the next update, made in the ordinary way, repeats revision 1. */
  const SETTING_BACK: seq<Step> := [
    Read(Submit, None), Swap(0), Read(Reject("no"), Some(3)), Read(Reject("no"), None), Swap(2),
    Read(Rename("x"), None), Swap(3), Snap(3), Swap(1), Read(Rename("y"), None), Swap(4), Snap(4)]

  const REJECTED := Row(PLAIN, TemplateStatus.Rejected, 2, 0, "no")
  const SUBMITTED := Row(PLAIN, TemplateStatus.PendingReview, 1, 0, "")
  const STALE_REJECT := Writing(Reject("no"), SUBMITTED, Row(PLAIN, TemplateStatus.Rejected, 1, 0, "no"), 3)
  const TWICE_REJECTED := Desk(Some(REJECTED), [], map[1 := STALE_REJECT], 3, map[0 := PLAIN])
  const X_AFTER_REJECT := Desk(Some(Row(X, TemplateStatus.Rejected, 3, 1, "")), [Version(1, X)], map[1 := STALE_REJECT], 4,
                               map[0 := PLAIN, 1 := X])
  const SET_BACK := Desk(Some(Row(PLAIN, TemplateStatus.Rejected, 4, 0, "no")), [Version(1, X)], map[], 4, map[0 := PLAIN, 1 := X])

  lemma RejectedTwice()
    ensures After(Created(PLAIN), SETTING_BACK[..5]) == TWICE_REJECTED
  {
    assert SETTING_BACK[..0] == [];
    StepOn(SETTING_BACK, 0);
    StepOn(SETTING_BACK, 1);
    StepOn(SETTING_BACK, 2);
    StepOn(SETTING_BACK, 3);
    StepOn(SETTING_BACK, 4);
    SubmitAlone();
    RejectTwice();
  }

  const IN_REVIEW := Desk(Some(SUBMITTED), [], map[], 1, map[0 := PLAIN])

  lemma SubmitAlone()
    ensures Next(Next(Created(PLAIN), SETTING_BACK[0]), SETTING_BACK[1]) == IN_REVIEW
  {
    var d1 := Next(Created(PLAIN), Read(Submit, None));
    assert d1.ops - {0} == map[];
  }

  lemma RejectTwice()
    ensures Next(Next(Next(IN_REVIEW, SETTING_BACK[2]), SETTING_BACK[3]), SETTING_BACK[4]) == TWICE_REJECTED
  {
    var d1 := Next(IN_REVIEW, Read(Reject("no"), Some(3)));
    assert d1 == IN_REVIEW.(ops := map[1 := STALE_REJECT], nextOp := 2);
    var d2 := Next(d1, Read(Reject("no"), None));
    assert d2.ops == map[1 := STALE_REJECT, 2 := STALE_REJECT.(expected := 1)];
    assert d2.ops - {2} == map[1 := STALE_REJECT];
  }

  lemma RenamedRejected(row: Row, name: string, versions: seq<Version>)
    requires name != "" && row.content.body == "b" && row.status.Rejected?
    ensures Prepare(Rename(name), row, versions) ==
              Some(row.(content := Edited(row.content, Rename(name).edit), rejectReason := "", revision := row.revision + 1))
  {
    assert TrimSpace("b") == "b";
    assert HasBody(Edited(row.content, Rename(name).edit));
  }

  /** Reading, writing and snapshotting a rename with nothing in between. */
  lemma RenameAlone(d: Desk, name: string)
    requires name != "" && d.row.Some? && d.row.value.content.body == "b" && d.row.value.status.Rejected?
    requires d.nextOp !in d.ops
    ensures var row := d.row.value;
      var next := row.(content := Edited(row.content, Rename(name).edit), rejectReason := "", revision := row.revision + 1,
                       version := row.version + 1);
      var d1 := Next(d, Read(Rename(name), None));
      Next(Next(d1, Swap(d.nextOp)), Snap(d.nextOp)) ==
        Desk(Some(next), d.versions + [Version(next.revision, next.content)], d.ops, d.nextOp + 1,
             d.held[next.revision := next.content])
  {
    RenamedRejected(d.row.value, name, d.versions);
    var d1 := Next(d, Read(Rename(name), None));
    var d2 := Next(d1, Swap(d.nextOp));
    assert d2.ops - {d.nextOp} == d.ops;
  }

  lemma XThenSetBack()
    ensures After(Created(PLAIN), SETTING_BACK[..9]) == SET_BACK
  {
    RejectedTwice();
    XAfterReject();
    SetBack();
    StepOn(SETTING_BACK, 5);
    StepOn(SETTING_BACK, 6);
    StepOn(SETTING_BACK, 7);
    StepOn(SETTING_BACK, 8);
  }

  lemma XAfterReject()
    ensures Next(Next(Next(TWICE_REJECTED, SETTING_BACK[5]), SETTING_BACK[6]), SETTING_BACK[7]) == X_AFTER_REJECT
  {
    RenameAlone(TWICE_REJECTED, "x");
  }

  lemma SetBack()
    ensures Next(X_AFTER_REJECT, SETTING_BACK[8]) == SET_BACK
  {
    assert X_AFTER_REJECT.ops - {1} == map[];
  }

  lemma YAfterSetBack()
    ensures Next(Next(Next(SET_BACK, SETTING_BACK[9]), SETTING_BACK[10]), SETTING_BACK[11]).versions == [Version(1, X), Version(1, Y)]
  {
    RenameAlone(SET_BACK, "y");
  }

  lemma StaleRejectReuses()
    ensures After(Created(PLAIN), SETTING_BACK).versions == [Version(1, X), Version(1, Y)] && X != Y
  {
    XThenSetBack();
    YAfterSetBack();
    StepOn(SETTING_BACK, 9);
    StepOn(SETTING_BACK, 10);
    StepOn(SETTING_BACK, 11);
    assert SETTING_BACK[..12] == SETTING_BACK;
  }
}
