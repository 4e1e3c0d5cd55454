/** The template repository and service as objects. An operation run alone is the protocol's read, write and
    snapshot steps one after another. */
module TemplateService {
  import opened Status
  import opened Text
  import opened Templates

  datatype Answer = Written(row: Row) | NotFound | Refused | Conflict

  /** The template after an operation, its snapshots, and the answer. */
  datatype Result = Result(row: Option<Row>, versions: seq<Version>, answer: Answer)

  function Outcome(row: Option<Row>, versions: seq<Version>, a: Action, expected: Option<int>): Result {
    if row.None? then Result(row, versions, NotFound)
    else match Prepare(a, row.value, versions)
      case None => Result(row, versions, Refused)
      case Some(next) =>
        if Or(expected, row.value.version) != row.value.version then Result(row, versions, Conflict)
        else
          var written := next.(version := row.value.version + 1);
          Result(Some(written), if a.Snapshots() then versions + [Version(next.revision, next.content)] else versions, Written(written))
  }

  /** Read, swap and snapshot in a row do what the service does in one call. */
  lemma RunAlone(d: Desk, a: Action, expected: Option<int>)
    requires d.nextOp !in d.ops
    ensures var r := Outcome(d.row, d.versions, a, expected);
      var d' := Next(Next(Next(d, Read(a, expected)), Swap(d.nextOp)), Snap(d.nextOp));
      d'.row == r.row && d'.versions == r.versions
  {
  }

  class TemplateRepo {
    var row: Option<Row>
    var versions: seq<Version>

    constructor (content: Content)
      ensures row == Some(Row(content, TemplateStatus.Draft, 0, 0, "")) && versions == []
    {
      row, versions := Some(Row(content, TemplateStatus.Draft, 0, 0, "")), [];
    }

    /** Writes the copy if the version is still the expected one; the copy's version moves with it. */
    method UpdateCAS(tpl: Row, expected: int) returns (ok: bool, saved: Row)
      modifies this`row
      ensures ok <==> old(row).Some? && old(row).value.version == expected
      ensures if ok then saved == tpl.(version := expected + 1) && row == Some(saved) else row == old(row)
    {
      saved := tpl;
      ok := row.Some? && row.value.version == expected;
      if ok {
        saved := tpl.(version := expected + 1);
        row := Some(saved);
      }
    }

    method CreateVersion(v: Version)
      modifies this`versions
      ensures versions == old(versions) + [v]
    {
      versions := versions + [v];
    }

    method GetVersion(revision: int) returns (v: Option<Version>)
      ensures v == FindVersion(versions, revision)
    {
      for i := 0 to |versions|
        invariant FindVersion(versions[i..], revision) == FindVersion(versions, revision)
      {
        assert versions[i..][1..] == versions[i + 1..];
        if versions[i].revision == revision {
          return Some(versions[i]);
        }
      }
      v := None;
    }
  }

  class Service {
    const repo: TemplateRepo

    constructor (r: TemplateRepo)
      ensures repo == r
    {
      repo := r;
    }

    twostate predicate Did(a: Action, expected: Option<int>, answer: Answer)
      reads repo
    {
      Result(repo.row, repo.versions, answer) == Outcome(old(repo.row), old(repo.versions), a, expected)
    }

    method Save(tpl: Row, expected: Option<int>, snapshot: bool) returns (answer: Answer)
      requires repo.row.Some? && repo.row.value.version == tpl.version
      modifies repo
      ensures if Or(expected, tpl.version) == tpl.version
              then answer == Written(tpl.(version := tpl.version + 1)) && repo.row == Some(answer.row)
                   && repo.versions == (if snapshot then old(repo.versions) + [Version(tpl.revision, tpl.content)] else old(repo.versions))
              else answer == Conflict && repo.row == old(repo.row) && repo.versions == old(repo.versions)
    {
      var ver := tpl.version;
      if expected.Some? {
        ver := expected.value;
      }
      var ok, saved := repo.UpdateCAS(tpl, ver);
      if !ok {
        return Conflict;
      }
      if snapshot {
        repo.CreateVersion(Version(saved.revision, saved.content));
      }
      answer := Written(saved);
    }

    method Update(e: Edit, expected: Option<int>) returns (answer: Answer)
      modifies repo
      ensures Did(Action.Update(e), expected, answer)
    {
      if repo.row.None? {
        return NotFound;
      }
      var tpl := repo.row.value;
      if !tpl.status.Editable() {
        return Refused;
      }
      if e.name.Some? && e.name.value == "" {
        return Refused;
      }
      if e.policy.Some? && e.policy.value != "" && e.policy.value !in POLICIES {
        return Refused;
      }
      if e.hint.Some? && e.hint.value != "" && e.hint.value !in CHANNELS {
        return Refused;
      }
      tpl := tpl.(content := EditContent(tpl.content, e));
      var has := TemplateHasBody(tpl.content);
      if !has {
        return Refused;
      }
      answer := Save(tpl.(rejectReason := "", revision := tpl.revision + 1), expected, true);
    }

    function EditContent(c: Content, e: Edit): (r: Content)
      ensures r == Edited(c, e)
    {
      var c1 := if e.name.Some? then c.(name := e.name.value) else c;
      var c2 := if e.body.Some? then c1.(body := e.body.value) else c1;
      var c3 := if e.contents.Some? then c2.(contents := e.contents.value) else c2;
      var c4 := if e.schema.Some? then c3.(schema := e.schema.value) else c3;
      var c5 := if e.policy.Some? then c4.(policy := Normalize(e.policy.value)) else c4;
      var c6 := if e.defaultLocale.Some? then c5.(defaultLocale := e.defaultLocale.value) else c5;
      var c7 := if e.locales.Some? then c6.(locales := e.locales.value) else c6;
      var c8 := if e.scene.Some? then c7.(scene := e.scene.value) else c7;
      if e.hint.Some? then c8.(hint := e.hint.value) else c8
    }

    static method TemplateHasBody(c: Content) returns (has: bool)
      ensures has == HasBody(c)
    {
      if TrimSpace(c.body) != "" {
        return true;
      }
      var left := c.contents.Keys;
      while left != {}
        invariant left <= c.contents.Keys
        invariant forall ch :: ch in c.contents && ch !in left ==> TrimSpace(c.contents[ch].body) == ""
        decreases |left|
      {
        var ch :| ch in left;
        left := left - {ch};
        if TrimSpace(c.contents[ch].body) != "" {
          return true;
        }
      }
      has := false;
    }

    method Submit() returns (answer: Answer)
      modifies repo
      ensures Did(Action.Submit, None, answer)
    {
      if repo.row.None? {
        return NotFound;
      }
      var tpl := repo.row.value;
      if !tpl.status.CanSubmit() {
        return Refused;
      }
      answer := Save(tpl.(status := PendingReview, rejectReason := ""), None, false);
    }

    method Approve(expected: Option<int>) returns (answer: Answer)
      modifies repo
      ensures Did(Action.Approve, expected, answer)
    {
      if repo.row.None? {
        return NotFound;
      }
      var tpl := repo.row.value;
      if !tpl.status.CanReview() {
        return Refused;
      }
      answer := Save(tpl.(status := Approved, rejectReason := "", revision := tpl.revision + 1), expected, true);
    }

    method Reject(reason: string, expected: Option<int>) returns (answer: Answer)
      modifies repo
      ensures Did(Action.Reject(reason), expected, answer)
    {
      if repo.row.None? {
        return NotFound;
      }
      var tpl := repo.row.value;
      if !tpl.status.CanReview() {
        return Refused;
      }
      if reason == "" {
        return Refused;
      }
      answer := Save(tpl.(status := Rejected, rejectReason := reason), expected, false);
    }

    method Disable() returns (answer: Answer)
      modifies repo
      ensures Did(Action.Disable, None, answer)
    {
      if repo.row.None? {
        return NotFound;
      }
      var tpl := repo.row.value;
      if tpl.status != Approved {
        return Refused;
      }
      answer := Save(tpl.(status := Disabled), None, false);
    }

    /** A disabled template goes back to review. */
    method Enable() returns (answer: Answer)
      modifies repo
      ensures Did(Action.Enable, None, answer)
    {
      if repo.row.None? {
        return NotFound;
      }
      var tpl := repo.row.value;
      if tpl.status != Disabled {
        return Refused;
      }
      answer := Save(tpl.(status := PendingReview), None, false);
    }

    method Rollback(revision: int, expected: Option<int>) returns (answer: Answer)
      modifies repo
      ensures Did(Action.Rollback(revision), expected, answer)
    {
      if repo.row.None? {
        return NotFound;
      }
      var tpl := repo.row.value;
      var ver := repo.GetVersion(revision);
      if ver.None? {
        return Refused;
      }
      tpl := tpl.(content := ver.value.content.(policy := Normalize(ver.value.content.policy)),
                  status := TemplateStatus.Draft, rejectReason := "", revision := tpl.revision + 1);
      answer := Save(tpl, expected, true);
    }
  }
}
