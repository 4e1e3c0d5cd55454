/** Users, roles and permissions. Names are compared in the database without regard to case; the code compares
    some of them exactly. Somebody who may manage permissions must always be left. */
module Rbac {
  import opened Status
  import opened Text
  import opened Strings

  const RBAC_MANAGE := "rbac.manage"
  const MENU_SETTINGS := "menu.settings"
  const ADMIN := "admin"
  const VIEWER := "viewer"

  datatype User = User(username: string, role: string, enabled: bool, password: string, displayName: string, session: nat)

  /** Tables keyed the way the database compares: by lower-case name. `builtin` are the permission codes known to the
      program, `known` those in the catalogue table. */
  datatype Db = Db(users: map<string, User>, roles: set<string>, grants: map<string, set<string>>, known: set<string>)

  function NormalizeRole(role: string): string {
    if role == "" then VIEWER else role
  }

  function GrantsOf(db: Db, role: string): set<string> {
    if ToLower(role) in db.grants then db.grants[ToLower(role)] else {}
  }

  /** Permissions by the program's reading: those granted; a role without any and without a row falls back on the
      built-in definition, of which only admin's has rbac.manage. */
  predicate RoleManages(db: Db, role: string) {
    var r := NormalizeRole(role);
    RBAC_MANAGE in GrantsOf(db, r) || (GrantsOf(db, r) == {} && ToLower(r) !in db.roles && r == ADMIN)
  }

  /** The join of the user count. */
  predicate Manages(db: Db, key: string) {
    key in db.users && db.users[key].enabled && RBAC_MANAGE in GrantsOf(db, db.users[key].role)
  }

  function Managers(db: Db): set<string> {
    set key | key in db.users && Manages(db, key)
  }

  /** Only roles that exist have grants. */
  predicate WellFormed(db: Db) {
    && (forall r :: r in db.grants && db.grants[r] != {} ==> r in db.roles)
    && "" !in db.grants
  }

  datatype Answer = Ok | NotFound | Exists | BadInput | RoleMissing | LastManager | OwnManager | OwnAccount

  datatype Reply = Reply(db: Db, answer: Answer)

  predicate LowerLetter(c: char) { 'a' <= c <= 'z' }
  predicate DigitChar(c: char) { '0' <= c <= '9' }

  predicate ValidRoleId(id: string) {
    2 <= |id| <= 32 && LowerLetter(id[0]) && forall i :: 0 <= i < |id| ==> LowerLetter(id[i]) || DigitChar(id[i]) || id[i] == '_'
  }

  predicate UserChar(c: char) {
    LowerLetter(c) || DigitChar(c) || 'A' <= c <= 'Z'
  }

  predicate ValidUsername(name: string) {
    2 <= |name| <= 32 && UserChar(name[0])
    && forall i :: 0 <= i < |name| ==> UserChar(name[i]) || name[i] in {'.', '_', '-'}
  }

  /** A letter or digit, then one to thirty-one of these or of dot, underscore and dash; a role begins with a small letter and
      goes on with small letters, digits and underscores. */
  lemma NamesAre(first: char, rest: string)
    requires 'A' <= first <= 'Z' || 'a' <= first <= 'z' || '0' <= first <= '9'
    ensures ValidUsername([first] + rest) <==>
      1 <= |rest| <= 31 && forall c :: c in rest ==> 'A' <= c <= 'Z' || 'a' <= c <= 'z' || '0' <= c <= '9' || c in {'.', '_', '-'}
    ensures ValidRoleId([first] + rest) <==>
      'a' <= first <= 'z' && 1 <= |rest| <= 31 && forall c :: c in rest ==> 'a' <= c <= 'z' || '0' <= c <= '9' || c == '_'
  {
    var name := [first] + rest;
    assert forall i :: 0 <= i < |rest| ==> name[i + 1] == rest[i];
    assert forall i :: 0 < i < |name| ==> name[i] == rest[i - 1];
    forall i | 0 <= i < |rest| ensures rest[i] in rest {}
  }

  function NormalizeUsername(name: string): string {
    ToLower(TrimSpace(name))
  }

  // ---- the four operations ----

  function CreateUser(db: Db, name: string, password: string, role: string, displayName: string): Reply {
    var username := NormalizeUsername(name);
    if !ValidUsername(username) || |TrimSpace(password)| < 10 then Reply(db, BadInput)
    else if ToLower(NormalizeRole(role)) !in db.roles then Reply(db, RoleMissing)
    else if username in db.users then Reply(db, Exists)
    else Reply(db.(users := db.users[username := User(username, NormalizeRole(role), true, TrimSpace(password), TrimSpace(displayName), 1)]), Ok)
  }

  /** Fields of an update; None leaves a field alone. */
  datatype Change = Change(role: Option<string>, password: Option<string>, enabled: Option<bool>, displayName: Option<string>)

  function RoleAnswer(db: Db, u: User, isSelf: bool, role: Option<string>): Answer {
    if role.None? then Ok
    else if ToLower(NormalizeRole(role.value)) !in db.roles then RoleMissing
    else if RoleManages(db, u.role) && !RoleManages(db, NormalizeRole(role.value)) then
      if |Managers(db)| <= 1 then LastManager else if isSelf then OwnManager else Ok
    else Ok
  }

  function PasswordAnswer(password: Option<string>): Answer {
    if password.Some? && TrimSpace(password.value) != "" && |TrimSpace(password.value)| < 10 then BadInput else Ok
  }

  function EnabledAnswer(db: Db, u: User, isSelf: bool, enabled: Option<bool>): Answer {
    if enabled.None? || enabled.value then Ok
    else if isSelf then OwnAccount
    else if RoleManages(db, u.role) && |Managers(db)| <= 1 then LastManager
    else Ok
  }

  /** A change of role, password or enabled flag ends the user's sessions. */
  function Changed(u: User, c: Change): User {
    var p := if c.password.Some? then TrimSpace(c.password.value) else "";
    var ends := c.role.Some? || p != "" || c.enabled.Some?;
    User(u.username, if c.role.Some? then NormalizeRole(c.role.value) else u.role,
         if c.enabled.Some? then c.enabled.value else u.enabled,
         if p != "" then p else u.password,
         if c.displayName.Some? then TrimSpace(c.displayName.value) else u.displayName,
         if ends then u.session + 1 else u.session)
  }

  function UpdateUser(db: Db, actor: string, name: string, c: Change): Reply {
    var key := NormalizeUsername(name);
    if key !in db.users then Reply(db, NotFound)
    else
      var u := db.users[key];
      var isSelf := NormalizeUsername(actor) == ToLower(u.username);
      var byRole := RoleAnswer(db, u, isSelf, c.role);
      if byRole != Ok then Reply(db, byRole)
      else if PasswordAnswer(c.password) != Ok then Reply(db, BadInput)
      else if EnabledAnswer(db, u, isSelf, c.enabled) != Ok then Reply(db, EnabledAnswer(db, u, isSelf, c.enabled))
      else Reply(db.(users := db.users[key := Changed(u, c)]), Ok)
  }

  function ResetPassword(db: Db, name: string, password: string): Reply {
    var key := NormalizeUsername(name);
    if |TrimSpace(password)| < 10 then Reply(db, BadInput)
    else if key !in db.users then Reply(db, NotFound)
    else Reply(db.(users := db.users[key := db.users[key].(password := TrimSpace(password), session := db.users[key].session + 1)]), Ok)
  }

  /** Codes that may be granted: trimmed and in the catalogue. */
  function Sanitize(perms: set<string>, known: set<string>): set<string> {
    set p | p in perms && TrimSpace(p) != "" && TrimSpace(p) in known :: TrimSpace(p)
  }

  function NextGrants(db: Db, role: string, perms: set<string>): set<string> {
    var clean := Sanitize(perms, db.known);
    if role == ADMIN then clean + ({RBAC_MANAGE, MENU_SETTINGS} * db.known) else clean
  }

  /** Enabled users whose role is spelled exactly like this. */
  function ExactlyIn(db: Db, role: string): set<string> {
    set key | key in db.users && db.users[key].enabled && NormalizeRole(db.users[key].role) == role
  }

  /** The guard on taking rbac.manage off a role: the count of managers goes by the database's comparison, the users
      of the role are picked by an exact one. */
  predicate GuardRefuses(db: Db, role: string, next: set<string>) {
    RBAC_MANAGE in GrantsOf(db, role) && RBAC_MANAGE !in next && |Managers(db)| - |ExactlyIn(db, role)| <= 0
  }

  function UpsertRole(db: Db, id: string, perms: set<string>, create: bool): Reply {
    var role := TrimSpace(id);
    if !ValidRoleId(role) then Reply(db, BadInput)
    else
      var next := NextGrants(db, role, perms);
      if create then
        if role in db.roles then Reply(db, Exists)
        else Reply(db.(roles := db.roles + {role}, grants := db.grants[role := next]), Ok)
      else if role !in db.roles then Reply(db, NotFound)
      else if GuardRefuses(db, role, next) then Reply(db, LastManager)
      else Reply(db.(grants := db.grants[role := next]), Ok)
  }

  // ---- what the operations keep ----

  lemma RoleIdIsLower(id: string)
    requires ValidRoleId(id)
    ensures ToLower(id) == id
  {
    LowerStays(id);
  }

  lemma Counted(db: Db, key: string)
    requires Manages(db, key)
    ensures RoleManages(db, db.users[key].role) || db.users[key].role == ""
  {
  }

  lemma NotBlank(db: Db, key: string)
    requires WellFormed(db) && Manages(db, key)
    ensures db.users[key].role != "" && RoleManages(db, db.users[key].role)
  {
    assert ToLower("") == "";
  }

  lemma OneLess(a: set<string>, b: set<string>, key: string)
    requires a - {key} <= b && |a| >= 1 && (key in a && key !in b ==> |a| > 1)
    ensures b != {}
  {
    if key in a && key !in b {
      assert |a - {key}| == |a| - 1;
      var x :| x in a - {key};
      assert x in b;
    } else {
      var x :| x in a;
      assert x in b;
    }
  }

  lemma OthersManage(db: Db, db': Db, key: string)
    requires db'.grants == db.grants
    requires forall k :: k in db.users && k != key ==> k in db'.users && db'.users[k] == db.users[k]
    ensures Managers(db) - {key} <= Managers(db')
  {
  }

  /** Changing a user leaves a manager, whatever is changed together. */
  lemma UpdateKeeps(db: Db, actor: string, name: string, c: Change)
    requires WellFormed(db) && Managers(db) != {}
    ensures WellFormed(UpdateUser(db, actor, name, c).db) && Managers(UpdateUser(db, actor, name, c).db) != {}
  {
    var r := UpdateUser(db, actor, name, c);
    var key := NormalizeUsername(name);
    if r.answer.Ok? {
      OthersManage(db, r.db, key);
      if key in Managers(db) && key !in Managers(r.db) {
        NotBlank(db, key);
        StillCounted(db, db.users[key], c);
      }
      OneLess(Managers(db), Managers(r.db), key);
    }
  }

  /** An accepted change that stops a user from counting found another manager. */
  lemma StillCounted(db: Db, u: User, c: Change)
    requires WellFormed(db) && Managers(db) != {}
    requires u.enabled && RoleManages(db, u.role) && RBAC_MANAGE in GrantsOf(db, u.role)
    requires exists isSelf :: RoleAnswer(db, u, isSelf, c.role).Ok? && EnabledAnswer(db, u, isSelf, c.enabled).Ok?
    requires !(Changed(u, c).enabled && RBAC_MANAGE in GrantsOf(db, Changed(u, c).role))
    ensures |Managers(db)| > 1
  {
  }

  lemma CreateKeeps(db: Db, name: string, password: string, role: string, displayName: string)
    requires WellFormed(db) && Managers(db) != {}
    ensures WellFormed(CreateUser(db, name, password, role, displayName).db)
    ensures Managers(CreateUser(db, name, password, role, displayName).db) != {}
  {
    var db' := CreateUser(db, name, password, role, displayName).db;
    OthersManage(db, db', "");
    var key :| key in Managers(db);
    assert key in Managers(db');
  }

  lemma ResetKeeps(db: Db, name: string, password: string)
    requires WellFormed(db) && Managers(db) != {}
    ensures WellFormed(ResetPassword(db, name, password).db) && Managers(ResetPassword(db, name, password).db) != {}
  {
    var key :| key in Managers(db);
    assert key in Managers(ResetPassword(db, name, password).db);
  }

  /** Managers through one role, as the database compares names. */
  function Through(db: Db, role: string): set<string> {
    set key | key in Managers(db) && ToLower(db.users[key].role) == role
  }

  /** Taking rbac.manage off a role takes exactly its managers away. */
  lemma RevokedManagers(db: Db, role: string, next: set<string>)
    requires WellFormed(db) && RBAC_MANAGE !in next
    ensures Managers(db.(grants := db.grants[role := next])) == Managers(db) - Through(db, role)
  {
    var db' := db.(grants := db.grants[role := next]);
    forall key ensures key in Managers(db') <==> key in Managers(db) - Through(db, role) {
    }
  }

  lemma GrantedManagers(db: Db, role: string, next: set<string>)
    requires WellFormed(db) && RBAC_MANAGE in next
    ensures Managers(db) <= Managers(db.(grants := db.grants[role := next]))
  {
  }

  // ---- when a change of permissions gets by the guard ----

  /** Managers through the role whose user rows spell it otherwise. */
  function Misspelled(db: Db, role: string): set<string> {
    set key | key in Through(db, role) && db.users[key].role != role
  }

  /** Enabled users without a role, where the program reads them as users of this one; the database does not. */
  function ReadAs(db: Db, role: string): set<string> {
    set key | key in db.users && db.users[key].enabled && db.users[key].role == "" && role == VIEWER
  }

  /** An update of an existing role that leaves rbac.manage out, when every manager is one through this role, and more of
      them are spelled otherwise than there are users without a role to make up for them. */
  predicate GetsByGuard(db: Db, id: string, perms: set<string>, create: bool) {
    var role := TrimSpace(id);
    && !create && ValidRoleId(role) && role in db.roles
    && RBAC_MANAGE !in NextGrants(db, role, perms)
    && Managers(db) == Through(db, role)
    && |Misspelled(db, role)| > |ReadAs(db, role)|
  }

  /** With everyone in one role that manages, the users the guard takes for it are those spelled alike and those without
      a role that are read as it. */
  lemma GuardCounts(db: Db, role: string)
    requires WellFormed(db) && ValidRoleId(role) && Managers(db) == Through(db, role) != {}
    ensures RBAC_MANAGE in GrantsOf(db, role)
    ensures |ExactlyIn(db, role)| == |Managers(db)| - |Misspelled(db, role)| + |ReadAs(db, role)|
  {
    RoleIdIsLower(role);
    var some :| some in Managers(db);
    assert some in Through(db, role);
    var alike := Managers(db) - Misspelled(db, role);
    forall key ensures key in ExactlyIn(db, role) <==> key in alike + ReadAs(db, role) {
      if key in alike { NotBlank(db, key); }
      if key in ExactlyIn(db, role) && db.users[key].role != "" { assert Manages(db, key) && key in Through(db, role); }
    }
    assert ExactlyIn(db, role) == alike + ReadAs(db, role);
    assert alike !! ReadAs(db, role) by {
      forall key | key in alike ensures key !in ReadAs(db, role) { NotBlank(db, key); }
    }
    assert Misspelled(db, role) <= Managers(db);
    assert |alike| == |Managers(db)| - |Misspelled(db, role)|;
  }

  lemma CreateLosesNothing(db: Db, id: string, perms: set<string>)
    requires WellFormed(db)
    ensures Managers(db) <= Managers(UpsertRole(db, id, perms, true).db)
  {
    var role := TrimSpace(id);
    var db' := UpsertRole(db, id, perms, true).db;
    forall key | key in Managers(db) ensures key in Managers(db') {
      assert ToLower(db.users[key].role) in db.roles;
    }
  }

  lemma RevokedLosesIff(db: Db, role: string, next: set<string>)
    requires WellFormed(db) && Managers(db) != {}
    ensures Managers(db.(grants := db.grants[role := next])) == {} <==>
              RBAC_MANAGE !in next && Managers(db) == Through(db, role)
  {
    var db' := db.(grants := db.grants[role := next]);
    if RBAC_MANAGE in next {
      GrantedManagers(db, role, next);
      var key :| key in Managers(db);
      assert key in Managers(db');
    } else {
      RevokedManagers(db, role, next);
      NothingLeftIff(Managers(db), Through(db, role));
    }
  }

  /** A change of a role's permissions loses the last manager if and only if it gets by the guard. */
  lemma UpsertLosesIff(db: Db, id: string, perms: set<string>, create: bool)
    requires WellFormed(db) && Managers(db) != {}
    ensures Managers(UpsertRole(db, id, perms, create).db) == {} <==> GetsByGuard(db, id, perms, create)
  {
    var role := TrimSpace(id);
    if create {
      CreateLosesNothing(db, id, perms);
      var key :| key in Managers(db);
      assert key in Managers(UpsertRole(db, id, perms, create).db);
    } else if ValidRoleId(role) && role in db.roles {
      RevokedLosesIff(db, role, NextGrants(db, role, perms));
      if Managers(db) == Through(db, role) { GuardCounts(db, role); }
    }
  }

  /** Where every user has a role, spelling is all there is to it. */
  lemma SpellingIsTheCause(db: Db, id: string, perms: set<string>, create: bool)
    requires WellFormed(db) && Managers(db) != {} && forall key :: key in db.users ==> db.users[key].role != ""
    ensures var role := TrimSpace(id);
      Managers(UpsertRole(db, id, perms, create).db) == {} <==>
        && !create && ValidRoleId(role) && role in db.roles && RBAC_MANAGE !in NextGrants(db, role, perms)
        && (forall key :: key in Managers(db) ==> ToLower(db.users[key].role) == role)
        && exists key :: key in Managers(db) && db.users[key].role != role
  {
    var role := TrimSpace(id);
    UpsertLosesIff(db, id, perms, create);
    assert ReadAs(db, role) == {};
    AllThroughIff(db, role);
    if Managers(db) == Through(db, role) { MisspelledIff(db, role); }
  }

  lemma AllThroughIff(db: Db, role: string)
    ensures Managers(db) == Through(db, role) <==> forall key :: key in Managers(db) ==> ToLower(db.users[key].role) == role
  {
    if exists key :: key in Managers(db) && ToLower(db.users[key].role) != role {
      var key :| key in Managers(db) && ToLower(db.users[key].role) != role;
      assert key !in Through(db, role);
    } else {
      assert Managers(db) == Through(db, role);
    }
  }

  lemma MisspelledIff(db: Db, role: string)
    requires forall key :: key in Managers(db) ==> ToLower(db.users[key].role) == role
    ensures |Misspelled(db, role)| > 0 <==> exists key :: key in Managers(db) && db.users[key].role != role
  {
    if exists key :: key in Managers(db) && db.users[key].role != role {
      var key :| key in Managers(db) && db.users[key].role != role;
      assert key in Misspelled(db, role);
    } else {
      assert Misspelled(db, role) == {};
    }
  }

  lemma NothingLeftIff(all: set<string>, part: set<string>)
    requires part <= all
    ensures all - part == {} <==> all == part
  {
    if all - part == {} {
      forall x | x in all ensures x in part {
        assert x !in all - part;
      }
    }
  }

  /** Every user's role is spelled the way the role is. */
  predicate Spelled(db: Db) {
    forall key :: key in db.users ==> ToLower(db.users[key].role) == db.users[key].role
  }

  /** With roles spelled alike the guard sees every manager of the role, and keeps one elsewhere. */
  lemma UpsertKeeps(db: Db, id: string, perms: set<string>, create: bool)
    requires WellFormed(db) && Managers(db) != {} && Spelled(db)
    ensures WellFormed(UpsertRole(db, id, perms, create).db) && Managers(UpsertRole(db, id, perms, create).db) != {}
  {
    var role := TrimSpace(id);
    UpsertLosesIff(db, id, perms, create);
    if Managers(db) == Through(db, role) {
      forall key | key in Through(db, role) ensures key !in Misspelled(db, role) {
        assert ToLower(db.users[key].role) == db.users[key].role;
      }
      assert Misspelled(db, role) == {};
    }
  }

  // ---- runs ----

  datatype Step =
    | Create(name: string, password: string, role: string, displayName: string)
    | Update(actor: string, name: string, change: Change)
    | Upsert(id: string, perms: set<string>, create: bool)
    | Reset(name: string, password: string)
  {
    /** Role names are given in lower case. */
    predicate Lower() {
      match this
      case Create(_, _, role, _) => ToLower(role) == role
      case Update(_, _, c) => c.role.Some? ==> ToLower(c.role.value) == c.role.value
      case _ => true
    }
  }

  function Next(db: Db, step: Step): Reply {
    match step
    case Create(name, password, role, displayName) => CreateUser(db, name, password, role, displayName)
    case Update(actor, name, c) => UpdateUser(db, actor, name, c)
    case Upsert(id, perms, create) => UpsertRole(db, id, perms, create)
    case Reset(name, password) => ResetPassword(db, name, password)
  }

  function After(db: Db, steps: seq<Step>): Db {
    if steps == [] then db else Next(After(db, steps[..|steps| - 1]), steps[|steps| - 1]).db
  }

  lemma UserSpelled(db: Db, key: string, u: User)
    requires Spelled(db) && ToLower(u.role) == u.role
    ensures Spelled(db.(users := db.users[key := u]))
  {
  }

  lemma NormalizedSpelled(role: string)
    requires ToLower(role) == role
    ensures ToLower(NormalizeRole(role)) == NormalizeRole(role)
  {
    LowerStays(VIEWER);
  }

  lemma SpellingStays(db: Db, step: Step)
    requires Spelled(db) && step.Lower()
    ensures Spelled(Next(db, step).db)
  {
    match step
    case Create(name, password, role, displayName) =>
      NormalizedSpelled(role);
      UserSpelled(db, NormalizeUsername(name),
                  User(NormalizeUsername(name), NormalizeRole(role), true, TrimSpace(password), TrimSpace(displayName), 1));
    case Update(actor, name, c) =>
      if NormalizeUsername(name) in db.users {
        if c.role.Some? { NormalizedSpelled(c.role.value); }
        UserSpelled(db, NormalizeUsername(name), Changed(db.users[NormalizeUsername(name)], c));
      }
    case Upsert(id, perms, create) =>
    case Reset(name, password) =>
  }

  /** With role names given in lower case, every serial run keeps an enabled user who may manage permissions. */
  lemma {:induction false} ManagerStays(db: Db, steps: seq<Step>)
    requires WellFormed(db) && Spelled(db) && Managers(db) != {}
    requires forall i :: 0 <= i < |steps| ==> steps[i].Lower()
    ensures WellFormed(After(db, steps)) && Spelled(After(db, steps)) && Managers(After(db, steps)) != {}
  {
    if steps != [] {
      var n := |steps| - 1;
      ManagerStays(db, steps[..n]);
      var before := After(db, steps[..n]);
      SpellingStays(before, steps[n]);
      match steps[n]
      case Create(name, password, role, displayName) => CreateKeeps(before, name, password, role, displayName);
      case Update(actor, name, c) => UpdateKeeps(before, actor, name, c);
      case Upsert(id, perms, create) => UpsertKeeps(before, id, perms, create);
      case Reset(name, password) => ResetKeeps(before, name, password);
    }
  }

  lemma NextWellFormed(db: Db, step: Step)
    requires WellFormed(db)
    ensures WellFormed(Next(db, step).db)
  {
  }

  lemma {:induction false} RunWellFormed(db: Db, steps: seq<Step>)
    requires WellFormed(db)
    ensures WellFormed(After(db, steps))
  {
    if steps != [] {
      RunWellFormed(db, steps[..|steps| - 1]);
      NextWellFormed(After(db, steps[..|steps| - 1]), steps[|steps| - 1]);
    }
  }

  predicate LosesWith(db: Db, step: Step) {
    step.Upsert? && GetsByGuard(db, step.id, step.perms, step.create)
  }

  lemma StepLosesIff(db: Db, step: Step)
    requires WellFormed(db) && Managers(db) != {}
    ensures Managers(Next(db, step).db) == {} <==> LosesWith(db, step)
  {
    match step
    case Create(name, password, role, displayName) => CreateKeeps(db, name, password, role, displayName);
    case Update(actor, name, c) => UpdateKeeps(db, actor, name, c);
    case Upsert(id, perms, create) => UpsertLosesIff(db, id, perms, create);
    case Reset(name, password) => ResetKeeps(db, name, password);
  }

  predicate Lost(db: Db, steps: seq<Step>, n: nat)
    requires n <= |steps|
  {
    Managers(After(db, steps[..n])) == {}
  }

  predicate LosesAt(db: Db, steps: seq<Step>, i: nat)
    requires i < |steps|
  {
    !Lost(db, steps, i) && LosesWith(After(db, steps[..i]), steps[i])
  }

  lemma LosesNext(db: Db, steps: seq<Step>, i: nat)
    requires WellFormed(db) && i < |steps| && !Lost(db, steps, i)
    ensures Lost(db, steps, i + 1) <==> LosesAt(db, steps, i)
  {
    RunWellFormed(db, steps[..i]);
    StepLosesIff(After(db, steps[..i]), steps[i]);
    assert steps[..i + 1][..i] == steps[..i];
  }

  lemma {:induction false} NeverLost(db: Db, steps: seq<Step>, n: nat)
    requires WellFormed(db) && Managers(db) != {} && n <= |steps|
    requires forall i :: 0 <= i < |steps| ==> !LosesAt(db, steps, i)
    ensures !Lost(db, steps, n)
  {
    if n > 0 {
      NeverLost(db, steps, n - 1);
      LosesNext(db, steps, n - 1);
    }
  }

  /** However roles are spelled: a serial run is at some point without any manager if and only if one of its steps is a
      change of permissions that gets by the guard, in a state that still has a manager. */
  lemma ManagerLostIff(db: Db, steps: seq<Step>)
    requires WellFormed(db) && Managers(db) != {}
    ensures (exists n :: 0 <= n <= |steps| && Lost(db, steps, n)) <==> exists i :: 0 <= i < |steps| && LosesAt(db, steps, i)
  {
    if exists i :: 0 <= i < |steps| && LosesAt(db, steps, i) {
      var i :| 0 <= i < |steps| && LosesAt(db, steps, i);
      LosesNext(db, steps, i);
    } else {
      forall n | 0 <= n <= |steps| ensures !Lost(db, steps, n) { NeverLost(db, steps, n); }
    }
  }

  // ---- accounts in runs ----

  /** The account as it was, but for the display name and a later session. */
  predicate SameAccess(u: User, u': User) {
    u'.role == u.role && u'.password == u.password && u'.enabled == u.enabled
  }

  predicate LongPasswords(db: Db) {
    forall key :: key in db.users ==> 10 <= |db.users[key].password| && ValidUsername(key)
  }

  /** The name stays; the session stays or goes up by one, which it does when role, password or flag change. */
  predicate GoesOn(u: User, u': User) {
    && u'.username == u.username && u.session <= u'.session <= u.session + 1
    && (u.session == u'.session ==> SameAccess(u, u'))
  }

  predicate AllGoOn(users: map<string, User>, users': map<string, User>) {
    forall key :: key in users ==> key in users' && GoesOn(users[key], users'[key])
  }

  lemma ChangedGoesOn(u: User, c: Change)
    ensures GoesOn(u, Changed(u, c))
  {
  }

  lemma OneGoesOn(users: map<string, User>, key: string, u: User)
    requires key in users ==> GoesOn(users[key], u)
    ensures AllGoOn(users, users[key := u])
  {
  }

  lemma UpdateGoesOn(db: Db, actor: string, name: string, c: Change)
    ensures AllGoOn(db.users, UpdateUser(db, actor, name, c).db.users)
  {
    var key := NormalizeUsername(name);
    if key in db.users {
      ChangedGoesOn(db.users[key], c);
      OneGoesOn(db.users, key, Changed(db.users[key], c));
    }
  }

  lemma AccountsGoOn(db: Db, step: Step)
    ensures AllGoOn(db.users, Next(db, step).db.users)
  {
    match step
    case Create(name, password, role, displayName) =>
    case Update(actor, name, c) => UpdateGoesOn(db, actor, name, c);
    case Upsert(id, perms, create) =>
    case Reset(name, password) =>
  }

  lemma PasswordsStayLong(db: Db, step: Step)
    requires LongPasswords(db)
    ensures LongPasswords(Next(db, step).db)
  {
  }

  lemma LastStep(db: Db, steps: seq<Step>, j: nat)
    requires 0 < j <= |steps|
    ensures After(db, steps[..j]) == Next(After(db, steps[..j - 1]), steps[j - 1]).db
  {
    assert steps[..j][..j - 1] == steps[..j - 1];
  }

  /** The account and its access, after the first n steps. */
  predicate AccountAt(db: Db, steps: seq<Step>, n: nat, key: string)
    requires n <= |steps|
  {
    key in After(db, steps[..n]).users
  }

  function AccountOf(db: Db, steps: seq<Step>, n: nat, key: string): User
    requires n <= |steps| && AccountAt(db, steps, n, key)
  {
    After(db, steps[..n]).users[key]
  }

  /** In every run: accounts stay and keep their names, sessions never fall, and as long as the session is the same so are
      role, password and flag. */
  lemma {:induction false} SessionsRise(db: Db, steps: seq<Step>, i: nat, j: nat, key: string)
    requires i <= j <= |steps| && AccountAt(db, steps, i, key)
    ensures AccountAt(db, steps, j, key)
    ensures var u, u' := AccountOf(db, steps, i, key), AccountOf(db, steps, j, key);
      u'.username == u.username && u.session <= u'.session && (u.session == u'.session ==> SameAccess(u, u'))
  {
    if i < j {
      SessionsRise(db, steps, i, j - 1, key);
      LastStep(db, steps, j);
      AccountsGoOn(After(db, steps[..j - 1]), steps[j - 1]);
      assert GoesOn(AccountOf(db, steps, j - 1, key), AccountOf(db, steps, j, key));
    }
  }

  lemma {:induction false} NoShortPassword(db: Db, steps: seq<Step>)
    requires LongPasswords(db)
    ensures LongPasswords(After(db, steps))
  {
    if steps != [] {
      NoShortPassword(db, steps[..|steps| - 1]);
      PasswordsStayLong(After(db, steps[..|steps| - 1]), steps[|steps| - 1]);
    }
  }

  /** A change is accepted exactly if the account exists; a new role exists and does not take the right to manage from the
      last who has it or from oneself; a new password is long enough; and the flag is not taken from oneself, nor from
      the last who may manage. */
  lemma UpdateAcceptedIff(db: Db, actor: string, name: string, c: Change)
    ensures var key := NormalizeUsername(name);
      UpdateUser(db, actor, name, c).answer == Ok <==>
        && key in db.users
        && var u := db.users[key];
           var self, manages := NormalizeUsername(actor) == ToLower(u.username), RoleManages(db, u.role);
           && (c.role.Some? ==>
                 && ToLower(NormalizeRole(c.role.value)) in db.roles
                 && (manages && !RoleManages(db, NormalizeRole(c.role.value)) ==> |Managers(db)| > 1 && !self))
           && (c.password.Some? ==> TrimSpace(c.password.value) == "" || |TrimSpace(c.password.value)| >= 10)
           && (c.enabled == Some(false) ==> !self && (manages ==> |Managers(db)| > 1))
  {
  }

  /** And then the given fields are taken over, the session ends if the access changed hands or form, and nobody else's
      account is touched. */
  lemma UpdateWrites(db: Db, actor: string, name: string, c: Change)
    requires UpdateUser(db, actor, name, c).answer == Ok
    ensures var key, db' := NormalizeUsername(name), UpdateUser(db, actor, name, c).db;
      && key in db.users && db' == db.(users := db.users[key := db'.users[key]])
      && var u, u' := db.users[key], db'.users[key];
         var secret := c.password.Some? && TrimSpace(c.password.value) != "";
         && u'.role == (if c.role.Some? then (if c.role.value == "" then VIEWER else c.role.value) else u.role)
         && u'.password == (if secret then TrimSpace(c.password.value) else u.password)
         && u'.enabled == (if c.enabled.Some? then c.enabled.value else u.enabled)
         && u'.displayName == (if c.displayName.Some? then TrimSpace(c.displayName.value) else u.displayName)
         && (u'.session > u.session <==> c.role.Some? || secret || c.enabled.Some?)
  {
  }

  /** An account is opened exactly for a new name that is well formed, a password that is long enough and a role that
      exists; and it is enabled, in that role or without one a viewer. */
  lemma CreateAcceptedIff(db: Db, name: string, password: string, role: string, displayName: string)
    ensures var key, r := NormalizeUsername(name), CreateUser(db, name, password, role, displayName);
      && (r.answer == Ok <==>
            ValidUsername(key) && key !in db.users && |TrimSpace(password)| >= 10 && ToLower(if role == "" then VIEWER else role) in db.roles)
      && (r.answer != Ok ==> r.db == db)
      && (r.answer == Ok ==>
            && r.db.users.Keys == db.users.Keys + {key} && forall k :: k in db.users ==> r.db.users[k] == db.users[k])
      && (r.answer == Ok ==> var u := r.db.users[key];
            u.username == key && u.enabled && u.role == (if role == "" then VIEWER else role) && u.password == TrimSpace(password))
  {
  }

  /** A password is reset exactly for an account that exists and to one that is long enough; the sessions of the account end. */
  lemma ResetAcceptedIff(db: Db, name: string, password: string)
    ensures var key, r := NormalizeUsername(name), ResetPassword(db, name, password);
      && (r.answer == Ok <==> key in db.users && |TrimSpace(password)| >= 10)
      && (r.answer != Ok ==> r.db == db)
      && (r.answer == Ok ==> r.db == db.(users := db.users[key :=
            db.users[key].(password := TrimSpace(password), session := db.users[key].session + 1)]))
  {
  }

  /** A role grants the permissions asked for that are known, blanks around them dropped; admin keeps what it cannot be
      without. */
  lemma GrantedAre(db: Db, id: string, perms: set<string>, create: bool, p: string)
    requires UpsertRole(db, id, perms, create).answer == Ok
    ensures var role, db' := TrimSpace(id), UpsertRole(db, id, perms, create).db;
      && role in db'.roles && role in db'.grants
      && (p in db'.grants[role] <==>
            && p in db.known
            && ((p != "" && exists q :: q in perms && TrimSpace(q) == p) || (role == ADMIN && p in {RBAC_MANAGE, MENU_SETTINGS})))
      && forall r :: r in db.grants && r != role ==> r in db'.grants && db'.grants[r] == db.grants[r]
  {
  }

  // ---- the spelling that gets by the guard ----

  const OPS := "ops"
  const LOCKED_OUT := Db(map["ann" := User("ann", "OPS", true, "0123456789", "", 1)], {OPS}, map[OPS := {RBAC_MANAGE}], {RBAC_MANAGE})

  lemma CapitalsInLower()
    ensures ToLower("OPS") == OPS
  {
    assert "OPS"[1..] == "PS" && "PS"[1..] == "S" && "S"[1..] == "";
    assert ToLower("S") == "s";
    assert ToLower("PS") == "ps";
  }

  lemma OpsTrimmed()
    ensures TrimSpace(OPS) == OPS && ValidRoleId(OPS)
  {
  }

  lemma OpsInLower()
    ensures ToLower("OPS") == OPS == ToLower(OPS) == TrimSpace(OPS)
    ensures ValidRoleId(OPS)
  {
    CapitalsInLower();
    OpsTrimmed();
    RoleIdIsLower(OPS);
  }

  /** The only manager's role is written "OPS"; clearing the permissions of "ops" is let through. */
  lemma SpellingLosesLastManager()
    ensures WellFormed(LOCKED_OUT) && Managers(LOCKED_OUT) == {"ann"}
    ensures UpsertRole(LOCKED_OUT, OPS, {}, false).answer.Ok?
    ensures Managers(UpsertRole(LOCKED_OUT, OPS, {}, false).db) == {}
  {
    OpsInLower();
    assert GrantsOf(LOCKED_OUT, "OPS") == {RBAC_MANAGE};
    assert Manages(LOCKED_OUT, "ann");
    assert Managers(LOCKED_OUT) == {"ann"};
    assert ExactlyIn(LOCKED_OUT, OPS) == {};
    assert NextGrants(LOCKED_OUT, OPS, {}) == {};
    assert Through(LOCKED_OUT, OPS) == {"ann"} && Misspelled(LOCKED_OUT, OPS) == {"ann"} && ReadAs(LOCKED_OUT, OPS) == {};
    UpsertLosesIff(LOCKED_OUT, OPS, {}, false);
  }
}
