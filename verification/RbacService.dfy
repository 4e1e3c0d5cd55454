/** The account manager over its tables; each method does what the operation of the same name says. */
module RbacService {
  import opened Status
  import opened Text
  import opened Strings
  import opened Rbac

  class Manager {
    var users: map<string, User>
    var roles: set<string>
    var grants: map<string, set<string>>
    const known: set<string>

    constructor (first: User, catalogue: set<string>)
      requires first.enabled && first.role == ADMIN && RBAC_MANAGE in catalogue
      ensures State() == Db(map[first.username := first], {ADMIN}, map[ADMIN := catalogue], catalogue)
    {
      users, roles, grants, known := map[first.username := first], {ADMIN}, map[ADMIN := catalogue], catalogue;
    }

    function State(): Db
      reads this
    {
      Db(users, roles, grants, known)
    }

    /** Counts the enabled users whose role, compared without case, has rbac.manage. */
    method CountManagers() returns (n: nat)
      ensures n == |Managers(State())|
    {
      ghost var all := Managers(State());
      var left := users.Keys;
      n := 0;
      while left != {}
        invariant left <= users.Keys && n == |all - left|
        decreases |left|
      {
        var key :| key in left;
        OneCounted(all, left, key);
        left := left - {key};
        if users[key].enabled && RBAC_MANAGE in GrantsOf(State(), users[key].role) {
          n := n + 1;
        }
      }
      assert all - {} == all;
    }

    method CountInRole(role: string) returns (n: nat)
      ensures n == |ExactlyIn(State(), role)|
    {
      ghost var all := ExactlyIn(State(), role);
      var left := users.Keys;
      n := 0;
      while left != {}
        invariant left <= users.Keys && n == |all - left|
        decreases |left|
      {
        var key :| key in left;
        OneCounted(all, left, key);
        left := left - {key};
        if users[key].enabled && NormalizeRole(users[key].role) == role {
          n := n + 1;
        }
      }
      assert all - {} == all;
    }

    method CreateUser(name: string, password: string, role: string, displayName: string) returns (answer: Answer)
      modifies this`users
      ensures Reply(State(), answer) == Rbac.CreateUser(old(State()), name, password, role, displayName)
    {
      var username := NormalizeUsername(name);
      var secret := TrimSpace(password);
      if !ValidUsername(username) || |secret| < 10 {
        return BadInput;
      }
      if ToLower(NormalizeRole(role)) !in roles {
        return RoleMissing;
      }
      if username in users {
        return Exists;
      }
      users := users[username := User(username, NormalizeRole(role), true, secret, TrimSpace(displayName), 1)];
      answer := Ok;
    }

    method CheckRole(u: User, isSelf: bool, role: string) returns (answer: Answer)
      ensures answer == RoleAnswer(State(), u, isSelf, Some(role))
    {
      var r := NormalizeRole(role);
      if ToLower(r) !in roles {
        return RoleMissing;
      }
      if RoleManages(State(), u.role) && !RoleManages(State(), r) {
        var n := CountManagers();
        if n <= 1 {
          return LastManager;
        }
        if isSelf {
          return OwnManager;
        }
      }
      answer := Ok;
    }

    method CheckEnabled(u: User, isSelf: bool, enabled: bool) returns (answer: Answer)
      ensures answer == EnabledAnswer(State(), u, isSelf, Some(enabled))
    {
      if isSelf && !enabled {
        return OwnAccount;
      }
      if RoleManages(State(), u.role) && !enabled {
        var n := CountManagers();
        if n <= 1 {
          return LastManager;
        }
      }
      answer := Ok;
    }

    /** The fields an update writes. */
    static method ChangeFields(u: User, c: Change) returns (fields: User)
      ensures fields == Changed(u, c)
    {
      fields := u;
      var ends := false;
      if c.role.Some? {
        fields, ends := fields.(role := NormalizeRole(c.role.value)), true;
      }
      if c.password.Some? && TrimSpace(c.password.value) != "" {
        fields, ends := fields.(password := TrimSpace(c.password.value)), true;
      }
      if c.enabled.Some? {
        fields, ends := fields.(enabled := c.enabled.value), true;
      }
      if c.displayName.Some? {
        fields := fields.(displayName := TrimSpace(c.displayName.value));
      }
      if ends {
        fields := fields.(session := u.session + 1);
      }
    }

    /** Role, password and flag are checked in turn; nothing is written unless all of them pass. */
    method UpdateUser(actor: string, name: string, c: Change) returns (answer: Answer)
      modifies this`users
      ensures Reply(State(), answer) == Rbac.UpdateUser(old(State()), actor, name, c)
    {
      var key := NormalizeUsername(name);
      if key !in users {
        return NotFound;
      }
      var u := users[key];
      var isSelf := NormalizeUsername(actor) == ToLower(u.username);
      if c.role.Some? {
        answer := CheckRole(u, isSelf, c.role.value);
        if answer != Ok {
          return;
        }
      }
      if PasswordAnswer(c.password) != Ok {
        return BadInput;
      }
      if c.enabled.Some? {
        answer := CheckEnabled(u, isSelf, c.enabled.value);
        if answer != Ok {
          return;
        }
      }
      var fields := ChangeFields(u, c);
      users := users[key := fields];
      answer := Ok;
    }

    method ResetPassword(name: string, password: string) returns (answer: Answer)
      modifies this`users
      ensures Reply(State(), answer) == Rbac.ResetPassword(old(State()), name, password)
    {
      var key := NormalizeUsername(name);
      var secret := TrimSpace(password);
      if |secret| < 10 {
        return BadInput;
      }
      if key !in users {
        return NotFound;
      }
      users := users[key := users[key].(password := secret, session := users[key].session + 1)];
      answer := Ok;
    }

    method SanitizePermissions(perms: set<string>) returns (clean: set<string>)
      ensures clean == Sanitize(perms, known)
    {
      clean := {};
      var left := perms;
      while left != {}
        invariant left <= perms && clean == Sanitize(perms - left, known)
        decreases |left|
      {
        var p :| p in left;
        left := left - {p};
        assert perms - left == perms - (left + {p}) + {p};
        SanitizeOne(perms - (left + {p}), p, known);
        if TrimSpace(p) != "" && TrimSpace(p) in known {
          clean := clean + {TrimSpace(p)};
        }
      }
      assert perms - left == perms;
    }

    method UpsertRole(id: string, perms: set<string>, create: bool) returns (answer: Answer)
      modifies this`roles, this`grants
      ensures Reply(State(), answer) == Rbac.UpsertRole(old(State()), id, perms, create)
    {
      var role := TrimSpace(id);
      if !ValidRoleId(role) {
        return BadInput;
      }
      var next := SanitizePermissions(perms);
      if role == ADMIN {
        next := next + ({RBAC_MANAGE, MENU_SETTINGS} * known);
      }
      if create {
        if role in roles {
          return Exists;
        }
        roles := roles + {role};
      } else {
        if role !in roles {
          return NotFound;
        }
        var refused := GuardLastRBACManageRole(role, next);
        if refused {
          return LastManager;
        }
      }
      grants := grants[role := next];
      answer := Ok;
    }

    method GuardLastRBACManageRole(role: string, next: set<string>) returns (refused: bool)
      ensures refused <==> GuardRefuses(State(), role, next)
    {
      if RBAC_MANAGE !in GrantsOf(State(), role) || RBAC_MANAGE in next {
        return false;
      }
      var total := CountManagers();
      var inRole := CountInRole(role);
      refused := total <= inRole;
    }
  }

  lemma OneCounted(all: set<string>, left: set<string>, key: string)
    requires key in left
    ensures |all - (left - {key})| == |all - left| + (if key in all then 1 else 0)
  {
    assert all - (left - {key}) == (all - left) + (if key in all then {key} else {});
  }

  lemma SanitizeOne(perms: set<string>, p: string, known: set<string>)
    ensures Sanitize(perms + {p}, known) ==
      Sanitize(perms, known) + (if TrimSpace(p) != "" && TrimSpace(p) in known then {TrimSpace(p)} else {})
  {
  }
}
