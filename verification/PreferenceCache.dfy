/** The read cache in front of the preference table: how old a hit may be, how many entries it keeps, and what an
    invalidation is worth. A miss looks, reads the table and stores in three steps, between which anything may happen. */
module PreferenceCache {
  import opened Status
  import opened Text
  import opened Consent

  /** An absent preference is cached too. */
  datatype Entry = Entry(preference: Option<Preference>, expiresAt: int)

  const DEFAULT_TTL := 60000
  const DEFAULT_MAX_ENTRIES := 50000

  datatype Limits = Limits(ttl: int, maxEntries: nat)

  function Hit(entries: map<string, Entry>, user: string, now: int): Option<Entry> {
    if user in entries && now < entries[user].expiresAt then Some(entries[user]) else None
  }

  function Fresh(entries: map<string, Entry>, now: int): map<string, Entry> {
    map user | user in entries && now < entries[user].expiresAt :: entries[user]
  }

  function Only(entries: map<string, Entry>, kept: set<string>): map<string, Entry> {
    map user | user in entries && user in kept :: entries[user]
  }

  /** What may be left after storing: everything up to the limit; beyond it the unexpired entries; and if these are too
      many, any nine tenths of the limit of them. */
  predicate Keeps(entries: map<string, Entry>, limit: nat, now: int, kept: set<string>) {
    if |entries| <= limit then kept == entries.Keys
    else if |Fresh(entries, now)| <= limit then kept == Fresh(entries, now).Keys
    else kept <= Fresh(entries, now).Keys && |kept| == limit * 9 / 10
  }

  predicate Expired(entries: map<string, Entry>, user: string, now: int)
    requires user in entries
  {
    now >= entries[user].expiresAt
  }

  /** No more is evicted than must be: nothing up to the limit, and nothing unexpired unless there is more of it than that; and
      then no more than a tenth of the limit is left free. */
  lemma EvictsNoMore(entries: map<string, Entry>, limit: nat, now: int, kept: set<string>)
    requires Keeps(entries, limit, now, kept)
    ensures kept <= entries.Keys && |kept| <= limit
    ensures |entries| > limit ==> forall user :: user in kept ==> !Expired(entries, user, now)
    ensures forall user :: user in entries && user !in kept ==>
      |entries| > limit && (Expired(entries, user, now) || (|Fresh(entries, now)| > limit && |kept| == limit * 9 / 10))
  {
    KeptFew(entries, limit, now, kept);
  }

  // ---- calls that overlap ----

  /** A miss under way: before its read of the table, and after it. The steps are numbered. */
  datatype Miss =
    | Reading(user: string, start: int)
    | Storing(user: string, start: int, preference: Option<Preference>, readAt: int, readStep: nat)

  /** History of an entry: when it was read, and at which steps it was read and stored. */
  datatype Origin = Origin(readAt: int, readStep: nat, storedStep: nat)

  /** `origins`, `steps`, `invalidations` (the steps at which a user was invalidated) and `now` are history. */
  datatype Cache = Cache(
    entries: map<string, Entry>, misses: map<nat, Miss>, nextMiss: nat,
    origins: map<string, Origin>, steps: nat, invalidations: map<string, set<nat>>, now: int)
  {
    function Invalidated(user: string): set<nat> {
      if user in invalidations then invalidations[user] else {}
    }
  }

  datatype Step =
    | Look(name: string, at: int)
    | Get(miss: nat, at: int)
    | GetFails(miss: nat, at: int)
    | Store(miss: nat, kept: set<string>, at: int)
    | Invalidate(name: string, at: int)

  const EMPTY := Cache(map[], map[], 0, map[], 0, map[], 0)

  function Stored(l: Limits, c: Cache, miss: nat): map<string, Entry>
    requires miss in c.misses && c.misses[miss].Storing?
  {
    var m := c.misses[miss];
    c.entries[m.user := Entry(m.preference, m.start + l.ttl)]
  }

  /** `table` is what the preference table holds at every moment. */
  function Moved(l: Limits, table: (string, int) -> Option<Preference>, c: Cache, step: Step): Cache {
    match step
    case Look(name, at) =>
      var user := TrimSpace(name);
      if user == "" || Hit(c.entries, user, at).Some? then c
      else c.(misses := c.misses[c.nextMiss := Reading(user, at)], nextMiss := c.nextMiss + 1)
    case Get(miss, at) =>
      if miss in c.misses && c.misses[miss].Reading? then
        var m := c.misses[miss];
        c.(misses := c.misses[miss := Storing(m.user, m.start, table(m.user, at), at, c.steps)])
      else c
    case GetFails(miss, at) =>
      if miss in c.misses && c.misses[miss].Reading? then c.(misses := c.misses - {miss}) else c
    case Store(miss, kept, at) =>
      if miss in c.misses && c.misses[miss].Storing? && Keeps(Stored(l, c, miss), l.maxEntries, c.misses[miss].start, kept) then
        var m := c.misses[miss];
        c.(entries := Only(Stored(l, c, miss), kept), misses := c.misses - {miss},
           origins := c.origins[m.user := Origin(m.readAt, m.readStep, c.steps)])
      else c
    case Invalidate(name, at) =>
      var user := TrimSpace(name);
      if user == "" then c
      else c.(entries := c.entries - {user}, invalidations := c.invalidations[user := c.Invalidated(user) + {c.steps}])
  }

  /** A look begins a miss exactly for a user with a name whose entry is missing or expired, and changes nothing else. */
  lemma LooksUp(l: Limits, table: (string, int) -> Option<Preference>, c: Cache, name: string, at: int)
    ensures var c', user := Moved(l, table, c, Look(name, at)), TrimSpace(name);
      if user != "" && (user !in c.entries || Expired(c.entries, user, at))
      then c' == c.(misses := c.misses[c.nextMiss := Reading(user, at)], nextMiss := c.nextMiss + 1)
      else c' == c
  {
  }

  function Next(l: Limits, table: (string, int) -> Option<Preference>, c: Cache, step: Step): Cache {
    Moved(l, table, c, step).(steps := c.steps + 1, now := step.at)
  }

  function After(l: Limits, table: (string, int) -> Option<Preference>, steps: seq<Step>): Cache {
    if steps == [] then EMPTY else Next(l, table, After(l, table, steps[..|steps| - 1]), steps[|steps| - 1])
  }

  /** A clock that starts at zero and does not go back. */
  predicate InOrder(steps: seq<Step>) {
    && (forall i :: 0 <= i < |steps| ==> steps[i].at >= 0)
    && (forall i, j :: 0 <= i < j < |steps| ==> steps[i].at <= steps[j].at)
  }

  predicate EntryOk(l: Limits, table: (string, int) -> Option<Preference>, c: Cache, user: string)
    requires user in c.entries
  {
    && user in c.origins
    && var e, o := c.entries[user], c.origins[user];
      && e.preference == table(user, o.readAt)
      && e.expiresAt - l.ttl <= o.readAt <= c.now
      && o.readStep < o.storedStep < c.steps
      && (forall n :: n in c.Invalidated(user) ==> n < o.storedStep)
  }

  predicate MissOk(table: (string, int) -> Option<Preference>, c: Cache, m: Miss) {
    && m.start <= c.now
    && (m.Storing? ==> m.preference == table(m.user, m.readAt) && m.start <= m.readAt <= c.now && m.readStep < c.steps)
  }

  predicate EntriesOk(l: Limits, table: (string, int) -> Option<Preference>, c: Cache) {
    |c.entries| <= l.maxEntries && forall user :: user in c.entries ==> EntryOk(l, table, c, user)
  }

  predicate MissesOk(table: (string, int) -> Option<Preference>, c: Cache) {
    forall miss :: miss in c.misses ==> MissOk(table, c, c.misses[miss])
  }

  ghost predicate InvalidatedBefore(c: Cache) {
    forall user, n :: n in c.Invalidated(user) ==> n < c.steps
  }

  ghost predicate Inv(l: Limits, table: (string, int) -> Option<Preference>, c: Cache) {
    EntriesOk(l, table, c) && MissesOk(table, c) && InvalidatedBefore(c)
  }

  lemma KeptFew(entries: map<string, Entry>, limit: nat, now: int, kept: set<string>)
    requires Keeps(entries, limit, now, kept)
    ensures Only(entries, kept).Keys == kept && |Only(entries, kept)| <= limit
  {
    assert Only(entries, kept).Keys == kept;
    assert |Only(entries, kept)| == |kept|;
    assert |entries| == |entries.Keys| && |Fresh(entries, now)| == |Fresh(entries, now).Keys|;
  }

  lemma EntryStays(l: Limits, table: (string, int) -> Option<Preference>, c: Cache, c': Cache, user: string)
    requires user in c.entries && EntryOk(l, table, c, user)
    requires user in c'.entries && c'.entries[user] == c.entries[user] && c'.Invalidated(user) == c.Invalidated(user)
    requires user in c'.origins && c'.origins[user] == c.origins[user] && c.steps <= c'.steps && c.now <= c'.now
    ensures EntryOk(l, table, c', user)
  {
  }

  lemma MissStays(table: (string, int) -> Option<Preference>, c: Cache, c': Cache, m: Miss)
    requires MissOk(table, c, m) && c.steps <= c'.steps && c.now <= c'.now
    ensures MissOk(table, c', m)
  {
  }

  lemma StoredOk(l: Limits, table: (string, int) -> Option<Preference>, c: Cache, c': Cache, miss: nat)
    requires miss in c.misses && c.misses[miss].Storing? && MissOk(table, c, c.misses[miss]) && c.now <= c'.now
    requires InvalidatedBefore(c)
    requires var m := c.misses[miss];
      && m.user in c'.origins && c'.origins[m.user] == Origin(m.readAt, m.readStep, c.steps) && c'.steps == c.steps + 1
      && c'.invalidations == c.invalidations
      && (m.user in c'.entries ==> c'.entries[m.user] == Entry(m.preference, m.start + l.ttl))
    ensures c.misses[miss].user in c'.entries ==> EntryOk(l, table, c', c.misses[miss].user)
  {
    assert c'.Invalidated(c.misses[miss].user) == c.Invalidated(c.misses[miss].user);
  }

  lemma StoreEntries(l: Limits, table: (string, int) -> Option<Preference>, c: Cache, miss: nat, kept: set<string>, at: int)
    requires Inv(l, table, c) && c.now <= at
    requires miss in c.misses && c.misses[miss].Storing? && Keeps(Stored(l, c, miss), l.maxEntries, c.misses[miss].start, kept)
    ensures EntriesOk(l, table, Next(l, table, c, Store(miss, kept, at)))
  {
    var c' := Next(l, table, c, Store(miss, kept, at));
    KeptFew(Stored(l, c, miss), l.maxEntries, c.misses[miss].start, kept);
    StoredOk(l, table, c, c', miss);
    forall user | user in c'.entries ensures EntryOk(l, table, c', user) {
      if user != c.misses[miss].user { EntryStays(l, table, c, c', user); }
    }
  }

  lemma SameEntries(l: Limits, table: (string, int) -> Option<Preference>, c: Cache, c': Cache)
    requires EntriesOk(l, table, c) && c.steps <= c'.steps && c.now <= c'.now && c'.origins == c.origins
    requires forall user :: user in c'.entries ==>
      user in c.entries && c'.entries[user] == c.entries[user] && c'.Invalidated(user) == c.Invalidated(user)
    ensures EntriesOk(l, table, c')
  {
    assert c'.entries.Keys <= c.entries.Keys;
    FewerKeys(c'.entries.Keys, c.entries.Keys);
    forall user | user in c'.entries ensures EntryOk(l, table, c', user) {
      EntryStays(l, table, c, c', user);
    }
  }

  lemma FewerKeys(a: set<string>, b: set<string>)
    requires a <= b
    ensures |a| <= |b|
  {
    assert b == a + (b - a);
  }

  lemma MissesStay(l: Limits, table: (string, int) -> Option<Preference>, c: Cache, step: Step)
    requires MissesOk(table, c) && c.now <= step.at
    ensures MissesOk(table, Next(l, table, c, step))
  {
    var c' := Next(l, table, c, step);
    forall miss | miss in c'.misses ensures MissOk(table, c', c'.misses[miss]) {
      if miss in c.misses { MissStays(table, c, c', c.misses[miss]); }
    }
  }

  lemma InvalidationsStay(l: Limits, table: (string, int) -> Option<Preference>, c: Cache, step: Step)
    requires InvalidatedBefore(c)
    ensures InvalidatedBefore(Next(l, table, c, step))
  {
    var c' := Next(l, table, c, step);
    forall user, n | n in c'.Invalidated(user) ensures n < c'.steps {
      assert n in c.Invalidated(user) || n == c.steps;
    }
  }

  lemma StoreStep(l: Limits, table: (string, int) -> Option<Preference>, c: Cache, step: Step)
    requires Inv(l, table, c) && c.now <= step.at && step.Store?
    ensures EntriesOk(l, table, Next(l, table, c, step))
  {
    if step.miss in c.misses && c.misses[step.miss].Storing? {
      if Keeps(Stored(l, c, step.miss), l.maxEntries, c.misses[step.miss].start, step.kept) {
        StoreEntries(l, table, c, step.miss, step.kept, step.at);
        return;
      }
    }
    SameEntries(l, table, c, c.(steps := c.steps + 1, now := step.at));
  }

  lemma InvalidateStep(l: Limits, table: (string, int) -> Option<Preference>, c: Cache, name: string, at: int)
    requires EntriesOk(l, table, c) && c.now <= at
    ensures EntriesOk(l, table, Next(l, table, c, Invalidate(name, at)))
  {
    var c' := Next(l, table, c, Invalidate(name, at));
    forall user | user in c'.entries ensures c'.Invalidated(user) == c.Invalidated(user) {
      assert user != TrimSpace(name) || c'.invalidations == c.invalidations;
    }
    SameEntries(l, table, c, c');
  }

  lemma MissLeaves(l: Limits, table: (string, int) -> Option<Preference>, c: Cache, step: Step)
    requires !step.Store? && !step.Invalidate?
    ensures var c' := Next(l, table, c, step);
      && c'.entries == c.entries && c'.origins == c.origins && c'.invalidations == c.invalidations
      && c'.steps == c.steps + 1 && c'.now == step.at
  {
  }

  lemma MissStep(l: Limits, table: (string, int) -> Option<Preference>, c: Cache, step: Step)
    requires EntriesOk(l, table, c) && c.now <= step.at && !step.Store? && !step.Invalidate?
    ensures EntriesOk(l, table, Next(l, table, c, step))
  {
    var c' := Next(l, table, c, step);
    MissLeaves(l, table, c, step);
    forall user | user in c'.entries ensures c'.Invalidated(user) == c.Invalidated(user) {}
    SameEntries(l, table, c, c');
  }

  lemma NextKeeps(l: Limits, table: (string, int) -> Option<Preference>, c: Cache, step: Step)
    requires Inv(l, table, c) && c.now <= step.at
    ensures Inv(l, table, Next(l, table, c, step))
  {
    MissesStay(l, table, c, step);
    InvalidationsStay(l, table, c, step);
    if step.Store? {
      StoreStep(l, table, c, step);
    } else if step.Invalidate? {
      InvalidateStep(l, table, c, step.name, step.at);
    } else {
      MissStep(l, table, c, step);
    }
  }

  lemma {:induction false} RunKeeps(l: Limits, table: (string, int) -> Option<Preference>, steps: seq<Step>)
    requires InOrder(steps)
    ensures Inv(l, table, After(l, table, steps))
    ensures After(l, table, steps).now == if steps == [] then 0 else steps[|steps| - 1].at
  {
    if steps != [] {
      var n := |steps| - 1;
      RunKeeps(l, table, steps[..n]);
      var c := After(l, table, steps[..n]);
      NextKeeps(l, table, c, steps[n]);
    }
  }

  /** However calls overlap, a hit is what the table held less than `ttl` before. It was read before the user was last
      invalidated if and only if an invalidation of that user fell between its read and its storing. */
  lemma HitsAreRecent(l: Limits, table: (string, int) -> Option<Preference>, steps: seq<Step>, user: string, at: int)
    requires InOrder(steps)
    requires var c := After(l, table, steps); c.now <= at && Hit(c.entries, user, at).Some?
    ensures var c := After(l, table, steps);
      && user in c.origins
      && var o := c.origins[user];
        && Hit(c.entries, user, at).value.preference == table(user, o.readAt) && at - l.ttl < o.readAt <= at
        && ((exists n :: n in c.Invalidated(user) && n > o.readStep)
              <==> exists n :: n in c.Invalidated(user) && o.readStep < n < o.storedStep)
  {
    RunKeeps(l, table, steps);
    assert EntryOk(l, table, After(l, table, steps), user);
  }

  lemma CacheIsBounded(l: Limits, table: (string, int) -> Option<Preference>, steps: seq<Step>)
    requires InOrder(steps)
    ensures |After(l, table, steps).entries| <= l.maxEntries
  {
    RunKeeps(l, table, steps);
  }

  // ---- an invalidation that comes too early ----

  /** A miss reads the table, the user's row is written and the user invalidated, and only then the miss stores what it
      read. */
  const TOO_EARLY: seq<Step> := [Look("u", 0), Get(0, 1), Invalidate("u", 2), Store(0, {"u"}, 3)]

  lemma TooEarlyInOrder()
    ensures InOrder(TOO_EARLY)
  {
  }

  /** The old preference is served for the rest of the entry's life. */
  lemma InvalidatedTooEarly(l: Limits, table: (string, int) -> Option<Preference>, at: int)
    requires l.ttl > 3 && l.maxEntries > 0 && 3 <= at < l.ttl && table("u", 1) == None && table("u", 2).Some?
    ensures InOrder(TOO_EARLY) && Hit(After(l, table, TOO_EARLY).entries, "u", at) == Some(Entry(None, l.ttl))
  {
    TooEarlyInOrder();
    TooEarlyEnds(l, table);
  }

  lemma TooEarlyEnds(l: Limits, table: (string, int) -> Option<Preference>)
    requires l.maxEntries > 0 && table("u", 1) == None
    ensures After(l, table, TOO_EARLY).entries == map["u" := Entry(None, l.ttl)]
  {
    AfterThree(l, table);
    TooEarlySteps(l, table);
    assert TOO_EARLY[..4] == TOO_EARLY;
    StepOn(l, table, 3);
  }

  lemma AfterTwo(l: Limits, table: (string, int) -> Option<Preference>)
    requires l.maxEntries > 0 && table("u", 1) == None
    ensures After(l, table, TOO_EARLY[..2]) == GOT
  {
    TooEarlySteps(l, table);
    assert TOO_EARLY[..0] == [];
    StepOn(l, table, 0);
    StepOn(l, table, 1);
  }

  lemma AfterThree(l: Limits, table: (string, int) -> Option<Preference>)
    requires l.maxEntries > 0 && table("u", 1) == None
    ensures After(l, table, TOO_EARLY[..3]) == DROPPED
  {
    AfterTwo(l, table);
    TooEarlySteps(l, table);
    StepOn(l, table, 2);
  }

  lemma StepOn(l: Limits, table: (string, int) -> Option<Preference>, i: nat)
    requires i < 4
    ensures After(l, table, TOO_EARLY[..i + 1]) == Next(l, table, After(l, table, TOO_EARLY[..i]), TOO_EARLY[i])
  {
    assert TOO_EARLY[..i + 1][..i] == TOO_EARLY[..i];
  }

  const LOOKED := EMPTY.(misses := map[0 := Reading("u", 0)], nextMiss := 1, steps := 1)
  const GOT := LOOKED.(misses := map[0 := Storing("u", 0, None, 1, 1)], steps := 2, now := 1)
  const DROPPED := GOT.(invalidations := map["u" := {2}], steps := 3, now := 2)

  lemma TooEarlySteps(l: Limits, table: (string, int) -> Option<Preference>)
    requires l.maxEntries > 0 && table("u", 1) == None
    ensures
      && Next(l, table, EMPTY, TOO_EARLY[0]) == LOOKED && Next(l, table, LOOKED, TOO_EARLY[1]) == GOT
      && Next(l, table, GOT, TOO_EARLY[2]) == DROPPED
      && Next(l, table, DROPPED, TOO_EARLY[3]).entries == map["u" := Entry(None, l.ttl)]
  {
    assert TrimSpace("u") == "u";
    assert Stored(l, DROPPED, 0) == map["u" := Entry(None, l.ttl)];
    assert Stored(l, DROPPED, 0).Keys == {"u"};
    assert |Stored(l, DROPPED, 0)| == 1;
    assert Only(Stored(l, DROPPED, 0), {"u"}) == Stored(l, DROPPED, 0);
  }

  // ---- the resolver ----

  class Resolver {
    const limits: Limits
    var entries: map<string, Entry>

    constructor (ttlMs: int, limit: int)
      ensures entries == map[]
      ensures limits == Limits(if ttlMs <= 0 then DEFAULT_TTL else ttlMs, if limit <= 0 then DEFAULT_MAX_ENTRIES else limit)
    {
      limits := Limits(if ttlMs <= 0 then DEFAULT_TTL else ttlMs, if limit <= 0 then DEFAULT_MAX_ENTRIES else limit);
      entries := map[];
    }

    /** The unexpired entry, if any. */
    method LookUp(user: string, now: int) returns (found: Option<Entry>)
      ensures found == Hit(entries, user, now)
    {
      found := None;
      if user in entries && now < entries[user].expiresAt {
        found := Some(entries[user]);
      }
    }

    /** Stores what a miss read; the entry's time runs from the start of the miss. */
    method Save(user: string, preference: Option<Preference>, start: int)
      requires limits.maxEntries > 0
      modifies this
      ensures var full := old(entries)[user := Entry(preference, start + limits.ttl)];
        Keeps(full, limits.maxEntries, start, entries.Keys) && entries == Only(full, entries.Keys)
    {
      entries := Evict(entries[user := Entry(preference, start + limits.ttl)], limits.maxEntries, start);
    }

    /** One call that nothing interrupts. `fromTable` is what the table gives, if it can be read. */
    method Resolve(name: string, now: int, fromTable: Option<Preference>, readable: bool)
      returns (ok: bool, preference: Option<Preference>)
      requires limits.maxEntries > 0
      modifies this
      ensures var user := TrimSpace(name);
        if user == "" then ok && preference == None && entries == old(entries)
        else if old(Hit(entries, user, now)).Some? then
          ok && preference == old(Hit(entries, user, now)).value.preference && entries == old(entries)
        else if !readable then !ok && entries == old(entries)
        else
          var full := old(entries)[user := Entry(fromTable, now + limits.ttl)];
          ok && preference == fromTable && Keeps(full, limits.maxEntries, now, entries.Keys) && entries == Only(full, entries.Keys)
    {
      var user := TrimSpace(name);
      if user == "" {
        return true, None;
      }
      var found := LookUp(user, now);
      if found.Some? {
        return true, found.value.preference;
      }
      if !readable {
        return false, None;
      }
      Save(user, fromTable, now);
      return true, fromTable;
    }

    method Invalidate(name: string)
      modifies this
      ensures entries == if TrimSpace(name) == "" then old(entries) else old(entries) - {TrimSpace(name)}
    {
      var user := TrimSpace(name);
      if user == "" {
        return;
      }
      entries := entries - {user};
    }
  }

  /** Over the limit, expired entries go first; if that is not enough, any go until nine tenths are left. */
  method Evict(entries: map<string, Entry>, limit: nat, now: int) returns (kept: map<string, Entry>)
    requires limit > 0
    ensures Keeps(entries, limit, now, kept.Keys) && kept == Only(entries, kept.Keys)
  {
    kept := entries;
    if |kept| <= limit {
      return;
    }
    var left := entries.Keys;
    while left != {}
      invariant left <= entries.Keys
      invariant forall user :: user in kept <==> user in entries && (user in left || now < entries[user].expiresAt)
      invariant forall user :: user in kept ==> kept[user] == entries[user]
      decreases |left|
    {
      var user :| user in left;
      left := left - {user};
      if now >= entries[user].expiresAt {
        kept := kept - {user};
      }
    }
    assert kept == Fresh(entries, now);
    if |kept| <= limit {
      return;
    }
    var target := limit * 9 / 10;
    while |kept| > target
      invariant kept.Keys <= Fresh(entries, now).Keys && |kept| >= target
      invariant forall user :: user in kept ==> user in entries && kept[user] == entries[user]
      decreases |kept|
    {
      var user :| user in kept;
      CardLess(kept, user);
      kept := kept - {user};
    }
  }

  lemma CardLess(m: map<string, Entry>, user: string)
    requires user in m
    ensures |m - {user}| == |m| - 1
  {
    assert (m - {user}).Keys == m.Keys - {user};
    assert |m.Keys| == |m| && |(m - {user}).Keys| == |m - {user}|;
  }
}
