/** Splitting a campaign's audience into shards: the page loop, the page token, and paging through a static
    segment. Run alone, the loop does what the protocol's split steps do one after another. */
module Splitter {
  import opened Status
  import opened TaskRows
  import opened Aggregation
  import opened Audience
  import opened Protocol
  import opened TaskRepository

  datatype Page = Page(users: seq<TargetUser>, next: string, hasMore: bool)

  /** An audience: a page for each page token, or an error. The empty token is the first page. */
  type Resolver = string -> Option<Page>

  datatype SplitEnd =
    | SplitDone | CampaignCancelled | CampaignPaused | CampaignExpired | LostLease
    | TooManyPages | TooManyUsers | ResolveFailed | PageStuck | AudienceEmpty

  /** The next token, which must be new. */
  function AdvancePageToken(prev: string, page: Page): Option<string> {
    if page.next == "" || page.next == prev then None else Some(page.next)
  }

  // ---- what paging yields ----

  /** The pages read from `token` on, at most `n` of them. */
  function Walk(resolve: Resolver, token: string, n: nat): seq<Page>
    decreases n
  {
    if n == 0 || resolve(token).None? then []
    else
      var page := resolve(token).value;
      if page.hasMore && AdvancePageToken(token, page).Some? then [page] + Walk(resolve, page.next, n - 1) else [page]
  }

  /** How that walk ends. */
  function WalkEnd(resolve: Resolver, token: string, n: nat): SplitEnd
    decreases n
  {
    if n == 0 then TooManyPages
    else if resolve(token).None? then ResolveFailed
    else
      var page := resolve(token).value;
      if !page.hasMore then SplitDone
      else if AdvancePageToken(token, page).None? then PageStuck
      else WalkEnd(resolve, page.next, n - 1)
  }

  function UsersOfPages(pages: seq<Page>): seq<TargetUser> {
    if pages == [] then [] else UsersOfPages(pages[..|pages| - 1]) + pages[|pages| - 1].users
  }

  lemma {:induction false} UsersOfPagesCons(first: Page, rest: seq<Page>)
    ensures UsersOfPages([first] + rest) == first.users + UsersOfPages(rest)
    decreases |rest|
  {
    var all := [first] + rest;
    if rest == [] {
      assert all[..0] == [];
    } else {
      UsersOfPagesCons(first, rest[..|rest| - 1]);
      assert all[..|all| - 1] == [first] + rest[..|rest| - 1];
    }
  }

  /** The page read with this token names a token to go on with: another one, and not the empty one. */
  predicate LeadsOn(page: Page, token: string) {
    page.hasMore && page.next != "" && page.next != token
  }

  /** `tokens` are those the pages were read with, from `first` on, each given by the page before; and why there are no more. */
  predicate ReadWith(resolve: Resolver, first: string, n: nat, pages: seq<Page>, tokens: seq<string>, end: SplitEnd) {
    var k := |pages|;
    && |tokens| == k <= n
    && (k > 0 ==> tokens[0] == first)
    && (forall i :: 0 <= i < k ==> resolve(tokens[i]) == Some(pages[i]))
    && (forall i :: 0 <= i < k - 1 ==> LeadsOn(pages[i], tokens[i]) && tokens[i + 1] == pages[i].next)
    && match end
       case SplitDone => k > 0 && !pages[k - 1].hasMore
       case PageStuck => k > 0 && pages[k - 1].hasMore && pages[k - 1].next in {"", tokens[k - 1]}
       case ResolveFailed => k < n && (k > 0 ==> LeadsOn(pages[k - 1], tokens[k - 1])) && resolve(if k > 0 then pages[k - 1].next else first).None?
       case TooManyPages => k == n && (k > 0 ==> LeadsOn(pages[k - 1], tokens[k - 1]))
       case _ => false
  }

  lemma ReadOneBefore(resolve: Resolver, first: string, n: nat, page: Page, pages: seq<Page>, tokens: seq<string>, end: SplitEnd)
    requires n > 0 && resolve(first) == Some(page) && LeadsOn(page, first)
    requires ReadWith(resolve, page.next, n - 1, pages, tokens, end)
    ensures ReadWith(resolve, first, n, [page] + pages, [first] + tokens, end)
  {
  }

  /** Paging reads on as long as there is more and the token is a new one, no more than the budget allows; a page that has
      more but no new token is an error. */
  lemma {:induction false} WalkIs(resolve: Resolver, token: string, n: nat) returns (tokens: seq<string>)
    ensures ReadWith(resolve, token, n, Walk(resolve, token, n), tokens, WalkEnd(resolve, token, n))
    decreases n
  {
    tokens := [];
    if n > 0 && resolve(token).Some? {
      var page := resolve(token).value;
      if LeadsOn(page, token) {
        var rest := WalkIs(resolve, page.next, n - 1);
        ReadOneBefore(resolve, token, n, page, Walk(resolve, page.next, n - 1), rest, WalkEnd(resolve, page.next, n - 1));
        tokens := [token] + rest;
      } else {
        tokens := [token];
      }
    }
  }

  // ---- the protocol's split steps, one after another ----

  /** The pages written by the owner, each after a renewal of the lease. */
  function Paged(cfg: Config, s: Sys, owner: string, pages: seq<Page>, now: int): Sys {
    if pages == [] then s
    else
      var before := Paged(cfg, s, owner, pages[..|pages| - 1], now);
      WritePageStep(cfg, before.WithDb(before.store.db.RenewSplitLease(owner, now).db), owner, pages[|pages| - 1].users, now)
  }

  /** A campaign whose split lease `owner` just took, as the protocol sees it. */
  function Begun(db: Db, owner: string, version: int): Sys {
    Sys(Store(db, NO_COUNTERS), map[owner := Split(version, [], [], [], false)], map[], 0, {}, {}, {}, true, false, false)
  }

  /** The split of `s` by `owner`, not failing, has read `users` and put the kept ones into its shards. */
  ghost predicate Followed(cfg: Config, s: Sys, owner: string, version: int, users: seq<TargetUser>) {
    && owner in s.splits
    && (!s.splits[owner].failing ==>
          && s.splits[owner].raw == users
          && s.splits[owner].version == version
          && Flatten(s.splits[owner].shards) == KeptIds(cfg.filter, users))
  }

  lemma PageRecord(cfg: Config, s: Sys, owner: string, page: seq<TargetUser>, now: int)
    requires owner in s.splits
    ensures var s' := WritePageStep(cfg, s, owner, page, now);
      var ids := KeptIds(cfg.filter, page);
      && owner in s'.splits
      && (!s'.splits[owner].failing ==>
            && !s.splits[owner].failing
            && s'.splits[owner].raw == s.splits[owner].raw + page
            && s'.splits[owner].version == s.splits[owner].version
            && s'.splits[owner].shards == if ids == [] then s.splits[owner].shards else s.splits[owner].shards + [ids])
  {
  }

  lemma PageFollowed(cfg: Config, s: Sys, owner: string, version: int, users: seq<TargetUser>, page: seq<TargetUser>, now: int)
    requires Followed(cfg, s, owner, version, users)
    ensures Followed(cfg, WritePageStep(cfg, s, owner, page, now), owner, version, users + page)
  {
    PageRecord(cfg, s, owner, page, now);
    KeptIdsConcat(cfg.filter, users, page);
    FlattenAppend(s.splits[owner].shards, KeptIds(cfg.filter, page));
  }

  lemma {:induction false} PagedFollows(cfg: Config, db: Db, owner: string, version: int, pages: seq<Page>, now: int)
    ensures Followed(cfg, Paged(cfg, Begun(db, owner, version), owner, pages, now), owner, version, UsersOfPages(pages))
  {
    if pages != [] {
      var n := |pages| - 1;
      PagedFollows(cfg, db, owner, version, pages[..n], now);
      var before := Paged(cfg, Begun(db, owner, version), owner, pages[..n], now);
      PageFollowed(cfg, before.WithDb(before.store.db.RenewSplitLease(owner, now).db), owner, version,
                   UsersOfPages(pages[..n]), pages[n].users, now);
    }
  }

  /** The loop is where the protocol is: rows, next shard number and running total. */
  ghost predicate At(s: Sys, owner: string, cur: Db, shard: int, total: int) {
    && s.store.db == cur
    && owner in s.splits && !s.splits[owner].failing && |s.splits[owner].shards| == shard
    && Written(s.splits[owner].shards) == total && (shard > 0 <==> total > 0)
    && cur.main.status == Running && cur.main.owner == owner && owner != ""
  }

  /** After `pages`, that is. */
  ghost predicate InStep(cfg: Config, db: Db, owner: string, version: int, pages: seq<Page>, cur: Db, shard: int, total: int, now: int) {
    At(Paged(cfg, Begun(db, owner, version), owner, pages, now), owner, cur, shard, total)
  }

  lemma EmptyPageWritten(cfg: Config, db: Db, owner: string, version: int, pages: seq<Page>, cur: Db, shard: int, total: int, now: int, page: Page)
    requires InStep(cfg, db, owner, version, pages, cur, shard, total, now)
    requires KeptIds(cfg.filter, page.users) == []
    ensures cur.RenewSplitLease(owner, now).ok
    ensures InStep(cfg, db, owner, version, pages + [page], cur.RenewSplitLease(owner, now).db, shard, total, now)
  {
    assert (pages + [page])[..|pages|] == pages;
  }

  /** What writing a shard under a held lease does. */
  lemma ShardWritten(cfg: Config, s: Sys, owner: string, page: seq<TargetUser>, now: int)
    requires owner in s.splits && !s.splits[owner].failing && KeptIds(cfg.filter, page) != []
    requires s.Main().status == Running && s.Main().owner == owner && owner != ""
    ensures var ids := KeptIds(cfg.filter, page);
      var shards := s.splits[owner].shards + [ids];
      var created := s.store.db.CreateSubTasksWithLease(owner, [Shard(|s.splits[owner].shards|, ids)], now);
      var s' := WritePageStep(cfg, s, owner, page, now);
      && created.ok && owner in s'.splits
      && (if Written(shards) > cfg.maxUsers then s'.store.db == created.db
          else s'.store.db == created.db.PatchMainMeta(Written(shards), 0, now)
               && s'.splits[owner].shards == shards && !s'.splits[owner].failing)
  {
  }

  lemma PagedOneMore(cfg: Config, db: Db, owner: string, version: int, pages: seq<Page>, page: Page, now: int)
    ensures var s := Paged(cfg, Begun(db, owner, version), owner, pages, now);
      Paged(cfg, Begun(db, owner, version), owner, pages + [page], now)
        == WritePageStep(cfg, s.WithDb(s.store.db.RenewSplitLease(owner, now).db), owner, page.users, now)
  {
    assert (pages + [page])[..|pages|] == pages;
  }

  /** What writing a shard left: the row created, and unless the total got too large, the split one shard on. */
  ghost predicate ShardDone(cfg: Config, s: Sys, owner: string, page: seq<TargetUser>, cur: Db, shard: int, total: int, now: int) {
    var ids := KeptIds(cfg.filter, page);
    var created := cur.RenewSplitLease(owner, now).db.CreateSubTasksWithLease(owner, [Shard(shard, ids)], now);
    && created.ok
    && (if total + |ids| > cfg.maxUsers then s.store.db == created.db
        else At(s, owner, created.db.PatchMainMeta(total + |ids|, 0, now), shard + 1, total + |ids|))
  }

  lemma ShardStep(cfg: Config, s: Sys, s': Sys, owner: string, page: seq<TargetUser>, cur: Db, shard: int, total: int, now: int)
    requires At(s, owner, cur, shard, total) && KeptIds(cfg.filter, page) != []
    requires s' == WritePageStep(cfg, s.WithDb(s.store.db.RenewSplitLease(owner, now).db), owner, page, now)
    ensures ShardDone(cfg, s', owner, page, cur, shard, total, now)
  {
    var s1 := s.WithDb(cur.RenewSplitLease(owner, now).db);
    ShardWritten(cfg, s1, owner, page, now);
    FlattenAppend(s.splits[owner].shards, KeptIds(cfg.filter, page));
    CreatedMain(s1.store.db, owner, [Shard(shard, KeptIds(cfg.filter, page))], now);
  }

  lemma PageWritten(cfg: Config, db: Db, owner: string, version: int, pages: seq<Page>, cur: Db, shard: int, total: int, now: int, page: Page)
    requires InStep(cfg, db, owner, version, pages, cur, shard, total, now)
    ensures KeptIds(cfg.filter, page.users) == [] ||
      ShardDone(cfg, Paged(cfg, Begun(db, owner, version), owner, pages + [page], now), owner, page.users, cur, shard, total, now)
  {
    PagedOneMore(cfg, db, owner, version, pages, page, now);
    if KeptIds(cfg.filter, page.users) != [] {
      ShardStep(cfg, Paged(cfg, Begun(db, owner, version), owner, pages, now),
                Paged(cfg, Begun(db, owner, version), owner, pages + [page], now), owner, page.users, cur, shard, total, now);
    }
  }

  lemma CreatedMain(db: Db, owner: string, batch: seq<SubTask>, now: int)
    requires db.main.status == Running && db.main.owner == owner
    ensures var main := db.CreateSubTasksWithLease(owner, batch, now).db.main;
      main.status == Running && main.owner == owner
  {
  }

  lemma Begins(cfg: Config, db: Db, owner: string, version: int, now: int)
    requires db.main.status == Running && db.main.owner == owner && owner != ""
    ensures InStep(cfg, db, owner, version, [], db, 0, 0, now)
  {
  }

  lemma InStepKept(cfg: Config, db: Db, owner: string, version: int, pages: seq<Page>, cur: Db, shard: int, total: int, now: int)
    requires InStep(cfg, db, owner, version, pages, cur, shard, total, now)
    ensures total == |KeptIds(cfg.filter, UsersOfPages(pages))|
  {
    PagedFollows(cfg, db, owner, version, pages, now);
  }

  lemma KeptOfOneMore(cfg: Config, pages: seq<Page>, page: Page)
    ensures KeptIds(cfg.filter, UsersOfPages(pages + [page]))
         == KeptIds(cfg.filter, UsersOfPages(pages)) + KeptIds(cfg.filter, page.users)
  {
    assert (pages + [page])[..|pages|] == pages;
    KeptIdsConcat(cfg.filter, UsersOfPages(pages), page.users);
  }

  /** Where a page with kept users leaves the loop. */
  lemma PageEnds(cfg: Config, db: Db, owner: string, version: int, pages: seq<Page>, cur: Db, shard: int, total: int, now: int,
                 page: Page, ids: seq<string>, created: Reply)
    requires InStep(cfg, db, owner, version, pages, cur, shard, total, now) && ids == KeptIds(cfg.filter, page.users) != []
    requires created == cur.RenewSplitLease(owner, now).db.CreateSubTasksWithLease(owner, [Shard(shard, ids)], now)
    ensures created.ok
    ensures if total + |ids| > cfg.maxUsers then TooMany(cfg, db, owner, version, pages + [page], created.db, now)
      else InStep(cfg, db, owner, version, pages + [page], created.db.PatchMainMeta(total + |ids|, 0, now), shard + 1, total + |ids|, now)
  {
    PageWritten(cfg, db, owner, version, pages, cur, shard, total, now, page);
    InStepKept(cfg, db, owner, version, pages, cur, shard, total, now);
    KeptOfOneMore(cfg, pages, page);
  }

  /** The three statements that end a split are the protocol's finish step. */
  lemma FinishInStep(cfg: Config, db: Db, owner: string, version: int, pages: seq<Page>, cur: Db, shard: int, total: int, now: int)
    requires InStep(cfg, db, owner, version, pages, cur, shard, total, now) && shard > 0
    ensures FinishSplitStep(Paged(cfg, Begun(db, owner, version), owner, pages, now), owner, now).store.db
         == cur.UpdateMainStats(version, 0, 0, 0, Running, now).db.PatchMainMeta(total, shard, now).ClearSplitLease(now)
  {
    PagedFollows(cfg, db, owner, version, pages, now);
  }

  /** The whole walk, seen after `pages` with `token` naming the next one and at most `left` more to read. */
  function Whole(resolve: Resolver, pages: seq<Page>, token: string, left: nat): (seq<Page>, SplitEnd) {
    (pages + Walk(resolve, token, left), WalkEnd(resolve, token, left))
  }

  predicate Walking(resolve: Resolver, maxPages: nat, pages: seq<Page>, token: string, left: nat) {
    Whole(resolve, pages, token, left) == Whole(resolve, [], "", maxPages)
  }

  lemma WalkMore(resolve: Resolver, maxPages: nat, pages: seq<Page>, token: string, left: nat, page: Page)
    requires left > 0 && Walking(resolve, maxPages, pages, token, left) && resolve(token) == Some(page)
    requires page.hasMore && AdvancePageToken(token, page).Some?
    ensures Walking(resolve, maxPages, pages + [page], page.next, left - 1) && pages + [page] <= Walk(resolve, "", maxPages)
  {
    WalkOne(resolve, token, left, page);
    var rest := Walk(resolve, page.next, left - 1);
    var all := pages + ([page] + rest);
    assert all == pages + [page] + rest;
    assert Whole(resolve, pages, token, left) == Whole(resolve, [], "", maxPages);
    assert [] + Walk(resolve, "", maxPages) == Walk(resolve, "", maxPages);
    assert Whole(resolve, pages + [page], page.next, left - 1) == Whole(resolve, pages, token, left);
  }

  lemma WalkOne(resolve: Resolver, token: string, left: nat, page: Page)
    requires left > 0 && resolve(token) == Some(page) && page.hasMore && AdvancePageToken(token, page).Some?
    ensures Walk(resolve, token, left) == [page] + Walk(resolve, page.next, left - 1)
    ensures WalkEnd(resolve, token, left) == WalkEnd(resolve, page.next, left - 1)
  {
  }

  lemma WalkLast(resolve: Resolver, maxPages: nat, pages: seq<Page>, token: string, left: nat, page: Page)
    requires left > 0 && Walking(resolve, maxPages, pages, token, left) && resolve(token) == Some(page)
    requires !(page.hasMore && AdvancePageToken(token, page).Some?)
    ensures pages + [page] == Walk(resolve, "", maxPages)
    ensures WalkEnd(resolve, "", maxPages) == if page.hasMore then PageStuck else SplitDone
  {
    assert Whole(resolve, [], "", maxPages).0 == Walk(resolve, "", maxPages);
    assert Walk(resolve, token, left) == [page];
  }

  /** Reading one more page. */
  lemma WalkOn(resolve: Resolver, maxPages: nat, pages: seq<Page>, token: string, left: nat)
    requires left > 0 && Walking(resolve, maxPages, pages, token, left)
    ensures resolve(token).None? ==> WalkEnd(resolve, "", maxPages) == ResolveFailed
    ensures resolve(token).Some? ==>
      var page := resolve(token).value;
      && (page.hasMore && AdvancePageToken(token, page).Some? ==> Walking(resolve, maxPages, pages + [page], page.next, left - 1))
      && (!page.hasMore ==> pages + [page] == Walk(resolve, "", maxPages) && WalkEnd(resolve, "", maxPages) == SplitDone)
      && (page.hasMore && AdvancePageToken(token, page).None? ==> WalkEnd(resolve, "", maxPages) == PageStuck)
      && pages + [page] <= Walk(resolve, "", maxPages)
  {
    if resolve(token).Some? {
      var page := resolve(token).value;
      if page.hasMore && AdvancePageToken(token, page).Some? {
        WalkMore(resolve, maxPages, pages, token, left, page);
      } else {
        WalkLast(resolve, maxPages, pages, token, left, page);
      }
    }
  }

  /** The walk is over, and why. */
  predicate Halts(resolve: Resolver, maxPages: nat, end: SplitEnd, pages: seq<Page>) {
    match end
    case SplitDone => pages == Walk(resolve, "", maxPages) && WalkEnd(resolve, "", maxPages) == SplitDone
    case TooManyPages => WalkEnd(resolve, "", maxPages) == end
    case ResolveFailed => WalkEnd(resolve, "", maxPages) == end
    case PageStuck => WalkEnd(resolve, "", maxPages) == end
    case _ => true
  }

  /** The campaign is running and the splitter holds its lease. */
  predicate Live(main: MainTask, owner: string) {
    main.status == Running && main.owner == owner && owner != ""
  }

  /** What a split by the lease holder leaves behind, by the way it ended. */
  ghost predicate Ended(cfg: Config, maxPages: nat, resolve: Resolver, db: Db, owner: string, version: int,
                        end: SplitEnd, pages: seq<Page>, after: Db, now: int) {
    var s := Paged(cfg, Begun(db, owner, version), owner, pages, now);
    var kept := KeptIds(cfg.filter, UsersOfPages(pages));
    && pages <= Walk(resolve, "", maxPages)
    && match end
       case SplitDone =>
         && pages == Walk(resolve, "", maxPages) && WalkEnd(resolve, "", maxPages) == SplitDone
         && owner in s.splits && !s.splits[owner].failing
         && 0 < |kept| <= cfg.maxUsers
         && after == FinishSplitStep(s, owner, now).store.db
       case AudienceEmpty =>
         && WalkEnd(resolve, "", maxPages) == SplitDone && pages == Walk(resolve, "", maxPages)
         && kept == [] && after == s.store.db
       case TooManyUsers => |kept| > cfg.maxUsers && after == s.store.db
       case TooManyPages => WalkEnd(resolve, "", maxPages) == end && after == s.store.db
       case ResolveFailed => WalkEnd(resolve, "", maxPages) == end && after == s.store.db.RenewSplitLease(owner, now).db
       case PageStuck => WalkEnd(resolve, "", maxPages) == end && after == s.store.db
       case _ => false
  }

  /** The pages hold more kept users than allowed; the last one has been written all the same. */
  ghost predicate TooMany(cfg: Config, db: Db, owner: string, version: int, pages: seq<Page>, cur: Db, now: int) {
    && |KeptIds(cfg.filter, UsersOfPages(pages))| > cfg.maxUsers
    && cur == Paged(cfg, Begun(db, owner, version), owner, pages, now).store.db
  }

  /** What a turn of the page loop leaves in the database of a live split. */
  ghost predicate Turned(cfg: Config, db: Db, owner: string, version: int,
                         end: SplitEnd, pages: seq<Page>, cur: Db, shard: int, total: int, now: int) {
    match end
    case SplitDone => InStep(cfg, db, owner, version, pages, cur, shard, total, now) && total <= cfg.maxUsers
    case TooManyUsers => TooMany(cfg, db, owner, version, pages, cur, now)
    case ResolveFailed => cur == Paged(cfg, Begun(db, owner, version), owner, pages, now).store.db.RenewSplitLease(owner, now).db
    case _ => end in {TooManyPages, PageStuck} && cur == Paged(cfg, Begun(db, owner, version), owner, pages, now).store.db
  }

  lemma ReadEnds(cfg: Config, maxPages: nat, resolve: Resolver, db: Db, owner: string, version: int,
                 read: SplitEnd, pages: seq<Page>, cur: Db, shard: int, total: int, now: int)
    requires pages <= Walk(resolve, "", maxPages)
    requires Turned(cfg, db, owner, version, read, pages, cur, shard, total, now) && Halts(resolve, maxPages, read, pages)
    ensures read != SplitDone ==> Ended(cfg, maxPages, resolve, db, owner, version, read, pages, cur, now)
    ensures read == SplitDone && shard == 0 ==> Ended(cfg, maxPages, resolve, db, owner, version, AudienceEmpty, pages, cur, now)
    ensures read == SplitDone && shard != 0 ==>
              && cur.main.status != Cancelled
              && var done := cur.UpdateMainStats(version, 0, 0, 0, Running, now).db.PatchMainMeta(total, shard, now).ClearSplitLease(now);
                 Ended(cfg, maxPages, resolve, db, owner, version, SplitDone, pages, done, now)
  {
    if read == SplitDone {
      InStepKept(cfg, db, owner, version, pages, cur, shard, total, now);
      if shard > 0 { FinishInStep(cfg, db, owner, version, pages, cur, shard, total, now); }
    }
  }

  lemma BeginsTurned(cfg: Config, db: Db, owner: string, version: int, now: int)
    requires Live(db.main, owner)
    ensures Turned(cfg, db, owner, version, SplitDone, [], db, 0, 0, now)
  {
    Begins(cfg, db, owner, version, now);
  }

  lemma WalkStarts(resolve: Resolver, maxPages: nat)
    ensures Walking(resolve, maxPages, [], "", maxPages)
  {
  }

  lemma PagesOfWalk(resolve: Resolver, maxPages: nat, pages: seq<Page>, token: string, left: nat)
    requires Walking(resolve, maxPages, pages, token, left)
    ensures pages <= Walk(resolve, "", maxPages)
  {
    assert [] + Walk(resolve, "", maxPages) == Walk(resolve, "", maxPages);
    assert Walk(resolve, "", maxPages) == pages + Walk(resolve, token, left);
  }

  /** The page budget is used up and there is more. */
  lemma BudgetSpent(resolve: Resolver, maxPages: nat, pages: seq<Page>, token: string)
    requires Walking(resolve, maxPages, pages, token, 0)
    ensures Halts(resolve, maxPages, TooManyPages, pages)
  {
  }

  lemma SpentTurned(cfg: Config, db: Db, owner: string, version: int, pages: seq<Page>, cur: Db, shard: int, total: int, now: int)
    requires Turned(cfg, db, owner, version, SplitDone, pages, cur, shard, total, now)
    ensures Turned(cfg, db, owner, version, TooManyPages, pages, cur, shard, total, now)
  {
  }

  class Splitter {
    const tasks: TaskRepo
    const cfg: Config
    const maxPages: nat

    constructor (repo: TaskRepo, config: Config, pages: nat)
      ensures tasks == repo && cfg == config && maxPages == pages
    {
      tasks, cfg, maxPages := repo, config, pages;
    }

    /** The ids of a page that go into its shard. */
    method FilterPage(users: seq<TargetUser>) returns (ids: seq<string>)
      ensures ids == KeptIds(cfg.filter, users)
    {
      ids := [];
      for i := 0 to |users|
        invariant ids == KeptIds(cfg.filter, users[..i])
      {
        assert users[..i + 1] == users[..i] + [users[i]];
        KeptIdsConcat(cfg.filter, users[..i], [users[i]]);
        assert KeptIds(cfg.filter, [users[i]]) == if cfg.filter.Keeps(users[i]) then [users[i].id] else [];
        if cfg.filter.Keeps(users[i]) {
          ids := ids + [users[i].id];
        }
      }
      assert users[..|users|] == users;
    }

    /** Status and lease, checked at the head of every page. */
    method CheckLease(owner: string, now: int) returns (end: SplitEnd)
      modifies tasks
      ensures end in {SplitDone, CampaignCancelled, CampaignPaused, LostLease}
      ensures Live(old(tasks.main), owner) ==> end == SplitDone && tasks.State() == old(tasks.State()).RenewSplitLease(owner, now).db
      ensures owner != "" && !Live(old(tasks.main), owner) ==>
                end != SplitDone && (old(tasks.main).status != Cancelled ==> tasks.State() == old(tasks.State()))
    {
      if tasks.main.status == Cancelled {
        tasks.CancelUnfinishedSubTasks();
        return CampaignCancelled;
      }
      if tasks.main.status == Paused {
        return CampaignPaused;
      }
      if owner != "" {
        var ok := tasks.RenewSplitLease(owner, now);
        if !ok {
          return LostLease;
        }
      }
      end := SplitDone;
    }

    /** One page: its kept users become the next shard. `cur` is the database before the lease was renewed. */
    method WritePage(owner: string, page: Page, shard: int, total: int, now: int,
                     ghost db: Db, ghost version: int, ghost pages: seq<Page>, ghost cur: Db)
      returns (end: SplitEnd, shard': int, total': int)
      modifies tasks
      ensures end in {SplitDone, TooManyUsers, LostLease}
      ensures InStep(cfg, db, owner, version, pages, cur, shard, total, now) && old(tasks.State()) == cur.RenewSplitLease(owner, now).db ==>
        if end == SplitDone
        then InStep(cfg, db, owner, version, pages + [page], tasks.State(), shard', total', now) && total' <= Max(total, cfg.maxUsers)
        else end == TooManyUsers && TooMany(cfg, db, owner, version, pages + [page], tasks.State(), now)
    {
      shard', total' := shard, total;
      var ids := FilterPage(page.users);
      ghost var inStep := InStep(cfg, db, owner, version, pages, cur, shard, total, now);
      if |ids| == 0 {
        if inStep { EmptyPageWritten(cfg, db, owner, version, pages, cur, shard, total, now, page); }
        return SplitDone, shard', total';
      }
      if inStep {
        PageEnds(cfg, db, owner, version, pages, cur, shard, total, now, page, ids,
                 cur.RenewSplitLease(owner, now).db.CreateSubTasksWithLease(owner, [Shard(shard, ids)], now));
      }
      var created := tasks.CreateSubTasksWithLease(owner, [Shard(shard, ids)], now);
      if !created {
        return LostLease, shard', total';
      }
      total' := total + |ids|;
      if total' > cfg.maxUsers {
        return TooManyUsers, shard', total';
      }
      shard' := shard + 1;
      tasks.PatchMainMeta(total', 0, now);
      end := SplitDone;
    }

    /** Status, totals and lease at the end of a split. */
    method Finish(version: int, shard: int, total: int, now: int) returns (end: SplitEnd)
      modifies tasks
      ensures shard != 0 ==> (end == SplitDone <==> old(tasks.main).status != Cancelled)
      ensures var running := old(tasks.State()).UpdateMainStats(version, 0, 0, 0, Running, now).db;
        end == SplitDone ==> tasks.State() == running.PatchMainMeta(total, shard, now).ClearSplitLease(now)
      ensures shard == 0 ==> end == AudienceEmpty && tasks.State() == old(tasks.State())
    {
      if shard == 0 {
        return AudienceEmpty;
      }
      if tasks.main.status == Cancelled {
        tasks.CancelUnfinishedSubTasks();
        return CampaignCancelled;
      }
      var _ := tasks.UpdateMainTaskStats(version, 0, 0, 0, Running, now);
      tasks.PatchMainMeta(total, shard, now);
      tasks.ClearSplitLease(now);
      end := SplitDone;
    }

    /** The body of the page loop: check, resolve, write. */
    method NextPage(owner: string, resolve: Resolver, token: string, shard: int, total: int, now: int,
                    ghost db: Db, ghost version: int, ghost pages: seq<Page>)
      returns (end: SplitEnd, page: Page, shard': int, total': int, ghost pages': seq<Page>)
      modifies tasks
      ensures end in {SplitDone, TooManyUsers, CampaignCancelled, CampaignPaused, LostLease, ResolveFailed}
      ensures end == ResolveFailed ==> resolve(token).None?
      ensures pages' == pages || (resolve(token) == Some(page) && pages' == pages + [page])
      ensures end == SplitDone || end == TooManyUsers ==> pages' == pages + [page] && resolve(token) == Some(page)
      ensures !Turned(cfg, db, owner, version, SplitDone, pages, old(tasks.State()), shard, total, now) ||
        Turned(cfg, db, owner, version, end, pages', tasks.State(), shard', total', now)
      ensures owner != "" && !Live(old(tasks.main), owner) ==>
        end != SplitDone && (old(tasks.main).status != Cancelled ==> tasks.State() == old(tasks.State()))
    {
      pages', page, shard', total' := pages, Page([], "", false), shard, total;
      ghost var cur := tasks.State();
      end := CheckLease(owner, now);
      if end != SplitDone {
        return;
      }
      var resolved := resolve(token);
      if resolved.None? {
        end := ResolveFailed;
        return;
      }
      page := resolved.value;
      end, shard', total' := WritePage(owner, page, shard, total, now, db, version, pages, cur);
      pages' := pages + [page];
    }

    /** One turn of the page loop: the next page and the token after it, if any. */
    method Turn(owner: string, resolve: Resolver, token: string, shard: int, total: int, now: int,
                ghost db: Db, ghost version: int, ghost pages: seq<Page>, ghost left: nat)
      returns (end: SplitEnd, next: Option<string>, shard': int, total': int, ghost pages': seq<Page>)
      requires left > 0 && Walking(resolve, maxPages, pages, token, left)
      modifies tasks
      ensures pages <= Walk(resolve, "", maxPages) ==> pages' <= Walk(resolve, "", maxPages)
      ensures next.Some? ==> end == SplitDone && Walking(resolve, maxPages, pages', next.value, left - 1)
      ensures next.None? ==> Halts(resolve, maxPages, end, pages')
      ensures !Turned(cfg, db, owner, version, SplitDone, pages, old(tasks.State()), shard, total, now) ||
        Turned(cfg, db, owner, version, end, pages', tasks.State(), shard', total', now)
      ensures owner != "" && !Live(old(tasks.main), owner) ==>
        end != SplitDone && (old(tasks.main).status != Cancelled ==> tasks.State() == old(tasks.State()))
    {
      WalkOn(resolve, maxPages, pages, token, left);
      next := None;
      var page;
      end, page, shard', total', pages' := NextPage(owner, resolve, token, shard, total, now, db, version, pages);
      if end != SplitDone || !page.hasMore {
        return;
      }
      next := AdvancePageToken(token, page);
      if next.None? {
        end := PageStuck;
      }
    }

    /** The page loop. */
    method ReadPages(owner: string, resolve: Resolver, now: int, ghost version: int)
      returns (end: SplitEnd, shard: int, total: int, ghost pages: seq<Page>)
      modifies tasks
      ensures pages <= Walk(resolve, "", maxPages)
      ensures Halts(resolve, maxPages, end, pages)
      ensures !Live(old(tasks.main), owner) ||
                Turned(cfg, old(tasks.State()), owner, version, end, pages, tasks.State(), shard, total, now)
      ensures owner != "" && !Live(old(tasks.main), owner) ==>
                end != SplitDone && (old(tasks.main).status != Cancelled ==> tasks.State() == old(tasks.State()))
    {
      pages := [];
      ghost var db := tasks.State();
      ghost var live := Live(tasks.main, owner);
      if live { BeginsTurned(cfg, db, owner, version, now); }
      var pageToken, read := "", 0;
      ghost var left: nat := maxPages;
      shard, total := 0, 0;
      WalkStarts(resolve, maxPages);
      while true
        invariant read + left == maxPages
        invariant read > maxPages || Walking(resolve, maxPages, pages, pageToken, left)
        invariant !live || Turned(cfg, db, owner, version, SplitDone, pages, tasks.State(), shard, total, now)
        invariant owner != "" && !live ==> tasks.State() == db
        decreases left
      {
        PagesOfWalk(resolve, maxPages, pages, pageToken, left);
        if read + 1 > maxPages {
          end := TooManyPages;
          BudgetSpent(resolve, maxPages, pages, pageToken);
          if live { SpentTurned(cfg, db, owner, version, pages, tasks.State(), shard, total, now); }
          return;
        }
        var next;
        end, next, shard, total, pages := Turn(owner, resolve, pageToken, shard, total, now, db, version, pages, left);
        if next.None? {
          return;
        }
        pageToken := next.value;
        read, left := read + 1, left - 1;
      }
    }

    /** Splits the campaign read as `main`. Without an owner no lease is taken or checked. */
    method Split(main: MainTask, owner: string, resolve: Resolver, expired: bool, now: int)
      returns (end: SplitEnd, ghost pages: seq<Page>)
      modifies tasks
      ensures main.status == Cancelled ==> end == CampaignCancelled && tasks.State() == old(tasks.State())
      ensures main.status != Cancelled && expired ==> end == CampaignExpired && tasks.State() == old(tasks.State())
      ensures main.status != Cancelled && !expired && Live(old(tasks.main), owner) ==>
                Ended(cfg, maxPages, resolve, old(tasks.State()), owner, main.version, end, pages, tasks.State(), now)
      ensures owner != "" && !Live(old(tasks.main), owner) ==>
                end != SplitDone && (old(tasks.main).status != Cancelled ==> tasks.State() == old(tasks.State()))
    {
      pages := [];
      if main.status == Cancelled {
        return CampaignCancelled, pages;
      }
      if expired {
        return CampaignExpired, pages;
      }
      ghost var db := tasks.State();
      var shard, total;
      end, shard, total, pages := ReadPages(owner, resolve, now, main.version);
      ghost var cur := tasks.State();
      ghost var read := end;
      if end == SplitDone {
        end := Finish(main.version, shard, total, now);
      }
      if Live(db.main, owner) {
        ReadEnds(cfg, maxPages, resolve, db, owner, main.version, read, pages, cur, shard, total, now);
      }
    }
  }
}
