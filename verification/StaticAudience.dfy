/** Paging through a static segment by offset, and what a split of one covers. */
module StaticAudience {
  import opened Status
  import opened TaskRows
  import opened Audience
  import opened Protocol
  import opened Decimal
  import opened Splitter

  const MAX_PAGE := 1000

  /** What is asked for, if it is in range; else the default or the most there is. */
  function PageSize(requested: int): (size: nat)
    ensures 1 <= size <= MAX_PAGE && (1 <= requested <= MAX_PAGE ==> size == requested)
  {
    if requested <= 0 then 200 else if requested > MAX_PAGE then MAX_PAGE else requested
  }

  /** The page at the offset the token names; a token that is no offset is an error. */
  function Resolve(members: seq<TargetUser>, token: string, requested: int): Option<Page> {
    var size := PageSize(requested);
    var parsed := if token == "" then Some(0) else Atoi(token);
    if parsed.None? || parsed.value < 0 then None
    else if parsed.value >= |members| then Some(Page([], "", false))
    else
      var offset := parsed.value;
      var end := if offset + size > |members| then |members| else offset + size;
      Some(Page(members[offset..end], if end < |members| then Itoa(end) else "", end < |members|))
  }

  function Segment(members: seq<TargetUser>, requested: int): Resolver {
    (token: string) => Resolve(members, token, requested)
  }

  /** A token that names no offset is refused, and so is one that is negative; an offset past the end finds an empty last
      page. */
  lemma SegmentRefuses(members: seq<TargetUser>, requested: int, token: string)
    ensures Segment(members, requested)(token).None? <==> token != "" && (Atoi(token).None? || Atoi(token).value < 0)
    ensures token != "" && Atoi(token).Some? && Atoi(token).value >= |members| ==>
              Segment(members, requested)(token) == Some(Page([], "", false))
  {
  }

  /** Pages it takes to read `left` members. */
  function PagesNeeded(left: nat, size: nat): nat
    requires size > 0
  {
    if left <= size then 1 else 1 + PagesNeeded(left - size, size)
  }

  predicate Names(token: string, offset: nat) {
    (token == "" && offset == 0) || (token != "" && Atoi(token) == Some(offset))
  }

  /** A page that holds the members from `offset` on and says whether more follow. */
  predicate PageFrom(page: Option<Page>, members: seq<TargetUser>, size: nat, token: string, offset: nat)
    requires offset <= |members|
  {
    var end := offset + size;
    && page.Some?
    && page.value.hasMore == (end < |members|)
    && page.value.users == (if end < |members| then members[offset..end] else members[offset..])
    && (end < |members| ==> Names(page.value.next, end) && page.value.next != token)
  }

  ghost predicate Serves(resolve: Resolver, members: seq<TargetUser>, size: nat) {
    forall token: string, offset: nat {:trigger PageFrom(resolve(token), members, size, token, offset)} ::
      offset <= |members| && Names(token, offset) ==> PageFrom(resolve(token), members, size, token, offset)
  }

  lemma SegmentServes(members: seq<TargetUser>, requested: int)
    requires |members| <= MAX_INT64
    ensures Serves(Segment(members, requested), members, PageSize(requested))
  {
    var size := PageSize(requested);
    forall token: string, offset: nat | offset <= |members| && Names(token, offset)
      ensures PageFrom(Segment(members, requested)(token), members, size, token, offset)
    {
      if offset + size < |members| {
        AtoiItoa(offset + size);
      }
    }
  }

  lemma WalkTaken(resolve: Resolver, token: string, n: nat, page: Page)
    requires n > 0 && resolve(token) == Some(page)
    ensures page.hasMore && page.next != "" && page.next != token ==>
      Walk(resolve, token, n) == [page] + Walk(resolve, page.next, n - 1) && WalkEnd(resolve, token, n) == WalkEnd(resolve, page.next, n - 1)
    ensures !page.hasMore ==> Walk(resolve, token, n) == [page] && WalkEnd(resolve, token, n) == SplitDone
  {
  }

  /** Reading on from an offset ends well exactly when the pages needed may be read. */
  lemma {:induction false} PagingEnds(resolve: Resolver, members: seq<TargetUser>, size: nat, token: string, offset: nat, n: nat)
    requires size > 0 && offset <= |members| && Names(token, offset) && Serves(resolve, members, size)
    ensures WalkEnd(resolve, token, n) == if n >= PagesNeeded(|members| - offset, size) then SplitDone else TooManyPages
    decreases n
  {
    if n > 0 {
      assert PageFrom(resolve(token), members, size, token, offset);
      var page := resolve(token).value;
      WalkTaken(resolve, token, n, page);
      if page.hasMore {
        PagingEnds(resolve, members, size, page.next, offset + size, n - 1);
      }
    }
  }

  lemma NamedIsNotEmpty(token: string, offset: nat)
    requires Names(token, offset) && offset > 0
    ensures token != ""
  {
  }

  lemma OnePage(page: Page)
    ensures UsersOfPages([page]) == page.users
  {
    assert [page][..0] == [];
  }

  lemma RestOfUsers(members: seq<TargetUser>, offset: nat, end: nat, page: Page, rest: seq<Page>)
    requires offset <= end <= |members|
    requires page.users == members[offset..end] && UsersOfPages(rest) == members[end..]
    ensures UsersOfPages([page] + rest) == members[offset..]
  {
    UsersOfPagesCons(page, rest);
    assert members[offset..end] + members[end..] == members[offset..];
  }

  /** And it then yields the rest of the members, in order. */
  lemma {:induction false} PagingCovers(resolve: Resolver, members: seq<TargetUser>, size: nat, token: string, offset: nat, n: nat)
    requires size > 0 && offset <= |members| && Names(token, offset) && Serves(resolve, members, size)
    requires n >= PagesNeeded(|members| - offset, size)
    ensures UsersOfPages(Walk(resolve, token, n)) == members[offset..]
    decreases n
  {
    assert PageFrom(resolve(token), members, size, token, offset);
    var page := resolve(token).value;
    WalkTaken(resolve, token, n, page);
    if page.hasMore {
      NamedIsNotEmpty(page.next, offset + size);
      PagingCovers(resolve, members, size, page.next, offset + size, n - 1);
      RestOfUsers(members, offset, offset + size, page, Walk(resolve, page.next, n - 1));
    } else {
      OnePage(page);
    }
  }

  /** Users of the rows a split wrote, shard after shard. */
  ghost function ShardUsers(cfg: Config, db: Db, owner: string, version: int, pages: seq<Page>, now: int): seq<string> {
    var s := Paged(cfg, Begun(db, owner, version), owner, pages, now);
    if owner in s.splits then Flatten(s.splits[owner].shards) else []
  }

  /** The walk over a whole segment: whether it ends, and what it reads when it does. */
  lemma SegmentWalk(members: seq<TargetUser>, requested: int, n: nat)
    requires |members| <= MAX_INT64
    ensures var fits := PagesNeeded(|members|, PageSize(requested)) <= n;
      && WalkEnd(Segment(members, requested), "", n) == (if fits then SplitDone else TooManyPages)
      && (fits ==> UsersOfPages(Walk(Segment(members, requested), "", n)) == members)
  {
    SegmentServes(members, requested);
    PagingEnds(Segment(members, requested), members, PageSize(requested), "", 0, n);
    if n >= PagesNeeded(|members|, PageSize(requested)) { SegmentRead(members, requested, n); }
  }

  lemma SegmentRead(members: seq<TargetUser>, requested: int, n: nat)
    requires |members| <= MAX_INT64 && n >= PagesNeeded(|members|, PageSize(requested))
    ensures UsersOfPages(Walk(Segment(members, requested), "", n)) == members
  {
    SegmentServes(members, requested);
    PagingCovers(Segment(members, requested), members, PageSize(requested), "", 0, n);
    assert members[0..] == members;
  }

  /** A split over any resolver: a good end or an empty one comes of a walk that ends, with its kept users. */
  lemma WalkSplit(cfg: Config, maxPages: nat, resolve: Resolver, db: Db, owner: string, version: int,
                  end: SplitEnd, pages: seq<Page>, after: Db, now: int)
    requires Ended(cfg, maxPages, resolve, db, owner, version, end, pages, after, now)
    ensures var kept := KeptIds(cfg.filter, UsersOfPages(Walk(resolve, "", maxPages)));
      var fits := WalkEnd(resolve, "", maxPages) == SplitDone;
      && (end == SplitDone ==> fits && 0 < |kept| <= cfg.maxUsers && ShardUsers(cfg, db, owner, version, pages, now) == kept)
      && (end == AudienceEmpty ==> fits && kept == [])
      && (end == TooManyUsers ==> |kept| > cfg.maxUsers)
      && (end != SplitDone && end != AudienceEmpty && end != TooManyUsers ==> !fits)
  {
    match end
    case SplitDone => PagedFollows(cfg, db, owner, version, pages, now);
    case TooManyUsers => KeptPrefix(cfg, pages, Walk(resolve, "", maxPages));
    case _ =>
  }

  /** A split of a static segment by the lease holder ends well exactly when it has at most `maxPages` pages and
      between one and `maxUsers` users to keep; its shards then hold the kept members in order, each as often as the
      segment lists it. */
  lemma StaticSplitCovers(cfg: Config, maxPages: nat, members: seq<TargetUser>, requested: int, db: Db, owner: string,
                          version: int, end: SplitEnd, pages: seq<Page>, after: Db, now: int)
    requires |members| <= MAX_INT64
    requires Ended(cfg, maxPages, Segment(members, requested), db, owner, version, end, pages, after, now)
    ensures var kept := KeptIds(cfg.filter, members);
      var fits := PagesNeeded(|members|, PageSize(requested)) <= maxPages;
      && (end == SplitDone <==> fits && 0 < |kept| <= cfg.maxUsers)
      && (end == SplitDone ==> ShardUsers(cfg, db, owner, version, pages, now) == kept)
      && (end == AudienceEmpty <==> fits && kept == [])
  {
    SegmentWalk(members, requested, maxPages);
    WalkSplit(cfg, maxPages, Segment(members, requested), db, owner, version, end, pages, after, now);
  }

  lemma {:induction false} KeptPrefix(cfg: Config, a: seq<Page>, b: seq<Page>)
    requires a <= b
    ensures |KeptIds(cfg.filter, UsersOfPages(a))| <= |KeptIds(cfg.filter, UsersOfPages(b))|
    decreases |b|
  {
    if |a| < |b| {
      var n := |b| - 1;
      KeptPrefix(cfg, a, b[..n]);
      KeptIdsConcat(cfg.filter, UsersOfPages(b[..n]), b[n].users);
    } else {
      assert a == b;
    }
  }
}
