/** The command dispatcher: one sequential step of the data-access actor.
    Given a command it consults or updates the cache, calls the store, and
    produces exactly one reply. Reads are cache-aside; only `SetPage` writes
    through; deletes do not evict. */
module Process {
  import opened Schema
  import opened Cache
  import opened Store

  datatype Command =
    | GetPage(path: string, skipCache: bool)
    | SetPage(newPage: Page)
    | DeletePage(path: string)
    | NewPage(newPage: Page)
    | GetUser(id: Uuid, skipCache: bool)
    | SetUser(newUser: AdminUser)
    | DeleteUser(id: Uuid)
    | NewUser(newUser: AdminUser)

  /** The value sent on a command's one-shot reply channel. */
  datatype Reply =
    | PageReply(page: Result<Page>)
    | UserReply(user: Result<AdminUser>)
    | UnitReply(done: Result<()>)
  {
    predicate Failed() {
      match this
      case PageReply(r) => r.Err?
      case UserReply(r) => r.Err?
      case UnitReply(r) => r.Err?
    }
  }

  /** The reply has the type the command's reply channel carries. */
  predicate Answers(c: Command, reply: Reply) {
    match c
    case GetPage(_, _) => reply.PageReply?
    case GetUser(_, _) => reply.UserReply?
    case _ => reply.UnitReply?
  }

  /** The cache key of the entity a command names. */
  function KeyOf(c: Command): CacheKey {
    match c
    case GetPage(path, _) => PageKey(path)
    case SetPage(p) => PageKey(p.path)
    case DeletePage(path) => PageKey(path)
    case NewPage(p) => PageKey(p.path)
    case GetUser(id, _) => UserKey(id)
    case SetUser(u) => UserKey(u.id)
    case DeleteUser(id) => UserKey(id)
    case NewUser(u) => UserKey(u.id)
  }

  /** What the dispatcher reads and writes: both relations and the cache. */
  datatype State = State(pages: map<string, Page>, users: map<Uuid, AdminUser>, cache: Table)

  predicate Consistent(s: State) {
    Keyed(s.pages, s.users) && WellKeyed(s.cache)
  }

  /** The reply, the state after the command, and whether the store was
      called. */
  datatype Outcome = Outcome(reply: Reply, next: State, queried: bool)

  /** One command at instant `now`; `fail` says whether its store operation,
      if any, fails. */
  function Step(c: Command, s: State, now: Instant, fail: bool): (o: Outcome)
    ensures Answers(c, o.reply)
    ensures !o.queried ==> o.next == s
    ensures fail ==> o.next == s
    ensures o.reply.Failed() ==> o.next == s
    ensures !(c.GetPage? || c.GetUser? || c.SetPage?) ==> o.next.cache == s.cache
    ensures Keyed(s.pages, s.users) ==>
              forall k | k in s.cache && k != KeyOf(c) :: k in o.next.cache && o.next.cache[k] == s.cache[k]
    ensures Keyed(s.pages, s.users) ==> o.next.cache.Keys <= s.cache.Keys + {KeyOf(c)}
    ensures Consistent(s) ==> Consistent(o.next)
  {
    match c
    case GetPage(path, skipCache) =>
      var hit := LookupPage(s.cache, path);
      if !skipCache && hit.Some? then Outcome(PageReply(Ok(hit.value)), s, false)
      else
        var fetched := Fetch(s.pages, path, fail);
        if fetched.Err? then Outcome(PageReply(Err(fetched.error)), s, true)
        else Outcome(PageReply(Ok(fetched.value)), s.(cache := WithPage(s.cache, fetched.value, now)), true)
    case SetPage(p) =>
      if fail then Outcome(UnitReply(Err(Unavailable)), s, true)
      else
        var pages := if p.path in s.pages then s.pages[p.path := UpdatedPage(s.pages[p.path], p)] else s.pages;
        Outcome(UnitReply(Ok(())), s.(pages := pages, cache := WithPage(s.cache, p, now)), true)
    case DeletePage(path) =>
      if fail then Outcome(UnitReply(Err(Unavailable)), s, true)
      else Outcome(UnitReply(Ok(())), s.(pages := s.pages - {path}), true)
    case NewPage(p) =>
      if fail then Outcome(UnitReply(Err(Unavailable)), s, true)
      else if p.path in s.pages then Outcome(UnitReply(Err(Conflict)), s, true)
      else Outcome(UnitReply(Ok(())), s.(pages := s.pages[p.path := InsertedPage(p)]), true)
    case GetUser(id, skipCache) =>
      var hit := LookupUser(s.cache, id);
      if !skipCache && hit.Some? then Outcome(UserReply(Ok(hit.value)), s, false)
      else
        var fetched := Fetch(s.users, id, fail);
        if fetched.Err? then Outcome(UserReply(Err(fetched.error)), s, true)
        else Outcome(UserReply(Ok(fetched.value)), s.(cache := WithUser(s.cache, fetched.value, now)), true)
    case SetUser(u) =>
      if fail then Outcome(UnitReply(Err(Unavailable)), s, true)
      else
        var users := if u.id in s.users then s.users[u.id := u] else s.users;
        Outcome(UnitReply(Ok(())), s.(users := users), true)
    case DeleteUser(id) =>
      if fail then Outcome(UnitReply(Err(Unavailable)), s, true)
      else Outcome(UnitReply(Ok(())), s.(users := s.users - {id}), true)
    case NewUser(u) =>
      if fail then Outcome(UnitReply(Err(Unavailable)), s, true)
      else if u.id in s.users then Outcome(UnitReply(Err(Conflict)), s, true)
      else Outcome(UnitReply(Ok(())), s.(users := s.users[u.id := u]), true)
  }

  /** A read with the cache allowed and a hit replies with the cached value,
      calls no store and changes nothing. */
  lemma GetHitServedFromCache(s: State, c: Command, now: Instant, fail: bool)
    requires c.GetPage? || c.GetUser?
    requires !c.skipCache
    requires c.GetPage? ==> LookupPage(s.cache, c.path).Some?
    requires c.GetUser? ==> LookupUser(s.cache, c.id).Some?
    ensures var o := Step(c, s, now, fail);
            !o.queried && o.next == s &&
            (c.GetPage? ==> o.reply == PageReply(Ok(LookupPage(s.cache, c.path).value))) &&
            (c.GetUser? ==> o.reply == UserReply(Ok(LookupUser(s.cache, c.id).value)))
  {
  }

  /** A page read that misses, or skips the cache, calls the store; on success
      it replies with the stored row and caches it, so the cache warms even on
      a forced refresh. */
  lemma GetPageMissFetchesAndCaches(s: State, path: string, skipCache: bool, now: Instant)
    requires Keyed(s.pages, s.users)
    requires skipCache || LookupPage(s.cache, path).None?
    requires path in s.pages
    ensures var o := Step(GetPage(path, skipCache), s, now, false);
            o.queried &&
            o.reply == PageReply(Ok(s.pages[path])) &&
            o.next.pages == s.pages && o.next.users == s.users &&
            o.next.cache == WithPage(s.cache, s.pages[path], now) &&
            (now + TTL <= MAX_INSTANT ==> LookupPage(o.next.cache, path) == Some(s.pages[path]))
  {
  }

  lemma GetUserMissFetchesAndCaches(s: State, id: Uuid, skipCache: bool, now: Instant)
    requires Keyed(s.pages, s.users)
    requires skipCache || LookupUser(s.cache, id).None?
    requires id in s.users
    ensures var o := Step(GetUser(id, skipCache), s, now, false);
            o.queried &&
            o.reply == UserReply(Ok(s.users[id])) &&
            o.next.pages == s.pages && o.next.users == s.users &&
            o.next.cache == WithUser(s.cache, s.users[id], now) &&
            (now + TTL <= MAX_INSTANT ==> LookupUser(o.next.cache, id) == Some(s.users[id]))
  {
  }

  /** A read that reaches the store and fails (a missing row or an
      unavailable store) replies with that error and caches nothing. */
  lemma GetStoreErrorCachesNothing(s: State, c: Command, now: Instant, fail: bool)
    requires c.GetPage? || c.GetUser?
    requires c.skipCache || ((c.GetPage? ==> LookupPage(s.cache, c.path).None?) && (c.GetUser? ==> LookupUser(s.cache, c.id).None?))
    requires fail || ((c.GetPage? ==> c.path !in s.pages) && (c.GetUser? ==> c.id !in s.users))
    ensures var o := Step(c, s, now, fail);
            var e := if fail then Unavailable else NotFound;
            o.queried && o.next == s &&
            (c.GetPage? ==> o.reply == PageReply(Err(e))) &&
            (c.GetUser? ==> o.reply == UserReply(Err(e)))
  {
  }

  /** `SetPage` writes through: on success the cache serves the new page; on a
      store failure the reply is the error and nothing changes. */
  lemma SetPageWritesThrough(s: State, p: Page, now: Instant, fail: bool)
    ensures var o := Step(SetPage(p), s, now, fail);
            o.queried &&
            (fail ==> o.reply == UnitReply(Err(Unavailable)) && o.next == s) &&
            (!fail ==> o.reply == UnitReply(Ok(())) && o.next.cache == WithPage(s.cache, p, now)) &&
            (!fail && now + TTL <= MAX_INSTANT ==> LookupPage(o.next.cache, p.path) == Some(p))
  {
  }

  /** The `UPDATE` leaves the stored metadata alone while the whole new page,
      metadata included, is cached: the two disagree after the command. */
  lemma SetPageMetadataDiverges(s: State, p: Page, now: Instant)
    requires p.path in s.pages && s.pages[p.path].metadata != p.metadata
    requires now + TTL <= MAX_INSTANT
    ensures var o := Step(SetPage(p), s, now, false);
            p.path in o.next.pages &&
            LookupPage(o.next.cache, p.path) == Some(p) &&
            o.next.pages[p.path].metadata == s.pages[p.path].metadata &&
            o.next.pages[p.path].metadata != p.metadata
  {
  }

  /** `SetUser`, `NewPage` and `NewUser` never touch the cache, whatever the
      store answers, unlike `SetPage`. */
  lemma NoWriteThroughExceptSetPage(s: State, c: Command, now: Instant, fail: bool)
    requires c.SetUser? || c.NewPage? || c.NewUser?
    ensures Step(c, s, now, fail).next.cache == s.cache
    ensures c.SetUser? && !fail && c.newUser.id in s.users ==>
              Step(c, s, now, fail).next.users[c.newUser.id] == c.newUser
  {
  }

  /** Creating a row that exists is a conflict and changes nothing. */
  lemma NewOnExistingKeyConflicts(s: State, c: Command, now: Instant)
    requires c.NewPage? || c.NewUser?
    requires c.NewPage? ==> c.newPage.path in s.pages
    requires c.NewUser? ==> c.newUser.id in s.users
    ensures Step(c, s, now, false) == Outcome(UnitReply(Err(Conflict)), s, true)
  {
  }

  /** Deletes succeed whether or not a row matched and leave the cache alone. */
  lemma DeleteDoesNotEvict(s: State, c: Command, now: Instant)
    requires c.DeletePage? || c.DeleteUser?
    ensures var o := Step(c, s, now, false);
            o.reply == UnitReply(Ok(())) && o.next.cache == s.cache &&
            (c.DeletePage? ==> c.path !in o.next.pages) &&
            (c.DeleteUser? ==> c.id !in o.next.users)
  {
  }

  /** After a successful delete of a cached page, a read that uses the cache
      still returns the deleted page, while the store no longer has it. */
  lemma StaleReadAfterDeletePage(s: State, path: string, now1: Instant, now2: Instant, fail2: bool)
    requires WellKeyed(s.cache) && PageKey(path) in s.cache
    ensures var o1 := Step(DeletePage(path), s, now1, false);
            var o2 := Step(GetPage(path, false), o1.next, now2, fail2);
            path !in o2.next.pages &&
            o2.reply == PageReply(Ok(s.cache[PageKey(path)].page)) && !o2.queried
  {
  }

  lemma StaleReadAfterDeleteUser(s: State, id: Uuid, now1: Instant, now2: Instant, fail2: bool)
    requires WellKeyed(s.cache) && UserKey(id) in s.cache
    ensures var o1 := Step(DeleteUser(id), s, now1, false);
            var o2 := Step(GetUser(id, false), o1.next, now2, fail2);
            id !in o2.next.users &&
            o2.reply == UserReply(Ok(s.cache[UserKey(id)].user)) && !o2.queried
  {
  }

  /** Read-after-write for pages: once `SetPage` succeeds, a read that uses
      the cache returns the new page without calling the store. */
  lemma ReadAfterSetPage(s: State, p: Page, now1: Instant, now2: Instant, fail2: bool)
    requires now1 + TTL <= MAX_INSTANT
    ensures var o1 := Step(SetPage(p), s, now1, false);
            var o2 := Step(GetPage(p.path, false), o1.next, now2, fail2);
            o2.reply == PageReply(Ok(p)) && !o2.queried
  {
  }

  /** The cache lock is held per cache call, not per command, so a sweep can
      run while a read that missed waits on the store, before the fetched row
      is cached. That order ends as if the sweep had run before the command:
      the miss stays a miss, the reply is the same, and the fetched row is
      cached into the swept table. */
  lemma SweepDuringStoreCall(s: State, c: Command, t: Instant, now: Instant, fail: bool)
    requires c.GetPage? || c.GetUser?
    requires c.GetPage? ==> c.skipCache || LookupPage(s.cache, c.path).None?
    requires c.GetUser? ==> c.skipCache || LookupUser(s.cache, c.id).None?
    ensures var o := Step(c, s, now, fail);
            var swept := Swept(s.cache, t);
            var o' := Step(c, s.(cache := swept), now, fail);
            o.queried && o'.queried && o'.reply == o.reply &&
            o'.next.pages == o.next.pages && o'.next.users == o.next.users &&
            o'.next.cache ==
              match o.reply
              case PageReply(r) => if r.Ok? then WithPage(swept, r.value, now) else swept
              case UserReply(r) => if r.Ok? then WithUser(swept, r.value, now) else swept
              case UnitReply(_) => swept
  {
    MissSurvivesSweep(s.cache, if c.GetPage? then c.path else "", if c.GetUser? then c.id else 0, t);
  }

  /** Once the TTL of a page written by `SetPage` has passed and a sweep has
      run, the next read that uses the cache goes to the store. */
  lemma ReadAfterExpiryAndSweepQueries(s: State, p: Page, now1: Instant, now2: Instant, now3: Instant, fail3: bool)
    requires now2 > now1 + TTL
    ensures var o1 := Step(SetPage(p), s, now1, false);
            var swept := o1.next.(cache := Swept(o1.next.cache, now2));
            Step(GetPage(p.path, false), swept, now3, fail3).queried
  {
  }

  /** After a sweep at `t`, a cached read of any entry that expired before
      `t` goes to the store. */
  lemma ExpiredEntryReadQueries(s: State, c: Command, t: Instant, now: Instant, fail: bool)
    requires c.GetPage? || c.GetUser?
    requires KeyOf(c) in s.cache && s.cache[KeyOf(c)].validUntil < t
    ensures Step(c, s.(cache := Swept(s.cache, t)), now, fail).queried
  {
    SweptEntryMisses(s.cache, KeyOf(c), t);
  }

  /** What happens to the shared state, in the order the lock admits it:
      a command handled by the dispatcher, or one pass of the sweep. */
  datatype Event = Issue(c: Command, now: Instant, fail: bool) | Sweep(now: Instant)

  /** The commands among the events, in order. */
  function Commands(events: seq<Event>): seq<Command>
  {
    if events == [] then []
    else match events[0]
      case Issue(c, _, _) => [c] + Commands(events[1..])
      case Sweep(_) => Commands(events[1..])
  }

  datatype Trace = Trace(replies: seq<Reply>, final: State)

  /** Runs the events one after another from state `s`. */
  function Run(events: seq<Event>, s: State): (t: Trace)
    ensures |t.replies| == |Commands(events)|
    ensures forall i | 0 <= i < |t.replies| :: Answers(Commands(events)[i], t.replies[i])
    ensures Consistent(s) ==> Consistent(t.final)
  {
    if events == [] then Trace([], s)
    else match events[0]
      case Issue(c, now, fail) =>
        var o := Step(c, s, now, fail);
        var rest := Run(events[1..], o.next);
        Trace([o.reply] + rest.replies, rest.final)
      case Sweep(now) =>
        SweptShrinks(s.cache, now);
        Run(events[1..], s.(cache := Swept(s.cache, now)))
  }

  /** `cmd`: dispatches one command against the store and the cache and
      returns its reply. The store is called once unless the command is a
      read answered from the cache. */
  method Cmd(c: Command, store: Store, cache: Cache, now: Instant, fail: bool) returns (reply: Reply)
    modifies store, cache
    ensures var o := Step(c, State(old(store.pages), old(store.users), old(cache.storage)), now, fail);
            reply == o.reply &&
            store.pages == o.next.pages && store.users == o.next.users && cache.storage == o.next.cache &&
            store.calls == old(store.calls) + (if o.queried then 1 else 0)
    ensures Answers(c, reply)
    ensures old(store.Valid()) && old(cache.Valid()) ==> store.Valid() && cache.Valid()
  {
    match c
    case GetPage(path, skipCache) =>
      if !skipCache {
        var cached := cache.GetPage(path);
        if cached.Some? {
          return PageReply(Ok(cached.value));
        }
      }
      var fetched := store.FetchPage(path, fail);
      if fetched.Err? {
        return PageReply(Err(fetched.error));
      }
      cache.SetPage(fetched.value, now);
      reply := PageReply(Ok(fetched.value));
    case SetPage(newPage) =>
      var result := store.UpdatePage(newPage, fail);
      if result.Err? {
        reply := UnitReply(Err(result.error));
      } else {
        reply := UnitReply(Ok(()));
        cache.SetPage(newPage, now);
      }
    case DeletePage(path) =>
      var result := store.DeletePage(path, fail);
      reply := UnitReply(result);
    case NewPage(newPage) =>
      var result := store.InsertPage(newPage, fail);
      reply := UnitReply(result);
    case GetUser(id, skipCache) =>
      if !skipCache {
        var cached := cache.GetUser(id);
        if cached.Some? {
          return UserReply(Ok(cached.value));
        }
      }
      var fetched := store.FetchUser(id, fail);
      if fetched.Err? {
        return UserReply(Err(fetched.error));
      }
      cache.SetUser(fetched.value, now);
      reply := UserReply(Ok(fetched.value));
    case SetUser(newUser) =>
      var result := store.UpdateUser(newUser, fail);
      reply := UnitReply(result);
    case DeleteUser(id) =>
      var result := store.DeleteUser(id, fail);
      reply := UnitReply(result);
    case NewUser(newUser) =>
      var result := store.InsertUser(newUser, fail);
      reply := UnitReply(result);
  }
}
