/** The time-bounded cache in front of the store: a table from a tagged key
    to a tagged value snapshot with an absolute expiry. Lookups ignore the
    expiry; a periodic sweep removes what has expired. */
module Cache {
  import opened Schema

  datatype CacheKey = PageKey(path: string) | UserKey(id: Uuid)

  /** A snapshot of an entity and the instant until which it is valid. */
  datatype CacheValue =
    | PageEntry(page: Page, validUntil: Instant)
    | UserEntry(user: AdminUser, validUntil: Instant)

  type Table = map<CacheKey, CacheValue>

  /** Every key names the entity stored under it: a page key holds a page
      with that path, a user key a user with that id. */
  predicate WellKeyed(m: Table) {
    forall k | k in m ::
      match k
      case PageKey(path) => m[k].PageEntry? && m[k].page.path == path
      case UserKey(id) => m[k].UserEntry? && m[k].user.id == id
  }

  /** The answer of `get_page`: the page stored under `PageKey(path)`, or
      `None` when there is none or the stored variant is a user. */
  function LookupPage(m: Table, path: string): (r: Option<Page>)
    ensures r.Some? <==> PageKey(path) in m && m[PageKey(path)].PageEntry?
    ensures r.Some? ==> r.value == m[PageKey(path)].page
    ensures WellKeyed(m) && r.Some? ==> r.value.path == path
  {
    if PageKey(path) in m then
      match m[PageKey(path)]
      case PageEntry(page, _) => Some(page)
      case UserEntry(_, _) => None
    else None
  }

  /** The answer of `get_user`, symmetric to `LookupPage`. */
  function LookupUser(m: Table, id: Uuid): (r: Option<AdminUser>)
    ensures r.Some? <==> UserKey(id) in m && m[UserKey(id)].UserEntry?
    ensures r.Some? ==> r.value == m[UserKey(id)].user
    ensures WellKeyed(m) && r.Some? ==> r.value.id == id
  {
    if UserKey(id) in m then
      match m[UserKey(id)]
      case UserEntry(user, _) => Some(user)
      case PageEntry(_, _) => None
    else None
  }

  /** The table after `set_page(p)` at instant `now`. */
  function WithPage(m: Table, p: Page, now: Instant): (r: Table)
    ensures now + TTL > MAX_INSTANT ==> r == m
    ensures now + TTL <= MAX_INSTANT ==>
              PageKey(p.path) in r && r[PageKey(p.path)] == PageEntry(p, now + TTL)
    ensures forall k | k in m && k != PageKey(p.path) :: k in r && r[k] == m[k]
    ensures r.Keys <= m.Keys + {PageKey(p.path)}
    ensures WellKeyed(m) ==> WellKeyed(r)
  {
    match CheckedAdd(now, TTL)
    case None => m
    case Some(validUntil) => m[PageKey(p.path) := PageEntry(p, validUntil)]
  }

  /** The table after `set_user(u)` at instant `now`. */
  function WithUser(m: Table, u: AdminUser, now: Instant): (r: Table)
    ensures now + TTL > MAX_INSTANT ==> r == m
    ensures now + TTL <= MAX_INSTANT ==>
              UserKey(u.id) in r && r[UserKey(u.id)] == UserEntry(u, now + TTL)
    ensures forall k | k in m && k != UserKey(u.id) :: k in r && r[k] == m[k]
    ensures r.Keys <= m.Keys + {UserKey(u.id)}
    ensures WellKeyed(m) ==> WellKeyed(r)
  {
    match CheckedAdd(now, TTL)
    case None => m
    case Some(validUntil) => m[UserKey(u.id) := UserEntry(u, validUntil)]
  }

  predicate Expired(v: CacheValue, now: Instant) {
    v.validUntil < now
  }

  /** The table after one sweep at instant `now`. */
  function Swept(m: Table, now: Instant): (r: Table)
    ensures forall k :: k in r <==> k in m && !Expired(m[k], now)
    ensures forall k | k in r :: r[k] == m[k] && r[k].validUntil >= now
  {
    map k | k in m && !Expired(m[k], now) :: m[k]
  }

  /** After a set that does not overflow, the get of the same key returns
      exactly what was set. */
  lemma GetPageAfterSetPage(m: Table, p: Page, now: Instant)
    requires now + TTL <= MAX_INSTANT
    ensures LookupPage(WithPage(m, p, now), p.path) == Some(p)
  {
  }

  lemma GetUserAfterSetUser(m: Table, u: AdminUser, now: Instant)
    requires now + TTL <= MAX_INSTANT
    ensures LookupUser(WithUser(m, u, now), u.id) == Some(u)
  {
  }

  /** In a well-keyed table a present key always holds the matching variant,
      so the lookups' variant-mismatch arm is never taken. */
  lemma LookupMatchesVariant(m: Table, path: string, id: Uuid)
    requires WellKeyed(m)
    ensures PageKey(path) in m ==> LookupPage(m, path) == Some(m[PageKey(path)].page)
    ensures UserKey(id) in m ==> LookupUser(m, id) == Some(m[UserKey(id)].user)
  {
  }

  /** Lookups ignore expiry: an expired entry not yet swept is still served. */
  lemma ExpiredEntryStillServed(m: Table, p: Page, validUntil: Instant, now: Instant)
    requires PageKey(p.path) in m && m[PageKey(p.path)] == PageEntry(p, validUntil)
    requires validUntil < now
    ensures LookupPage(m, p.path) == Some(p)
  {
  }

  lemma ExpiredUserStillServed(m: Table, u: AdminUser, validUntil: Instant, now: Instant)
    requires UserKey(u.id) in m && m[UserKey(u.id)] == UserEntry(u, validUntil)
    requires validUntil < now
    ensures LookupUser(m, u.id) == Some(u)
  {
  }

  /** A miss stays a miss after a sweep: sweeping only removes entries. */
  lemma MissSurvivesSweep(m: Table, path: string, id: Uuid, t: Instant)
    ensures LookupPage(m, path).None? ==> LookupPage(Swept(m, t), path).None?
    ensures LookupUser(m, id).None? ==> LookupUser(Swept(m, t), id).None?
  {
  }

  /** An entry whose expiry is before the sweep's instant is gone afterwards,
      so the next lookup of its key misses. */
  lemma SweptEntryMisses(m: Table, k: CacheKey, t: Instant)
    requires k in m && m[k].validUntil < t
    ensures k !in Swept(m, t)
    ensures k.PageKey? ==> LookupPage(Swept(m, t), k.path).None?
    ensures k.UserKey? ==> LookupUser(Swept(m, t), k.id).None?
  {
  }

  /** Sweeping twice at the same instant removes nothing more. */
  lemma SweptIdempotent(m: Table, now: Instant)
    ensures Swept(Swept(m, now), now) == Swept(m, now)
  {
  }

  /** A sweep never adds keys and keeps the table well keyed. */
  lemma SweptShrinks(m: Table, now: Instant)
    ensures Swept(m, now).Keys <= m.Keys
    ensures WellKeyed(m) ==> WellKeyed(Swept(m, now))
  {
  }

  /** The shared table, owned by the dispatcher and its sweep. */
  class Cache {
    var storage: Table

    constructor ()
      ensures storage == map[]
    {
      storage := map[];
    }

    ghost predicate Valid()
      reads this
    {
      WellKeyed(storage)
    }

    /** Reads the table only; the expiry plays no part. */
    method GetPage(path: string) returns (r: Option<Page>)
      ensures r.Some? <==> PageKey(path) in storage && storage[PageKey(path)].PageEntry?
      ensures r.Some? ==> r.value == storage[PageKey(path)].page
      ensures Valid() && PageKey(path) in storage ==> r.Some?
      ensures r == LookupPage(storage, path)
    {
      if PageKey(path) in storage {
        match storage[PageKey(path)]
        case PageEntry(page, _) =>
          r := Some(page);
        case UserEntry(_, _) =>
          r := None;
      } else {
        r := None;
      }
    }

    method GetUser(id: Uuid) returns (r: Option<AdminUser>)
      ensures r.Some? <==> UserKey(id) in storage && storage[UserKey(id)].UserEntry?
      ensures r.Some? ==> r.value == storage[UserKey(id)].user
      ensures Valid() && UserKey(id) in storage ==> r.Some?
      ensures r == LookupUser(storage, id)
    {
      if UserKey(id) in storage {
        match storage[UserKey(id)]
        case UserEntry(user, _) =>
          r := Some(user);
        case PageEntry(_, _) =>
          r := None;
      } else {
        r := None;
      }
    }

    /** Inserts or overwrites the entry for `page.path` with expiry
        `now + TTL`; does nothing when that sum overflows. */
    method SetPage(page: Page, now: Instant)
      modifies this
      ensures storage == WithPage(old(storage), page, now)
      ensures old(Valid()) ==> Valid()
    {
      var validUntil;
      match CheckedAdd(now, TTL) {
        case Some(t) =>
          validUntil := t;
        case None =>
          return;
      }
      storage := storage[PageKey(page.path) := PageEntry(page, validUntil)];
    }

    method SetUser(user: AdminUser, now: Instant)
      modifies this
      ensures storage == WithUser(old(storage), user, now)
      ensures old(Valid()) ==> Valid()
    {
      var validUntil;
      match CheckedAdd(now, TTL) {
        case Some(t) =>
          validUntil := t;
        case None =>
          return;
      }
      storage := storage[UserKey(user.id) := UserEntry(user, validUntil)];
    }

    /** One pass of the background sweep: walks a snapshot of the table and
        removes from the live table every entry whose expiry is before `now`. */
    method SweepExpired(now: Instant)
      modifies this
      ensures storage == Swept(old(storage), now)
      ensures old(Valid()) ==> Valid()
    {
      var snapshot := storage;
      var pending := snapshot.Keys;
      while pending != {}
        invariant pending <= snapshot.Keys
        invariant forall k :: k in storage <==>
                    k in snapshot && (k in pending || !Expired(snapshot[k], now))
        invariant forall k | k in storage :: storage[k] == snapshot[k]
        decreases pending
      {
        var key :| key in pending;
        var value := snapshot[key];
        if value.validUntil < now {
          storage := storage - {key};
        }
        pending := pending - {key};
      }
      SweptShrinks(snapshot, now);
    }
  }
}
