/** Value types shared by the cache, the store and the dispatcher: the two
    entities the system manages, time instants, and the error and option
    wrappers the replies are built from. */
module Schema {

  /** A 128-bit identifier, as the `uuid` crate's `Uuid`. */
  newtype Uuid = x: int | 0 <= x < 0x1_0000_0000_0000_0000_0000_0000_0000_0000

  /** Earliest and latest instants `NaiveDateTime` can hold, in whole seconds
      since the Unix epoch (-262143-01-01T00:00:00 and +262142-12-31T23:59:59
      in the proleptic Gregorian calendar). */
  const MIN_INSTANT: int := -8334601315200
  const MAX_INSTANT: int := 8210266876799

  /** A `NaiveDateTime`, at whole-second resolution. */
  type Instant = t: int | MIN_INSTANT <= t <= MAX_INSTANT

  /** Lifetime of a cache entry: one minute. */
  const TTL: int := 60

  datatype Option<T> = None | Some(value: T)

  /** `checked_add_signed`: the sum, or `None` when it leaves the range of
      `Instant`. */
  function CheckedAdd(t: Instant, d: int): (r: Option<Instant>)
    ensures r.None? <==> t + d < MIN_INSTANT || MAX_INSTANT < t + d
    ensures r.Some? ==> r.value - t == d
  {
    if MIN_INSTANT <= t + d <= MAX_INSTANT then Some(t + d) else None
  }

  /** A content page; `path` is its key. */
  datatype Page = Page(
    path: string,
    createdAt: Instant,
    createdBy: Uuid,
    modifiedAt: Instant,
    modifiedBy: Uuid,
    published: bool,
    metadata: seq<string>,
    body: string)

  /** An administrative user; `id` is its key. */
  datatype AdminUser = AdminUser(id: Uuid, username: string, enabled: bool, email: string)

  /** The failures a store operation reports: no row for `fetch_one`, a
      uniqueness violation for `INSERT`, anything else (connection, pool,
      transport). */
  datatype StoreError = NotFound | Conflict | Unavailable

  datatype Result<T> = Ok(value: T) | Err(error: StoreError)
}
