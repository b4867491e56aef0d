/** The persistent store, as the dispatcher sees it: two relations keyed by
    page path and by user id. Each operation takes a `fail` flag that stands
    for a failure of the connection, the pool or the transport; a failed
    operation changes nothing. SQL itself is not modelled. */
module Store {
  import opened Schema

  /** Every row sits under its own key. */
  predicate Keyed(pages: map<string, Page>, users: map<Uuid, AdminUser>) {
    (forall path | path in pages :: pages[path].path == path) &&
    (forall id | id in users :: users[id].id == id)
  }

  /** `fetch_one` of the row under `key`: not found when there is none. */
  function Fetch<K, V>(rows: map<K, V>, key: K, fail: bool): (r: Result<V>)
    ensures r.Ok? <==> !fail && key in rows
    ensures r.Ok? ==> r.value == rows[key]
    ensures r.Err? ==> r.error == if fail then Unavailable else NotFound
  {
    if fail then Err(Unavailable)
    else if key in rows then Ok(rows[key])
    else Err(NotFound)
  }

  /** The stored page after `UPDATE pages SET created_at, created_by,
      modified_at, modified_by, published, body WHERE path`: the path and the
      metadata stay as they were. */
  function UpdatedPage(stored: Page, update: Page): (r: Page)
    ensures r.path == stored.path && r.metadata == stored.metadata
    ensures r.(metadata := update.metadata, path := update.path) == update
  {
    stored.(createdAt := update.createdAt, createdBy := update.createdBy,
            modifiedAt := update.modifiedAt, modifiedBy := update.modifiedBy,
            published := update.published, body := update.body)
  }

  /** The row `INSERT INTO pages VALUES (...)` creates: the seven values it
      supplies, with the metadata column left at its default, empty. */
  function InsertedPage(p: Page): (r: Page)
    ensures r.metadata == [] && r.(metadata := p.metadata) == p
  {
    p.(metadata := [])
  }

  class Store {
    var pages: map<string, Page>
    var users: map<Uuid, AdminUser>
    /** The number of operations issued to the store so far. */
    ghost var calls: nat

    constructor (pages: map<string, Page>, users: map<Uuid, AdminUser>)
      ensures this.pages == pages && this.users == users && calls == 0
    {
      this.pages := pages;
      this.users := users;
      calls := 0;
    }

    ghost predicate Valid()
      reads this
    {
      Keyed(pages, users)
    }

    /** `SELECT * FROM pages WHERE path = $1` with `fetch_one`. */
    method FetchPage(path: string, fail: bool) returns (r: Result<Page>)
      modifies this`calls
      ensures calls == old(calls) + 1
      ensures r == Fetch(pages, path, fail)
      ensures Valid() && r.Ok? ==> r.value.path == path
    {
      calls := calls + 1;
      if fail {
        r := Err(Unavailable);
      } else if path in pages {
        r := Ok(pages[path]);
      } else {
        r := Err(NotFound);
      }
    }

    /** `SELECT * FROM admins WHERE id = $1` with `fetch_one`. */
    method FetchUser(id: Uuid, fail: bool) returns (r: Result<AdminUser>)
      modifies this`calls
      ensures calls == old(calls) + 1
      ensures r == Fetch(users, id, fail)
      ensures Valid() && r.Ok? ==> r.value.id == id
    {
      calls := calls + 1;
      if fail {
        r := Err(Unavailable);
      } else if id in users {
        r := Ok(users[id]);
      } else {
        r := Err(NotFound);
      }
    }

    /** `UPDATE pages ... WHERE path = $7`: succeeds even when no row matches. */
    method UpdatePage(page: Page, fail: bool) returns (r: Result<()>)
      modifies this
      ensures calls == old(calls) + 1 && users == old(users)
      ensures r == if fail then Err(Unavailable) else Ok(())
      ensures pages == if !fail && page.path in old(pages)
                       then old(pages)[page.path := UpdatedPage(old(pages)[page.path], page)]
                       else old(pages)
      ensures old(Valid()) ==> Valid()
    {
      calls := calls + 1;
      if fail {
        return Err(Unavailable);
      }
      if page.path in pages {
        pages := pages[page.path := UpdatedPage(pages[page.path], page)];
      }
      r := Ok(());
    }

    /** `UPDATE admins SET username, enabled, email WHERE id = $4`. */
    method UpdateUser(user: AdminUser, fail: bool) returns (r: Result<()>)
      modifies this
      ensures calls == old(calls) + 1 && pages == old(pages)
      ensures r == if fail then Err(Unavailable) else Ok(())
      ensures users == if !fail && user.id in old(users)
                       then old(users)[user.id := user]
                       else old(users)
      ensures old(Valid()) ==> Valid()
    {
      calls := calls + 1;
      if fail {
        return Err(Unavailable);
      }
      if user.id in users {
        users := users[user.id := user];
      }
      r := Ok(());
    }

    /** `DELETE FROM pages WHERE path = $1`: succeeds even when no row matches. */
    method DeletePage(path: string, fail: bool) returns (r: Result<()>)
      modifies this
      ensures calls == old(calls) + 1 && users == old(users)
      ensures r == if fail then Err(Unavailable) else Ok(())
      ensures pages == if fail then old(pages) else old(pages) - {path}
      ensures old(Valid()) ==> Valid()
    {
      calls := calls + 1;
      if fail {
        return Err(Unavailable);
      }
      pages := pages - {path};
      r := Ok(());
    }

    /** `DELETE FROM admins WHERE id = $1`. */
    method DeleteUser(id: Uuid, fail: bool) returns (r: Result<()>)
      modifies this
      ensures calls == old(calls) + 1 && pages == old(pages)
      ensures r == if fail then Err(Unavailable) else Ok(())
      ensures users == if fail then old(users) else old(users) - {id}
      ensures old(Valid()) ==> Valid()
    {
      calls := calls + 1;
      if fail {
        return Err(Unavailable);
      }
      users := users - {id};
      r := Ok(());
    }

    /** `INSERT INTO pages VALUES (...)`: a conflict when the path is taken. */
    method InsertPage(page: Page, fail: bool) returns (r: Result<()>)
      modifies this
      ensures calls == old(calls) + 1 && users == old(users)
      ensures r == if fail then Err(Unavailable)
                   else if page.path in old(pages) then Err(Conflict)
                   else Ok(())
      ensures pages == if r.Ok? then old(pages)[page.path := InsertedPage(page)] else old(pages)
      ensures old(Valid()) ==> Valid()
    {
      calls := calls + 1;
      if fail {
        return Err(Unavailable);
      }
      if page.path in pages {
        return Err(Conflict);
      }
      pages := pages[page.path := InsertedPage(page)];
      r := Ok(());
    }

    /** `INSERT INTO admins VALUES ($1, $2, $3, $4)`. */
    method InsertUser(user: AdminUser, fail: bool) returns (r: Result<()>)
      modifies this
      ensures calls == old(calls) + 1 && pages == old(pages)
      ensures r == if fail then Err(Unavailable)
                   else if user.id in old(users) then Err(Conflict)
                   else Ok(())
      ensures users == if r.Ok? then old(users)[user.id := user] else old(users)
      ensures old(Valid()) ==> Valid()
    {
      calls := calls + 1;
      if fail {
        return Err(Unavailable);
      }
      if user.id in users {
        return Err(Conflict);
      }
      users := users[user.id := user];
      r := Ok(());
    }
  }
}
