/** The page's module-level state and its event handlers (main.js:82-83,
    128-200, 237-279, 338-374), with the DOM, `fetch` and `alert` stripped away.
    Each browser storage record is a snapshot field assigned exactly where the
    script writes it; each `mostrarDatos(url)` call is recorded in `requests`. */
module App {
  import opened Wrappers
  import opened Favourites
  import opened Accounts

  /** The collection endpoint the character list starts from. */
  const CharactersUrl := "https://rickandmortyapi.com/api/character"

  /** The `info` part of a page response: optional cursor links. */
  datatype PageInfo = PageInfo(next: Option<string>, prev: Option<string>)

  /** JavaScript truthiness of a link: `null` and the empty string are falsy. */
  predicate Truthy(link: Option<string>) {
    link.Some? && link.value != ""
  }

  class State {
    /** `usuarios` */
    var users: seq<Account>
    /** `usuarioActual`; `null` stands for both `null` and `undefined` */
    var current: User?
    /** localStorage record "usuarios" */
    var storedUsers: Option<seq<Account>>
    /** sessionStorage record "usuarioActual" */
    var storedSession: Option<Account>
    /** The link the "next" button's handler requests; `None` when the button
        is disabled and has no handler. */
    var nextLink: Option<string>
    /** Likewise for the "previous" button. */
    var prevLink: Option<string>
    /** The page counter shown as `paginaActual` */
    var page: int
    /** Every URL handed to `mostrarDatos`, oldest first */
    var requests: seq<string>

    /** The session record is the current user's serialised state. */
    predicate SessionInSync()
      reads this, current
    {
      current != null && storedSession == Some(current.Snapshot())
    }

    /** Script start-up (main.js:82-83): the collection is the stored one, or
        the single seed account when nothing is stored; the session user is
        the stored session record, if any.  The counter's first value comes
        from the page markup. */
    constructor (savedUsers: Option<seq<Account>>, savedSession: Option<Account>, initialPage: int)
      ensures savedUsers.Some? ==> users == savedUsers.value
      ensures savedUsers.None? ==> users == [Account("Luis", "Rojas", "luisrojas@gmail.com", "luis2001", [])]
      ensures savedSession.None? ==> current == null
      ensures savedSession.Some? ==> current != null && fresh(current) && SessionInSync()
      ensures storedUsers == savedUsers && storedSession == savedSession
      ensures nextLink == None && prevLink == None && page == initialPage && requests == []
    {
      var seed := new User("Luis", "Rojas", "luisrojas@gmail.com", "luis2001");
      users := if savedUsers.Some? then savedUsers.value else [seed.Snapshot()];
      var restored: User? := null;
      if savedSession.Some? {
        restored := Restore(savedSession.value);
      }
      current := restored;
      storedUsers, storedSession := savedUsers, savedSession;
      nextLink, prevLink := None, None;
      page, requests := initialPage, [];
    }

    /** The login handler (main.js:133-150).  On a match the session record is
        written, the user is rehydrated and the first page is requested; on no
        match the current user becomes absent and nothing is stored. */
    method LogIn(email: string, password: string) returns (ok: bool)
      modifies this`current, this`storedSession, this`requests
      ensures ok <==> exists i | 0 <= i < |users| :: HasCredentials(users[i], email, password)
      ensures ok ==> fresh(current) && SessionInSync()
      ensures ok ==> Some(current.Snapshot()) == FindAccount(users, email, password)
      ensures ok ==> requests == old(requests) + [CharactersUrl]
      ensures !ok ==> current == null && storedSession == old(storedSession) && requests == old(requests)
    {
      var found := FindAccount(users, email, password);
      if found.Some? {
        var k :| 0 <= k < |users| && found.value == users[k] && HasCredentials(users[k], email, password);
        storedSession := found;
        current := Restore(found.value);
        requests := requests + [CharactersUrl];
        assert HasCredentials(users[k], email, password);
        ok := true;
      } else {
        current := null;
        ok := false;
      }
    }

    /** The registration handler (main.js:158-186): on success a new `Usuario`
        is appended and the whole collection is written to storage; every
        other branch only shows a message. */
    method Register(givenName: string, familyName: string, email: string, password: string)
      returns (outcome: Registration)
      modifies this`users, this`storedUsers
      ensures outcome == RegistrationCheck(old(users), givenName, familyName, email, password)
      ensures outcome == Created ==>
        users == old(users) + [Account(givenName, familyName, email, password, [])]
      ensures outcome == Created ==> storedUsers == Some(users)
      ensures outcome != Created ==> users == old(users) && storedUsers == old(storedUsers)
      ensures UniqueEmails(old(users)) ==> UniqueEmails(users)
    {
      outcome := RegistrationCheck(users, givenName, familyName, email, password);
      if outcome == Created {
        var account := new User(givenName, familyName, email, password);
        if UniqueEmails(users) {
          RegistrationKeepsEmailsUnique(users, account.Snapshot());
        }
        users := users + [account.Snapshot()];
        storedUsers := Some(users);
      }
    }

    /** `favoritos(id)` (main.js:260-266): toggle the id in the current user's
        list, then write the session record.  With no current user the first
        property access throws and nothing changes. */
    method ToggleFavourite(id: int) returns (ok: bool)
      modifies this`storedSession, current
      ensures ok <==> current != null
      ensures ok ==> current.favourites == Toggled(old(current.favourites), id) && SessionInSync()
      ensures !ok ==> storedSession == old(storedSession)
    {
      if current == null {
        return false;
      }
      if id !in current.favourites {
        current.AddFavourite(id);
      } else {
        current.RemoveFavourite(id);
      }
      storedSession := Some(current.Snapshot());
      ok := true;
    }

    /** `actualizarUsuario` (main.js:362-365): every account with the current
        user's e-mail is replaced by the current user's record and the
        collection is written.  With no current user the callback throws on
        the first account, so only an empty collection gets through. */
    method UpdateUsers() returns (ok: bool)
      modifies this`users, this`storedUsers
      ensures ok <==> current != null || old(users) == []
      ensures ok && current != null ==> users == Reconciled(old(users), current.Snapshot())
      ensures ok && current == null ==> users == old(users)
      ensures ok ==> |users| == |old(users)|
      ensures UniqueEmails(old(users)) ==> UniqueEmails(users)
      ensures ok ==> storedUsers == Some(users)
      ensures !ok ==> users == old(users) && storedUsers == old(storedUsers)
    {
      if current != null {
        ReconciledKeepsEmails(users, current.Snapshot());
        users := Reconciled(users, current.Snapshot());
      } else if users != [] {
        return false;
      }
      storedUsers := Some(users);
      ok := true;
    }

    /** The logout handler (main.js:192-200): reconcile only; the session
        record and the current user stay. */
    method LogOut() returns (ok: bool)
      modifies this`users, this`storedUsers
      ensures ok <==> current != null || old(users) == []
      ensures ok && current != null ==> users == Reconciled(old(users), current.Snapshot())
      ensures ok && current == null ==> users == old(users)
      ensures ok ==> |users| == |old(users)|
      ensures UniqueEmails(old(users)) ==> UniqueEmails(users)
      ensures ok ==> storedUsers == Some(users)
      ensures !ok ==> users == old(users) && storedUsers == old(storedUsers)
    {
      ok := UpdateUsers();
    }

    /** The `beforeunload` handler (main.js:371-374): reconcile, then remove the
        session record; when reconciliation throws, the removal never runs. */
    method BeforeUnload() returns (ok: bool)
      modifies this`users, this`storedUsers, this`storedSession
      ensures ok <==> current != null || old(users) == []
      ensures ok && current != null ==> users == Reconciled(old(users), current.Snapshot())
      ensures ok && current == null ==> users == old(users)
      ensures ok ==> |users| == |old(users)|
      ensures UniqueEmails(old(users)) ==> UniqueEmails(users)
      ensures ok ==> storedUsers == Some(users) && storedSession == None
      ensures !ok ==> users == old(users) && storedUsers == old(storedUsers)
      ensures !ok ==> storedSession == old(storedSession)
    {
      ok := UpdateUsers();
      if ok {
        storedSession := None;
      }
    }

    // -------------------------------------------------------------------------
    // Pagination
    // -------------------------------------------------------------------------

    /** `navegacion(info)` (main.js:338-355): each button is enabled, with a
        handler bound to its link, exactly when that link is truthy. */
    method ShowNavigation(info: PageInfo)
      modifies this`nextLink, this`prevLink
      ensures nextLink.Some? <==> Truthy(info.next)
      ensures prevLink.Some? <==> Truthy(info.prev)
      ensures nextLink.Some? ==> nextLink == info.next
      ensures prevLink.Some? ==> prevLink == info.prev
    {
      if Truthy(info.next) {
        nextLink := info.next;
      } else {
        nextLink := None;
      }
      if Truthy(info.prev) {
        prevLink := info.prev;
      } else {
        prevLink := None;
      }
    }

    /** A click on "next" (main.js:342): request the next link and add one to
        the counter; a disabled button does nothing. */
    method ClickNext() returns (fired: bool)
      modifies this`page, this`requests
      ensures fired <==> nextLink.Some?
      ensures fired ==> requests == old(requests) + [nextLink.value] && page == old(page) + 1
      ensures !fired ==> requests == old(requests) && page == old(page)
    {
      fired := nextLink.Some?;
      if fired {
        requests := requests + [nextLink.value];
        page := page + 1;
      }
    }

    /** A click on "previous" (main.js:350): request the previous link and
        subtract one from the counter; a disabled button does nothing. */
    method ClickPrev() returns (fired: bool)
      modifies this`page, this`requests
      ensures fired <==> prevLink.Some?
      ensures fired ==> requests == old(requests) + [prevLink.value] && page == old(page) - 1
      ensures !fired ==> requests == old(requests) && page == old(page)
    {
      fired := prevLink.Some?;
      if fired {
        requests := requests + [prevLink.value];
        page := page - 1;
      }
    }
  }

  /** Next, the new page's response arrives with a "prev" link, then previous:
      the counter is back where it was and the last request is that link. */
  method NextThenPrev(app: State, reply: PageInfo)
    requires app.nextLink.Some? && Truthy(reply.prev)
    modifies app
    ensures app.page == old(app.page)
    ensures app.requests == old(app.requests) + [old(app.nextLink).value, reply.prev.value]
  {
    var forward := app.ClickNext();
    app.ShowNavigation(reply);
    var back := app.ClickPrev();
  }

  /** Log in, toggle one id, log out: the collection's entry for that user now
      carries the toggled favourites, logging in again finds it, the stored
      collection is the new one and every other account is untouched. */
  method ToggleThenLogOut(app: State, email: string, password: string, id: int)
    modifies app, app.current
    ensures var before := FindAccount(old(app.users), email, password);
      before.Some? ==>
        FindAccount(app.users, email, password)
        == Some(before.value.(favourites := Toggled(before.value.favourites, id)))
    ensures FindAccount(old(app.users), email, password).Some? ==>
      app.storedUsers == Some(app.users) && |app.users| == |old(app.users)|
    ensures FindAccount(old(app.users), email, password).Some? ==>
      forall i | 0 <= i < |old(app.users)| && old(app.users)[i].email != email ::
        app.users[i] == old(app.users)[i]
  {
    var ok := app.LogIn(email, password);
    if ok {
      var toggled := app.ToggleFavourite(id);
      var saved := app.LogOut();
      ReconciledLogsInAsSession(old(app.users), app.current.Snapshot());
    }
  }
}
