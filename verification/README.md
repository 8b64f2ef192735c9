# Rick and Morty catalog: accounts, favourites and pagination

This project models the bookkeeping behind the Rick and Morty character browser in `main.js`, with the DOM, `fetch`, `alert` and browser storage stripped away. It covers:

- the account collection (`usuarios`) and the current session user (`usuarioActual`);
- one snapshot field for each storage record: localStorage `"usuarios"` and sessionStorage `"usuarioActual"`;
- the login lookup and the registration decision chain, with the three regular expressions written as predicates;
- the favourites toggle;
- reconciliation of the session user back into the collection on logout and on page unload;
- the "next"/"previous" pagination buttons and the page counter.

Modules:

- `Wrappers` (`wrappers.dfy`): `Option`, which stands for `null`/`undefined`.
- `Patterns` (`patterns.dfy`): the name, password and e-mail patterns (main.js:42-44).
  - The password regex is written as it reads, lookaheads included. A lemma shows it means "8-15 characters, a capital and a symbol".
  - The e-mail regex has no anchors. So the check is "some substring is a match", and a lemma shows that surrounding text never turns an accepted string into a rejected one.
- `Favourites` (`favourites.dfy`): the favourites list as a sequence of ids in insertion order.
  - `Without` is the `filter` used by removal, and `Toggled` is what `favoritos(id)` does to the list.
  - Lemmas give order, membership, multiplicity, round trips and absence of duplicates.
- `Accounts` (`accounts.dfy`):
  - the stored record `Account`;
  - the class `User` (`Usuario`), whose favourites list is updated in place, and its `Snapshot`, the record a `Usuario` serialises to;
  - `Restore` (`restaurarUsuario`);
  - the pure parts of login (`FindAccount`), registration (`RegistrationCheck`) and reconciliation (`Reconciled`), with lemmas connecting them.
- `App` (`app.dfy`): the class `State`, the page's module-level state. Its methods are the event handlers.
  - Each handler writes the storage snapshot fields exactly where the script calls `setItem`/`removeItem`.
  - Each call of `mostrarDatos(url)` is recorded in `requests`.

Behaviour of the code that the model keeps:

- Logout only reconciles. The session record and `usuarioActual` stay until the page unloads, and only the `beforeunload` handler clears the session record.
- With no current user, `usuarioActual.correo` throws. It throws as soon as the collection has an account, so the collection is not written. In `beforeunload` the session record is then not removed either.
- The script tests a cursor link by truthiness, so an empty-string link disables its button just like `null` does.
- A stored collection `[]` is kept as it is. It is truthy, so the seed account is added only when nothing is stored.
- Login does not reset the page counter.
- The final "please fill in every field" branch of the registration handler cannot be reached. Every field that passes its pattern is non-empty (`ValidatedFieldsNonEmpty`, `RegistrationCheck`).
- The seed account's password "luis2001" does not satisfy the password rule (`PasswordExamples`).
- Toggling an id that occurs twice removes both occurrences.
- The favourites are a list in insertion order, not a set, and the list can hold duplicates.
- The only accented letters allowed in names are á é í ó ú Á É Í Ó Ú ñ Ñ.

## Model

| member | source | states |
|---|---|---|
| `Patterns.NameExamples` | main.js:44 | "Luis", "Rojas" and "José María" pass the name pattern; "L" (too short), "Luis2" (a digit) and a 21-letter name fail it |
| `Patterns.PasswordRegexMeansRule` | main.js:43 | the password regex, with its two lookaheads from the start, accepts exactly the strings of 8-15 non-line-break characters that contain a capital A-Z and one of `$@!%*?&` |
| `Patterns.PasswordExamples` | main.js:43 | "Abcdef1!" passes the password rule; "abcdefg1" and the seed account's "luis2001" fail it |
| `Patterns.ContainsEmailWidens` | main.js:42 | the e-mail test is unanchored: a string that contains an accepted string is itself accepted |
| `Patterns.SeedEmailAccepted` | main.js:42 | the seed account's address "luisrojas@gmail.com" passes the e-mail test |
| `Patterns.ValidatedFieldsNonEmpty` | main.js:167-175 | fields that pass the name, e-mail and password tests are all non-empty |
| `Favourites.Without` | main.js:78 | `filter(fav => fav !== x)` leaves no `x` and keeps every other id with its exact multiplicity |
| `Favourites.Toggled` | main.js:260-265 | a toggle flips membership of the toggled id and leaves membership of every other id unchanged |
| `Favourites.WithoutAbsent` | main.js:78 | removing an id that is not in the list returns the list unchanged |
| `Favourites.WithoutAppend` | main.js:78 | removal distributes over concatenation, so surviving ids keep their relative order |
| `Favourites.WithoutIsSubsequence` | main.js:78 | the filtered list is a subsequence of the original |
| `Favourites.WithoutKeepsNoDuplicates` | main.js:78 | filtering a list without duplicates yields a list without duplicates |
| `Favourites.ToggleAbsentAppends` | main.js:260-262 | toggling an absent id appends it at the end and keeps every earlier entry at its index |
| `Favourites.ToggleRemovesAll` | main.js:263-264 | toggling a present id removes every occurrence, keeps the other ids' multiplicities and their relative order |
| `Favourites.ToggleTwiceRestores` | main.js:260-265 | toggling an absent id twice returns exactly the original list |
| `Favourites.ToggleTwicePresent` | main.js:260-265 | toggling a present id twice gives the list without it plus the id at the end: membership is restored, position is not |
| `Favourites.ToggleKeepsNoDuplicates` | main.js:260-265 | a toggle preserves the absence of duplicates |
| `Favourites.ToggleExample` | main.js:260-265 | toggling 5 on [2, 9] gives [2, 9, 5] and toggling it again gives [2, 9] |
| `Accounts.User.constructor` | main.js:57-63 | a new user has the four given fields and an empty favourites list |
| `Accounts.User.AddFavourite` | main.js:69-71 | the id is pushed onto the end of the favourites list |
| `Accounts.User.RemoveFavourite` | main.js:77-79 | the favourites list becomes its copy without the id |
| `Accounts.Restore` | main.js:91-95 | rehydration yields a fresh user whose record equals the plain record, favourites included |
| `Accounts.FindAccount` | main.js:133 | the lookup returns the first account whose e-mail and password both equal the inputs exactly, and none exactly when no account matches |
| `Accounts.FindAccountSkips` | main.js:133 | accounts with no match in front of others do not affect the lookup |
| `Accounts.WrongPasswordFindsNothing` | main.js:133-136 | with unique e-mails, a correct e-mail with a wrong password finds no account |
| `Accounts.RegistrationCheck` | main.js:165-185 | a taken e-mail is rejected first; otherwise the first failing check in the order given name, family name, e-mail, password decides the rejection; registration succeeds iff every check passes; the "fill in every field" branch is never taken |
| `Accounts.PasswordRuleDecides` | main.js:173-182 | with everything else valid, "abcdefg1" is rejected with the password-rule outcome and "Abcdef1!" is accepted |
| `Accounts.DuplicateEmailRejected` | main.js:165-166 | an e-mail already in the collection is rejected whatever the other fields are |
| `Accounts.RegistrationKeepsEmailsUnique` | main.js:165-181 | a successful registration keeps e-mails unique across the collection |
| `Accounts.RegisteredAccountLogsIn` | main.js:133 | after a successful registration, login with the same credentials finds exactly the new account |
| `Accounts.Reconciled` | main.js:363 | each account whose e-mail equals the session's is replaced by the session record; every other account and the length are unchanged |
| `Accounts.ReconciledKeepsEmails` | main.js:363 | reconciliation keeps every account's e-mail, hence keeps e-mails unique |
| `Accounts.ReconciledLogsInAsSession` | main.js:362-364 | after reconciliation, login with the session's credentials finds the session record, favourites included |
| `Accounts.ReconciledIdempotent` | main.js:363 | reconciling twice with the same record is the same as reconciling once |
| `App.State.constructor` | main.js:82-83 | start-up takes the stored collection, or the single seed account when none is stored, and the stored session user |
| `App.State.LogIn` | main.js:128-150 | login succeeds iff some account matches; on success the session record equals the rehydrated user and the first page is requested; otherwise the user becomes absent and nothing is stored |
| `App.State.Register` | main.js:158-186 | the outcome is the decision chain's; on success exactly one account with empty favourites is appended and the stored collection equals the new one; otherwise nothing changes; unique e-mails stay unique |
| `App.State.ToggleFavourite` | main.js:260-266 | the current user's favourites become the toggled list and the session record equals the user; with no user nothing changes |
| `App.State.UpdateUsers` | main.js:362-365 | the collection becomes its reconciliation with the current user and is stored, with the same length; with no user an empty collection is stored unchanged, a non-empty one makes it throw and nothing changes; unique e-mails stay unique |
| `App.State.LogOut` | main.js:192-200 | logout reconciles and stores the collection exactly as `UpdateUsers` does (same length, an empty collection kept, unique e-mails kept), and leaves the session record and user in place |
| `App.State.BeforeUnload` | main.js:371-374 | unload reconciles and stores the collection as `UpdateUsers` does, then removes the session record; when reconciliation throws nothing changes |
| `App.State.ShowNavigation` | main.js:338-355 | each button is enabled, bound to its link, iff that link is truthy |
| `App.State.ClickNext` | main.js:342 | an enabled "next" requests its link and adds one to the counter; a disabled one does nothing |
| `App.State.ClickPrev` | main.js:350 | an enabled "previous" requests its link and subtracts one from the counter; a disabled one does nothing |
| `App.NextThenPrev` | main.js:338-355 | "next", a reply with a previous link, then "previous" restore the counter and request the two links in order |
| `App.ToggleThenLogOut` | main.js:133-150 | log in (main.js:133-150), toggle an id (main.js:260-266) and log out, which reconciles (main.js:192-200, 362-365): login with the same credentials finds the account with the toggled favourites, the stored collection equals the in-memory one, and every account with another e-mail is unchanged |

## Left out

- DOM work: class-list changes, view switching, scrolling, clearing the card containers and the card HTML from `crearTarjeta`. Its favourite flag is plain membership (`id in favourites`), which the `Favourites` lemmas cover.
- Network: the character fetches in `mostrarDatos` and `cargarFavoritos`. A request is recorded in `requests`, and the arrival of a page is `ShowNavigation` called with its `info`. A failed fetch never calls it, so the buttons keep the previous page's links.
- Concurrency: responses to overlapping requests can arrive in any order. The model delivers them in whatever order the caller chooses.
- `cargarFavoritos`: it issues one fetch per favourite id, which is remote I/O only; it changes no state of the model.
- Storage and JSON: `localStorage`, `sessionStorage`, `JSON.stringify` and `JSON.parse` are the snapshot fields `storedUsers` and `storedSession`. The stored records are assumed well-formed.
- At start-up the stored session record is rehydrated into a `User`. In the script it stays a plain object until the next login, and a toggle before that login would throw. The page offers no toggle before login.
- `Accounts.Restore`: in the script the restored user shares its favourites array with the account object in the collection. A push is therefore visible in the collection before reconciliation, until the first removal replaces the array. The model copies the list. This shows only if the collection is stored during a session; reconciliation overwrites the entry either way.
- Reconciliation puts the `usuarioActual` object itself into the collection, so later in-place changes would reach the collection. The model stores a value.
- The page counter is an unbounded integer. Its first value and the `parseInt` of the counter's text are not modelled; the first value is a constructor parameter, because it comes from the page markup, which is not part of this model.
- Strings are sequences of Dafny `char`, each a Unicode scalar value. A scalar value is one UTF-16 code unit only inside the Basic Multilingual Plane. A character outside it is one `char` here but two units in JavaScript, so for such strings the 8-15 and 2-20 length bounds can give different answers (for example, "Abcde!" followed by an emoji is 8 units in JavaScript and passes there, but is 7 `char`s here and fails).
- The e-mail regex is modelled by the language it matches (dotted word runs, `@`, dotted word runs, `.`, 2-5 letters), not by a regex engine.
- Password encryption: it is described in the header comment but never implemented, so passwords are compared and stored as plain text.
- `alert` messages: they are represented only by the `Registration` outcome and the `ok` results.
