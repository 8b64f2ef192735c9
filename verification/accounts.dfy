/** Accounts (main.js:56-95, 133, 165-185, 362-363): the `Usuario` class, the
    plain records the account collection holds once it has been through JSON,
    and the pure parts of login, registration and reconciliation. */
module Accounts {
  import opened Wrappers
  import opened Patterns
  import opened Favourites

  /** A stored account record, as `JSON.stringify` writes a `Usuario`. */
  datatype Account = Account(
    givenName: string,
    familyName: string,
    email: string,
    password: string,
    favourites: seq<int>)

  /** `Usuario`: identity fields set once, a favourites list updated in place. */
  class User {
    const givenName: string
    const familyName: string
    const email: string
    const password: string
    var favourites: seq<int>

    /** The record this object serialises to. */
    function Snapshot(): Account
      reads this
    {
      Account(givenName, familyName, email, password, favourites)
    }

    /** `new Usuario(nombre, apellido, correo, password)`: no favourites yet. */
    constructor (givenName: string, familyName: string, email: string, password: string)
      ensures Snapshot() == Account(givenName, familyName, email, password, [])
    {
      this.givenName := givenName;
      this.familyName := familyName;
      this.email := email;
      this.password := password;
      this.favourites := [];
    }

    /** `agregarFavorito`: push onto the end of the list. */
    method AddFavourite(id: int)
      modifies this
      ensures favourites == old(favourites) + [id]
    {
      favourites := favourites + [id];
    }

    /** `eliminarFavorito`: replace the list by its filtered copy. */
    method RemoveFavourite(id: int)
      modifies this
      ensures favourites == Without(old(favourites), id)
    {
      favourites := Without(favourites, id);
    }
  }

  /** `restaurarUsuario`: a fresh `Usuario` carrying every field of the record. */
  method Restore(record: Account) returns (u: User)
    ensures fresh(u) && u.Snapshot() == record
  {
    u := new User(record.givenName, record.familyName, record.email, record.password);
    u.favourites := record.favourites;
  }

  // ---------------------------------------------------------------------------
  // Login
  // ---------------------------------------------------------------------------

  /** The login test: e-mail and password both equal, with no normalisation. */
  predicate HasCredentials(a: Account, email: string, password: string) {
    a.email == email && a.password == password
  }

  /** `usuarios.find(...)`: the first account holding both credentials. */
  function FindAccount(users: seq<Account>, email: string, password: string): (r: Option<Account>)
    ensures r.None? <==> forall i | 0 <= i < |users| :: !HasCredentials(users[i], email, password)
    ensures r.Some? ==> exists i | 0 <= i < |users| ::
      r.value == users[i] && HasCredentials(users[i], email, password)
      && forall j | 0 <= j < i :: !HasCredentials(users[j], email, password)
  {
    if users == [] then None
    else if HasCredentials(users[0], email, password) then Some(users[0])
    else
      var r := FindAccount(users[1..], email, password);
      assert forall i | 1 <= i < |users| :: users[i] == users[1..][i - 1];
      if r.Some? then
        var i :| 0 <= i < |users[1..]| && r.value == users[1..][i]
          && HasCredentials(users[1..][i], email, password)
          && forall j | 0 <= j < i :: !HasCredentials(users[1..][j], email, password);
        assert forall j | 0 <= j < i + 1 :: !HasCredentials(users[j], email, password);
        r
      else r
  }

  /** Appending accounts behind a collection that has no match for the
      credentials leaves the lookup to the appended part. */
  lemma {:induction false} FindAccountSkips(users: seq<Account>, more: seq<Account>, email: string, password: string)
    requires forall i | 0 <= i < |users| :: !HasCredentials(users[i], email, password)
    ensures FindAccount(users + more, email, password) == FindAccount(more, email, password)
  {
    if users == [] {
      assert users + more == more;
    } else {
      assert (users + more)[1..] == users[1..] + more;
      FindAccountSkips(users[1..], more, email, password);
    }
  }

  /** With unique e-mails, the right e-mail with a wrong password finds nothing:
      no other account can hold that e-mail. */
  lemma WrongPasswordFindsNothing(users: seq<Account>, k: nat, password: string)
    requires UniqueEmails(users)
    requires k < |users| && users[k].password != password
    ensures FindAccount(users, users[k].email, password) == None
  {
  }

  // ---------------------------------------------------------------------------
  // Registration
  // ---------------------------------------------------------------------------

  /** `usuarios.some(user => user.correo === correo)` */
  predicate EmailInUse(users: seq<Account>, email: string) {
    exists i | 0 <= i < |users| :: users[i].email == email
  }

  /** No two accounts share an e-mail. */
  predicate UniqueEmails(users: seq<Account>) {
    forall i, j | 0 <= i < j < |users| :: users[i].email != users[j].email
  }

  /** Which branch of the registration handler is taken. */
  datatype Registration =
    | Created
    | EmailTaken
    | BadGivenName
    | BadFamilyName
    | BadEmail
    | BadPassword
    | MissingField

  /** The registration handler's decision chain, in the order it runs. */
  function RegistrationCheck(users: seq<Account>, givenName: string, familyName: string,
                             email: string, password: string): (r: Registration)
    ensures r == EmailTaken <==> EmailInUse(users, email)
    ensures r == Created <==>
      !EmailInUse(users, email) && ValidName(givenName) && ValidName(familyName)
      && ContainsEmail(email) && ValidPassword(password)
    ensures r == BadGivenName <==> !EmailInUse(users, email) && !ValidName(givenName)
    ensures r == BadFamilyName <==>
      !EmailInUse(users, email) && ValidName(givenName) && !ValidName(familyName)
    ensures r == BadEmail <==>
      !EmailInUse(users, email) && ValidName(givenName) && ValidName(familyName)
      && !ContainsEmail(email)
    ensures r == BadPassword <==>
      !EmailInUse(users, email) && ValidName(givenName) && ValidName(familyName)
      && ContainsEmail(email) && !ValidPassword(password)
    ensures r != MissingField
  {
    PasswordRegexMeansRule(password);
    if EmailInUse(users, email) then EmailTaken
    else if !ValidName(givenName) then BadGivenName
    else if !ValidName(familyName) then BadFamilyName
    else if !ContainsEmail(email) then BadEmail
    else if !PasswordRegex(password) then BadPassword
    else if givenName != "" && familyName != "" && email != "" && password != "" then Created
    else
      ValidatedFieldsNonEmpty(givenName, familyName, email, password);
      MissingField
  }

  /** A duplicate e-mail is rejected whatever the other fields hold, even when
      every one of them is malformed. */
  lemma DuplicateEmailRejected(users: seq<Account>, k: nat, givenName: string, familyName: string, password: string)
    requires k < |users|
    ensures RegistrationCheck(users, givenName, familyName, users[k].email, password) == EmailTaken
  {
  }

  /** With a free e-mail and valid names and address, the password "abcdefg1"
      (no capital, no symbol) is rejected with the password-rule message, and
      "Abcdef1!" is accepted. */
  lemma PasswordRuleDecides(users: seq<Account>, givenName: string, familyName: string, email: string)
    requires !EmailInUse(users, email) && ValidName(givenName) && ValidName(familyName)
    requires ContainsEmail(email)
    ensures RegistrationCheck(users, givenName, familyName, email, "abcdefg1") == BadPassword
    ensures RegistrationCheck(users, givenName, familyName, email, "Abcdef1!") == Created
  {
    PasswordExamples();
  }

  /** A successful registration keeps e-mails unique. */
  lemma RegistrationKeepsEmailsUnique(users: seq<Account>, a: Account)
    requires UniqueEmails(users)
    requires RegistrationCheck(users, a.givenName, a.familyName, a.email, a.password) == Created
    ensures UniqueEmails(users + [a])
  {
  }

  /** An account just created can log in with the credentials it was created
      with, and the lookup returns exactly that account. */
  lemma RegisteredAccountLogsIn(users: seq<Account>, givenName: string, familyName: string,
                                email: string, password: string)
    requires RegistrationCheck(users, givenName, familyName, email, password) == Created
    ensures FindAccount(users + [Account(givenName, familyName, email, password, [])], email, password)
         == Some(Account(givenName, familyName, email, password, []))
  {
    FindAccountSkips(users, [Account(givenName, familyName, email, password, [])], email, password);
  }

  // ---------------------------------------------------------------------------
  // Reconciliation
  // ---------------------------------------------------------------------------

  /** `usuarios.map(user => user.correo === usuarioActual.correo ? usuarioActual : user)` */
  function Reconciled(users: seq<Account>, session: Account): (r: seq<Account>)
    ensures |r| == |users|
    ensures forall i | 0 <= i < |users| ::
      r[i] == (if users[i].email == session.email then session else users[i])
  {
    if users == [] then []
    else
      var head := if users[0].email == session.email then session else users[0];
      var rest := Reconciled(users[1..], session);
      assert forall i | 1 <= i < |users| :: users[i] == users[1..][i - 1];
      [head] + rest
  }

  /** Reconciliation keeps every account's e-mail where it was, so it keeps
      e-mails unique. */
  lemma ReconciledKeepsEmails(users: seq<Account>, session: Account)
    ensures forall i | 0 <= i < |users| :: Reconciled(users, session)[i].email == users[i].email
    ensures UniqueEmails(users) ==> UniqueEmails(Reconciled(users, session))
  {
  }

  /** After reconciliation, logging in with the session's credentials finds the
      session's record, favourites included, whenever its e-mail was stored. */
  lemma ReconciledLogsInAsSession(users: seq<Account>, session: Account)
    requires EmailInUse(users, session.email)
    ensures FindAccount(Reconciled(users, session), session.email, session.password) == Some(session)
  {
  }

  /** Reconciling twice with the same record changes nothing more. */
  lemma ReconciledIdempotent(users: seq<Account>, session: Account)
    ensures Reconciled(Reconciled(users, session), session) == Reconciled(users, session)
  {
  }
}
