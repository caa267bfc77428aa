/**
 * The login session of app.js: the page-wide `currentUser` and the 'user' key
 * of the browser's localStorage, which holds `JSON.stringify(currentUser)`.
 */
module Session {
  import opened Wrappers
  import opened Api
  import Json

  /** The user object the backend returns on login and registration. */
  datatype User = User(id: string, nome: string, cognome: string, email: string, ruolo: string)

  /** The localStorage key of the session. */
  const UserKey: string := "user"

  function UserMembers(u: User): seq<(string, string)> {
    [("id", u.id), ("nome", u.nome), ("cognome", u.cognome), ("email", u.email), ("ruolo", u.ruolo)]
  }

  /** `JSON.stringify(user)`. */
  function EncodeUser(u: User): string {
    Json.StringifyObject(UserMembers(u))
  }

  /** `JSON.parse(text)` read as a user; `None` when the text is not a stored user. */
  function DecodeUser(text: string): Option<User> {
    match Json.ParseObject(text)
    case Some(ms) =>
      if |ms| == 5 && ms[0].0 == "id" && ms[1].0 == "nome" && ms[2].0 == "cognome"
         && ms[3].0 == "email" && ms[4].0 == "ruolo"
      then Some(User(ms[0].1, ms[1].1, ms[2].1, ms[3].1, ms[4].1))
      else None
    case None => None
  }

  lemma UserRoundTrip(u: User)
    ensures DecodeUser(EncodeUser(u)) == Some(u)
  {
    Json.StringifyObjectRoundTrip(UserMembers(u));
  }

  /**
   * What checkLoggedIn finds in storage: no session (the key is absent or
   * holds the empty string, which is falsy), a user, or text the decoder
   * does not read as a user. The last covers text on which the source's
   * `JSON.parse` throws, and also JSON the source would resume from, in a
   * shape other than the one login writes (another key order, a number,
   * extra fields).
   */
  datatype Restored = NoSession | Resumed(user: User) | Unreadable

  function Restore(storage: map<string, string>): Restored {
    if UserKey !in storage || storage[UserKey] == "" then NoSession
    else match DecodeUser(storage[UserKey])
      case Some(u) => Resumed(u)
      case None => Unreadable
  }

  /** After a login has stored a user, a reload of the page resumes that user. */
  lemma RestoreAfterStore(storage: map<string, string>, u: User)
    ensures Restore(storage[UserKey := EncodeUser(u)]) == Resumed(u)
  {
    UserRoundTrip(u);
    assert EncodeUser(u)[0] == '{';
  }

  /** After a logout, a reload of the page finds no session. */
  lemma RestoreAfterLogout(storage: map<string, string>)
    ensures Restore(storage - {UserKey}) == NoSession
  {
  }

  class Session {
    var currentUser: Option<User>
    var storage: map<string, string>

    /** Whoever is logged in is the user a reload of the page would resume. */
    ghost predicate Consistent()
      reads this
    {
      currentUser.Some? ==> Restore(storage) == Resumed(currentUser.value)
    }

    /** Page load: `currentUser` starts as null; localStorage keeps what it held. */
    constructor (stored: map<string, string>)
      ensures currentUser == None && storage == stored
      ensures Consistent()
    {
      currentUser := None;
      storage := stored;
    }

    /**
     * checkLoggedIn: the source's `true` is `Resumed`, its `false` is
     * `NoSession`; `Unreadable` covers text on which the source's
     * `JSON.parse` throws and JSON in a shape login never writes.
     */
    method CheckLoggedIn() returns (outcome: Restored)
      requires Consistent()
      modifies this`currentUser
      ensures outcome == Restore(storage) && storage == old(storage)
      ensures currentUser == if outcome.Resumed? then Some(outcome.user) else old(currentUser)
      ensures Consistent()
    {
      outcome := Restore(storage);
      if outcome.Resumed? {
        currentUser := Some(outcome.user);
      }
    }

    /** The common part of a successful login and registration. */
    method Adopt(u: User)
      modifies this
      ensures currentUser == Some(u) && storage == old(storage)[UserKey := EncodeUser(u)]
      ensures Consistent()
    {
      RestoreAfterStore(storage, u);
      currentUser := Some(u);
      storage := storage[UserKey := EncodeUser(u)];
    }

    /** login: adopt the user the backend returns; a rejection changes nothing. */
    method Login(email: string, password: string, reply: Reply<User>) returns (success: bool)
      requires Consistent()
      modifies this
      ensures success == reply.Success?
      ensures success ==> currentUser == Some(reply.data) && storage == old(storage)[UserKey := EncodeUser(reply.data)]
      ensures !success ==> currentUser == old(currentUser) && storage == old(storage)
      ensures Consistent()
    {
      success := reply.Success?;
      if success {
        Adopt(reply.data);
      }
    }

    /** register: as login, for a newly created account. */
    method Register(email: string, password: string, nome: string, cognome: string, reply: Reply<User>)
      returns (success: bool)
      requires Consistent()
      modifies this
      ensures success == reply.Success?
      ensures success ==> currentUser == Some(reply.data) && storage == old(storage)[UserKey := EncodeUser(reply.data)]
      ensures !success ==> currentUser == old(currentUser) && storage == old(storage)
      ensures Consistent()
    {
      success := reply.Success?;
      if success {
        Adopt(reply.data);
      }
    }

    /** logout: forget the stored user and the current one. */
    method Logout()
      modifies this
      ensures storage == old(storage) - {UserKey} && currentUser == None
      ensures Consistent()
    {
      storage := storage - {UserKey};
      currentUser := None;
    }
  }
}
