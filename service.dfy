/** The credential service: sign-up stores the user under a fresh identifier with the
    password replaced by hex(SHA-256(password ‖ salt)); login compares the stored hash. */
module Svc {
  import opened Wrappers
  import opened Hex
  import opened Uuid
  import opened Errors
  import opened Models
  import opened Repo

  /** The (string, error) pair both service operations return. */
  datatype Reply = Reply(id: string, err: Option<Error>)

  class Service {
    const repo: Repository
    /** The server-wide salt from the configuration. */
    const salt: string
    /** SHA-256 of the bytes of its argument: deterministic, nothing else is known of it. */
    const digest: string -> seq<Byte>

    constructor (repo: Repository, salt: string, digest: string -> seq<Byte>)
      ensures this.repo == repo && this.salt == salt && this.digest == digest
    {
      this.repo := repo;
      this.salt := salt;
      this.digest := digest;
    }

    /** `%x` of SHA-256 over the password followed by the salt. */
    function HashUserPassword(password: string): (h: string)
      ensures |h| == 2 * |digest(password + salt)|
      ensures forall i :: 0 <= i < |h| ==> IsLowerHexDigit(h[i])
      ensures Decode(h) == Some(digest(password + salt))
    {
      DecodeEncode(digest(password + salt));
      Encode(digest(password + salt))
    }

    /** The record sign-up hands to the repository: the given user with the new identifier
        and the hashed password in place of the plaintext. */
    function Registered(user: User, newId: UUID): (r: User)
      ensures r.id == newId && r.login == user.login
      ensures r.password == HashUserPassword(user.password)
      ensures forall c :: Items(r, c) == Items(user, c)
    {
      user.(id := newId, password := HashUserPassword(user.password))
    }

    /** The first document with that login holds the hash of `password`. */
    predicate PasswordMatches(users: seq<User>, login: string, password: string) {
      HasLogin(users, login) && users[FindLogin(users, login).value].password == HashUserPassword(password)
    }

    /** What LoginUser answers for these credentials against these documents. */
    function Login(users: seq<User>, login: string, password: string, o: Outcome): (r: Reply)
      ensures r.err.None? <==> o.Healthy? && PasswordMatches(users, login, password)
      ensures r.err.None? ==> r.id == String(users[FindLogin(users, login).value].id)
      ensures r.err.Some? ==> r.id == ""
      ensures r.err == Some(UserNotExists) <==> !o.DriverFault? && !HasLogin(users, login)
      ensures r.err == Some(InvalidCredentials) <==>
        o.Healthy? && HasLogin(users, login) && !PasswordMatches(users, login, password)
      ensures r.err.Some? && r.err.value != UserNotExists && r.err.value != InvalidCredentials ==>
        !o.Healthy? && r.err.value == StoreFault(o.text)
    {
      match ReadByLogin(users, login, o)
      case Failure(e) => if e == NoUser then Reply("", Some(UserNotExists)) else Reply("", Some(e))
      case Success(db) =>
        if login == db.login && HashUserPassword(password) == db.password then Reply(String(db.id), None)
        else Reply("", Some(InvalidCredentials))
    }

    /** SignUpUser: a nil user is refused before any store call; otherwise the user gets
        `newId` (the value uuid.New produced) and the hashed password, and is inserted
        without any check that the login is free. */
    method SignUpUser(user: Option<User>, newId: UUID, o: Outcome) returns (id: string, err: Option<Error>)
      modifies repo
      ensures user.None? ==> id == "" && err == Some(ServiceNilArgument) && repo.users == old(repo.users)
      ensures user.Some? ==> err == WriteError(o)
      ensures user.Some? ==> id == if o.Healthy? then String(newId) else ""
      ensures user.Some? ==>
        repo.users == if o.Healthy? then old(repo.users) + [Registered(user.value, newId)] else old(repo.users)
    {
      if user.None? {
        return "", Some(ServiceNilArgument);
      }
      var record := user.value.(id := newId);
      record := record.(password := HashUserPassword(record.password));
      err := repo.CreateUser(record, o);
      if err.Some? {
        return "", err;
      }
      id := String(record.id);
    }

    /** LoginUser: a nil user is refused before any store call; otherwise the answer of Login. */
    method LoginUser(user: Option<User>, o: Outcome) returns (id: string, err: Option<Error>)
      ensures user.None? ==> id == "" && err == Some(ServiceNilArgument)
      ensures user.Some? ==> Reply(id, err) == Login(repo.users, user.value.login, user.value.password, o)
    {
      if user.None? {
        return "", Some(ServiceNilArgument);
      }
      var db := repo.ReadUserByLogin(user.value.login, o);
      if db.Failure? {
        if db.error != NoUser {
          return "", Some(db.error);
        } else {
          return "", Some(UserNotExists);
        }
      }
      var hashed := HashUserPassword(user.value.password);
      if user.value.login == db.value.login && hashed == db.value.password {
        return String(db.value.id), None;
      }
      return "", Some(InvalidCredentials);
    }

    /** Sign-up as its callers expect it: look the login up first, refuse a taken login
        with UserExists, pass any other lookup fault through, and only then insert. */
    method SignUpUserChecked(user: Option<User>, newId: UUID, read: Outcome, write: Outcome)
      returns (id: string, err: Option<Error>)
      modifies repo
      ensures user.None? ==> id == "" && err == Some(ServiceNilArgument) && repo.users == old(repo.users)
      ensures user.Some? && HasLogin(old(repo.users), user.value.login) ==> err.Some?
      ensures user.Some? && HasLogin(old(repo.users), user.value.login) && read.Healthy? ==>
        err == Some(UserExists)
      ensures user.Some? && (read.DriverFault? || (read.CodecFault? && HasLogin(old(repo.users), user.value.login))) ==>
        err == Some(StoreFault(read.text))
      ensures user.Some? && !read.DriverFault? && !HasLogin(old(repo.users), user.value.login) && !write.Healthy? ==>
        err == Some(StoreFault(write.text))
      ensures err.None? <==> user.Some? && !read.DriverFault? && write.Healthy? && !HasLogin(old(repo.users), user.value.login)
      ensures err.None? ==> id == String(newId) && repo.users == old(repo.users) + [Registered(user.value, newId)]
      ensures err.Some? ==> id == "" && repo.users == old(repo.users)
      ensures UniqueLogins(old(repo.users)) ==> UniqueLogins(repo.users)
    {
      if user.None? {
        return "", Some(ServiceNilArgument);
      }
      var existing := repo.ReadUserByLogin(user.value.login, read);
      if existing.Success? {
        return "", Some(UserExists);
      }
      if existing.error != NoUser {
        return "", Some(existing.error);
      }
      ghost var before := repo.users;
      id, err := SignUpUser(user, newId, write);
      if err.None? && UniqueLogins(before) {
        AppendKeepsLoginsUnique(before, Registered(user.value, newId));
      }
    }

    /** Signing up with a login not yet stored and then logging in with the same
        credentials yields the identifier sign-up returned. */
    lemma SignUpThenLogIn(users: seq<User>, user: User, newId: UUID)
      requires !HasLogin(users, user.login)
      ensures Login(users + [Registered(user, newId)], user.login, user.password, Healthy)
        == Reply(String(newId), None)
    {
      FindLoginAppend(users, Registered(user, newId), user.login);
    }

    /** As written, sign-up stores a second document for a login that is already taken,
        and that second account can never log in when its password hashes differently:
        the lookup finds the earlier document first. */
    lemma DuplicateSignUpShadowed(users: seq<User>, user: User, newId: UUID)
      requires HasLogin(users, user.login)
      requires users[FindLogin(users, user.login).value].password != HashUserPassword(user.password)
      ensures var after := users + [Registered(user, newId)];
        && |after| == |users| + 1
        && after[|users|].login == user.login
        && !UniqueLogins(after)
        && Login(after, user.login, user.password, Healthy) == Reply("", Some(InvalidCredentials))
    {
      var after := users + [Registered(user, newId)];
      var i := FindLogin(users, user.login).value;
      assert after[i].login == after[|users|].login;
      FindLoginAppend(users, Registered(user, newId), user.login);
    }
  }

  /** Appending a document whose login no other document has keeps logins unique. */
  lemma AppendKeepsLoginsUnique(users: seq<User>, u: User)
    requires UniqueLogins(users) && !HasLogin(users, u.login)
    ensures UniqueLogins(users + [u])
  {
    var after := users + [u];
    forall i, j | 0 <= i < j < |after|
      ensures after[i].login != after[j].login
    {
      if j == |users| {
        assert users[i].login != u.login;
      }
    }
  }
}
