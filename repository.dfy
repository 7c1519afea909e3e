/** The vault repository: the `users` collection of the document store, held in memory
    as the sequence of user documents in insertion order. A lookup or a single-document
    update acts on the first matching document in that order. */
module Repo {
  import opened Wrappers
  import opened Uuid
  import opened Errors
  import opened Models

  /** What the store does on one call, chosen by the environment: succeed, fail in the
      driver (network, server), or fail in the bson codec (marshal or decode). */
  datatype Outcome = Healthy | DriverFault(text: Text) | CodecFault(text: Text)

  /** The `interface{}` item handed to CreateItem: one item of one of the four kinds. */
  datatype Item =
    | LoginEntry(login: LoginPasswordItem)
    | CardEntry(card: BankCardItem)
    | TextEntry(text: TextItem)
    | BinaryEntry(binary: BinaryItem)

  function KindOf(item: Item): Category {
    match item
    case LoginEntry(_) => Logins
    case CardEntry(_) => Cards
    case TextEntry(_) => Texts
    case BinaryEntry(_) => Binaries
  }

  /** The item is pushed under the field of its own category. */
  predicate Fits(item: Item, itemType: string) {
    CategoryNamed(itemType).Some? && CategoryNamed(itemType).value == KindOf(item)
  }

  /** A user's items of one category, seen as Items. */
  function Items(u: User, c: Category): (s: seq<Item>)
    ensures forall it :: it in s ==> KindOf(it) == c
  {
    match c
    case Logins => seq(|u.logins|, i requires 0 <= i < |u.logins| => LoginEntry(u.logins[i]))
    case Cards => seq(|u.bankCards|, i requires 0 <= i < |u.bankCards| => CardEntry(u.bankCards[i]))
    case Texts => seq(|u.texts|, i requires 0 <= i < |u.texts| => TextEntry(u.texts[i]))
    case Binaries => seq(|u.binaries|, i requires 0 <= i < |u.binaries| => BinaryEntry(u.binaries[i]))
  }

  predicate HasLogin(users: seq<User>, login: string) {
    exists i :: 0 <= i < |users| && users[i].login == login
  }

  /** No two documents share a login. */
  predicate UniqueLogins(users: seq<User>) {
    forall i, j :: 0 <= i < j < |users| ==> users[i].login != users[j].login
  }

  predicate HasId(users: seq<User>, id: UUID) {
    exists i :: 0 <= i < |users| && users[i].id == id
  }

  /** Position of the first document whose login equals `login` exactly. */
  function FindLogin(users: seq<User>, login: string): (r: Option<nat>)
    ensures r.Some? ==> r.value < |users| && users[r.value].login == login
    ensures r.Some? ==> forall j :: 0 <= j < r.value ==> users[j].login != login
    ensures r.None? <==> !HasLogin(users, login)
  {
    if users == [] then None
    else if users[0].login == login then Some(0)
    else match FindLogin(users[1..], login)
      case None => None
      case Some(k) => Some(k + 1)
  }

  /** Position of the first document whose id equals `id`. */
  function FindId(users: seq<User>, id: UUID): (r: Option<nat>)
    ensures r.Some? ==> r.value < |users| && users[r.value].id == id
    ensures r.Some? ==> forall j :: 0 <= j < r.value ==> users[j].id != id
    ensures r.None? <==> !HasId(users, id)
  {
    if users == [] then None
    else if users[0].id == id then Some(0)
    else match FindId(users[1..], id)
      case None => None
      case Some(k) => Some(k + 1)
  }

  /** The error a write returns: nil exactly when the store is healthy, else the store's own error. */
  function WriteError(o: Outcome): (err: Option<Error>)
    ensures err.None? <==> o.Healthy?
    ensures err.Some? ==> err.value == StoreFault(o.text)
  {
    if o.Healthy? then None else Some(StoreFault(o.text))
  }

  /** Result of a FindOne on a key whose first match is `found`, then a decode. */
  function ReadFound(users: seq<User>, found: Option<nat>, o: Outcome): (r: Result<User, Error>)
    requires found.Some? ==> found.value < |users|
    ensures r.Success? <==> o.Healthy? && found.Some?
    ensures r.Success? ==> r.value == users[found.value]
    ensures r == Failure(NoUser) <==> !o.DriverFault? && found.None?
    ensures r.Failure? && r.error != NoUser ==> !o.Healthy? && r.error == StoreFault(o.text)
  {
    if o.DriverFault? then Failure(StoreFault(o.text))
    else match found
      case None => Failure(NoUser)
      case Some(i) => if o.CodecFault? then Failure(StoreFault(o.text)) else Success(users[i])
  }

  /** ReadUserByLogin: the first user with exactly that login, ErrNoUser when none has it,
      and any other fault passed through as it is. */
  function ReadByLogin(users: seq<User>, login: string, o: Outcome): (r: Result<User, Error>)
    ensures r.Success? <==> o.Healthy? && HasLogin(users, login)
    ensures r.Success? ==> r.value.login == login && r.value == users[FindLogin(users, login).value]
    ensures r == Failure(NoUser) <==> !o.DriverFault? && !HasLogin(users, login)
    ensures r.Failure? && r.error != NoUser ==> !o.Healthy? && r.error == StoreFault(o.text)
    ensures o.DriverFault? ==> r == Failure(StoreFault(o.text))
  {
    ReadFound(users, FindLogin(users, login), o)
  }

  /** ReadUserByID: the same contract keyed on the identifier. */
  function ReadById(users: seq<User>, id: UUID, o: Outcome): (r: Result<User, Error>)
    ensures r.Success? <==> o.Healthy? && HasId(users, id)
    ensures r.Success? ==> r.value.id == id && r.value == users[FindId(users, id).value]
    ensures r == Failure(NoUser) <==> !o.DriverFault? && !HasId(users, id)
    ensures r.Failure? && r.error != NoUser ==> !o.Healthy? && r.error == StoreFault(o.text)
    ensures o.DriverFault? ==> r == Failure(StoreFault(o.text))
  {
    ReadFound(users, FindId(users, id), o)
  }

  /** `$push` of one item onto its category's field of one document: the item is appended
      to that category alone; the id, login, password and other three categories stay. */
  function Push(u: User, itemType: string, item: Item): (v: User)
    requires Fits(item, itemType)
    ensures v.id == u.id && v.login == u.login && v.password == u.password
    ensures Items(v, KindOf(item)) == Items(u, KindOf(item)) + [item]
    ensures forall c :: c != KindOf(item) ==> Items(v, c) == Items(u, c)
  {
    match item
    case LoginEntry(x) =>
      var v := u.(logins := u.logins + [x]);
      assert Items(v, Logins) == Items(u, Logins) + [item];
      v
    case CardEntry(x) =>
      var v := u.(bankCards := u.bankCards + [x]);
      assert Items(v, Cards) == Items(u, Cards) + [item];
      v
    case TextEntry(x) =>
      var v := u.(texts := u.texts + [x]);
      assert Items(v, Texts) == Items(u, Texts) + [item];
      v
    case BinaryEntry(x) =>
      var v := u.(binaries := u.binaries + [x]);
      assert Items(v, Binaries) == Items(u, Binaries) + [item];
      v
  }

  /** UpdateOne with `$push`: only the first document with that id changes; no match changes nothing. */
  function PushItem(users: seq<User>, id: UUID, itemType: string, item: Item): (r: seq<User>)
    requires Fits(item, itemType)
    ensures |r| == |users|
    ensures !HasId(users, id) ==> r == users
    ensures HasId(users, id) ==> forall j :: 0 <= j < |users| && j != FindId(users, id).value ==> r[j] == users[j]
    ensures HasId(users, id) ==> r[FindId(users, id).value] == Push(users[FindId(users, id).value], itemType, item)
  {
    match FindId(users, id)
    case None => users
    case Some(i) => users[i := Push(users[i], itemType, item)]
  }

  /** Inserting a document after the others leaves the first match of a login that was
      already stored where it was; a login not stored before is found at the new document. */
  lemma {:induction false} FindLoginAppend(users: seq<User>, u: User, login: string)
    ensures FindLogin(users + [u], login) ==
      if HasLogin(users, login) then FindLogin(users, login)
      else if u.login == login then Some(|users|)
      else None
  {
    if users != [] {
      assert (users + [u])[1..] == users[1..] + [u];
      FindLoginAppend(users[1..], u, login);
      if users[0].login != login {
        assert HasLogin(users, login) <==> HasLogin(users[1..], login) by {
          if HasLogin(users, login) {
            var i :| 0 <= i < |users| && users[i].login == login;
            assert users[1..][i - 1].login == login;
          }
          if HasLogin(users[1..], login) {
            var i :| 0 <= i < |users[1..]| && users[1..][i].login == login;
            assert users[i + 1].login == login;
          }
        }
      }
    }
  }

  /** A push changes no identifier, so every later lookup by id finds the same document. */
  lemma PushItemKeepsIds(users: seq<User>, id: UUID, itemType: string, item: Item, key: UUID)
    requires Fits(item, itemType)
    ensures FindId(PushItem(users, id, itemType, item), key) == FindId(users, key)
  {
    var r := PushItem(users, id, itemType, item);
    assert forall j :: 0 <= j < |users| ==> r[j].id == users[j].id;
    FindIdSameIds(users, r, key);
  }

  lemma {:induction false} FindIdSameIds(users: seq<User>, others: seq<User>, key: UUID)
    requires |users| == |others|
    requires forall j :: 0 <= j < |users| ==> others[j].id == users[j].id
    ensures FindId(others, key) == FindId(users, key)
  {
    if users != [] {
      FindIdSameIds(users[1..], others[1..], key);
    }
  }

  /** The in-memory `users` collection. */
  class Repository {
    var users: seq<User>

    constructor ()
      ensures users == []
    {
      users := [];
    }

    /** Inserts the document as given; no check that the login is free. */
    method CreateUser(user: User, o: Outcome) returns (err: Option<Error>)
      modifies this
      ensures err == WriteError(o)
      ensures users == if o.Healthy? then old(users) + [user] else old(users)
    {
      if o.Healthy? {
        users := users + [user];
      }
      err := WriteError(o);
    }

    method ReadUserByLogin(login: string, o: Outcome) returns (r: Result<User, Error>)
      ensures r == ReadByLogin(users, login, o)
    {
      r := ReadByLogin(users, login, o);
    }

    method ReadUserByID(id: UUID, o: Outcome) returns (r: Result<User, Error>)
      ensures r == ReadById(users, id, o)
    {
      r := ReadById(users, id, o);
    }

    /** Pushes the item onto the named field of the user with that id. Reports success
        whenever the store is healthy, whether or not a user matched. */
    method CreateItem(item: Item, itemType: string, userId: UUID, o: Outcome) returns (err: Option<Error>)
      requires Fits(item, itemType)
      modifies this
      ensures err == WriteError(o)
      ensures users == if o.Healthy? then PushItem(old(users), userId, itemType, item) else old(users)
    {
      if o.Healthy? {
        users := PushItem(users, userId, itemType, item);
      }
      err := WriteError(o);
    }
  }
}
