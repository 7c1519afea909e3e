/** Properties of whole client interactions: several gateway calls in a row against one store. */
module Flows {
  import opened Wrappers
  import opened Uuid
  import opened Errors
  import opened Models
  import opened Repo
  import opened Handlers
  import g = Proto

  /** An item added through an Add handler, with the identifier sign-up handed out, is the
      last item of its category the next time that user is read back; every other
      category, the login and the password hash are as they were. */
  lemma {:induction false} AddThenRead(users: seq<User>, id: UUID, c: Category, item: Item)
    requires HasId(users, id) && KindOf(item) == c
    ensures Fits(item, FieldName(c))
    ensures var (after, err) := AddItemOutcome(users, String(id), FieldName(c), item, Healthy);
      && err.None?
      && ReadById(after, id, Healthy).Success?
      && var before := ReadById(users, id, Healthy).value;
      && var now := ReadById(after, id, Healthy).value;
      && now.login == before.login && now.password == before.password
      && Items(now, c) == Items(before, c) + [item]
      && forall c' :: c' != c ==> Items(now, c') == Items(before, c')
  {
    ParseString(id);
    PushItemKeepsIds(users, id, FieldName(c), item, id);
  }

  /** Adding an item for an identifier no stored user has still reports success and changes nothing. */
  lemma AddForUnknownUser(users: seq<User>, id: UUID, c: Category, item: Item)
    requires !HasId(users, id) && KindOf(item) == c
    ensures Fits(item, FieldName(c))
    ensures AddItemOutcome(users, String(id), FieldName(c), item, Healthy) == (users, None)
  {
    ParseString(id);
  }

  /** The interaction the vault is built for, against an empty store that never faults:
      sign up, log in, fail with a wrong password, add a login item, read the vault back.
      A second sign-up with the same login also succeeds, and that account cannot log in.
      Both refusals rest on the hashes of the passwords involved being different. */
  method SignUpLogInAddUpdate(rpc: RPC, id: UUID, id2: UUID, item: g.LoginItem)
    returns (userID: string, loggedIn: string, wrong: Option<Error>, snapshot: Option<g.User>,
             second: Option<Error>, secondLogin: Option<Error>)
    requires rpc.Valid() && rpc.repo.users == []
    requires rpc.svc.HashUserPassword("wrong") != rpc.svc.HashUserPassword("pw1")
    requires rpc.svc.HashUserPassword("pw2") != rpc.svc.HashUserPassword("pw1")
    modifies rpc.repo
    ensures userID == String(id) && loggedIn == userID
    ensures wrong == Some(InvalidCredentials)
    ensures snapshot.Some? && snapshot.value.login == "alice" && snapshot.value.logins == [item]
    ensures second.None? && secondLogin == Some(InvalidCredentials)
  {
    var alice := g.User("alice", "pw1", [], [], [], []);
    var up, err := rpc.SignUpUser(Some(g.SignUpUserRequest(alice)), id, Healthy);
    userID := up.userID;
    assert rpc.repo.users[0].login == "alice";

    var login;
    login, err := rpc.LoginUser(Some(g.LoginUserRequest(alice)), Healthy);
    loggedIn := login.userID;

    login, wrong := rpc.LoginUser(Some(g.LoginUserRequest(alice.(password := "wrong"))), Healthy);

    var added;
    ParseString(id);
    added, err := rpc.AddLoginItem(Some(g.AddLoginItemRequest(userID, item)), Healthy);

    var update;
    update, err := rpc.UpdateItems(Some(g.UpdateItemsRequest(userID)), Healthy);
    snapshot := update.user;
    assert snapshot.value.logins[0] == ToWireLogin(ToModelLogin(item));

    var up2;
    up2, second := rpc.SignUpUser(Some(g.SignUpUserRequest(alice.(password := "pw2"))), id2, Healthy);
    login, secondLogin := rpc.LoginUser(Some(g.LoginUserRequest(alice.(password := "pw2"))), Healthy);
  }
}
