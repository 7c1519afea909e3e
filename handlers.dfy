/** The RPC gateway: refuses nil requests, parses user identifiers, converts between wire
    messages and stored records, and reports every outcome both as a returned error and
    as the response's `Error` text, which is empty exactly when no error is returned. */
module Handlers {
  import opened Wrappers
  import opened Uuid
  import opened Errors
  import Models
  import opened Repo
  import opened Svc
  import g = Proto

  /** The response's `Error` field for a returned error. */
  function ErrorText(err: Option<Error>): (t: string)
    ensures t == "" <==> err.None?
    ensures err.Some? ==> t == Message(err.value)
  {
    match err
    case None => ""
    case Some(e) => Message(e)
  }

  // Wire item to stored item (the Add handlers): every field is copied, unchanged, to the
  // stored field of the same meaning.

  function ToModelLogin(w: g.LoginItem): (x: Models.LoginPasswordItem)
    ensures x.login == w.login && x.password == w.password && x.meta == w.meta
  {
    Models.LoginPasswordItem(w.login, w.password, w.meta)
  }

  function ToModelCard(w: g.BankCardItem): (x: Models.BankCardItem)
    ensures x.number == w.number && x.holder == w.holder && x.expires == w.expires
    ensures x.cardSecurityCode == w.cardSecurityCode && x.meta == w.meta
  {
    Models.BankCardItem(w.number, w.holder, w.expires, w.cardSecurityCode, w.meta)
  }

  function ToModelText(w: g.TextItem): (x: Models.TextItem)
    ensures x.value == w.value && x.meta == w.meta
  {
    Models.TextItem(w.value, w.meta)
  }

  function ToModelBinary(w: g.BinaryItem): (x: Models.BinaryItem)
    ensures x.value == w.value && x.meta == w.meta
  {
    Models.BinaryItem(w.value, w.meta)
  }

  // Stored item to wire item, field by field (UpdateItems); each undoes the conversion above.

  function ToWireLogin(x: Models.LoginPasswordItem): (w: g.LoginItem)
    ensures ToModelLogin(w) == x
  {
    g.LoginItem(x.login, x.password, x.meta)
  }

  function ToWireCard(x: Models.BankCardItem): (w: g.BankCardItem)
    ensures ToModelCard(w) == x
  {
    g.BankCardItem(x.number, x.holder, x.expires, x.cardSecurityCode, x.meta)
  }

  function ToWireText(x: Models.TextItem): (w: g.TextItem)
    ensures ToModelText(w) == x
  {
    g.TextItem(x.value, x.meta)
  }

  function ToWireBinary(x: Models.BinaryItem): (w: g.BinaryItem)
    ensures ToModelBinary(w) == x
  {
    g.BinaryItem(x.value, x.meta)
  }

  /** The user record a sign-up request becomes: the requested login and password,
      four empty item sequences, and the zero identifier the service will replace. */
  function NewUser(w: g.User): (u: Models.User)
    ensures u.login == w.login && u.password == w.password
    ensures forall c :: Items(u, c) == []
  {
    Models.User(Nil(), w.login, w.password, [], [], [], [])
  }

  /** The vault snapshot of a stored user: its login and every item of every category in
      stored order with its fields unchanged; neither the identifier nor the password hash. */
  function Snapshot(u: Models.User): (w: g.User)
    ensures w.login == u.login && w.password == ""
    ensures |w.logins| == |u.logins| && forall i :: 0 <= i < |u.logins| ==> ToModelLogin(w.logins[i]) == u.logins[i]
    ensures |w.cards| == |u.bankCards| && forall i :: 0 <= i < |u.bankCards| ==> ToModelCard(w.cards[i]) == u.bankCards[i]
    ensures |w.texts| == |u.texts| && forall i :: 0 <= i < |u.texts| ==> ToModelText(w.texts[i]) == u.texts[i]
    ensures |w.binaries| == |u.binaries| && forall i :: 0 <= i < |u.binaries| ==> ToModelBinary(w.binaries[i]) == u.binaries[i]
  {
    g.User(
      u.login,
      "",
      seq(|u.logins|, i requires 0 <= i < |u.logins| => ToWireLogin(u.logins[i])),
      seq(|u.bankCards|, i requires 0 <= i < |u.bankCards| => ToWireCard(u.bankCards[i])),
      seq(|u.texts|, i requires 0 <= i < |u.texts| => ToWireText(u.texts[i])),
      seq(|u.binaries|, i requires 0 <= i < |u.binaries| => ToWireBinary(u.binaries[i])))
  }

  /** One of UpdateItems' four conversion tasks: fills a slice of the source's length by index. */
  method Transform<A, B(0)>(src: seq<A>, f: A -> B) returns (dst: seq<B>)
    ensures |dst| == |src|
    ensures forall i :: 0 <= i < |src| ==> dst[i] == f(src[i])
  {
    var out := new B[|src|];
    for i := 0 to |src|
      invariant forall j :: 0 <= j < i ==> out[j] == f(src[j])
    {
      out[i] := f(src[i]);
    }
    dst := out[..];
  }

  /** What an Add handler does to the documents and returns, once the request is not nil. */
  function AddItemOutcome(users: seq<Models.User>, userID: string, itemType: string, item: Item, o: Outcome)
    : (r: (seq<Models.User>, Option<Error>))
    requires Fits(item, itemType)
    ensures Parse(userID).Failure? ==> r == (users, Some(BadUuid(Parse(userID).error)))
    ensures Parse(userID).Success? ==> r.1 == WriteError(o)
    ensures r.1.Some? ==> r.0 == users
    ensures r.1.None? ==> Parse(userID).Success? && r.0 == PushItem(users, Parse(userID).value, itemType, item)
  {
    match Parse(userID)
    case Failure(e) => (users, Some(BadUuid(e)))
    case Success(id) =>
      if o.Healthy? then (PushItem(users, id, itemType, item), None) else (users, WriteError(o))
  }

  class RPC {
    const repo: Repository
    const svc: Service

    /** The service works on the same repository as the gateway. */
    ghost predicate Valid() {
      svc.repo == repo
    }

    constructor (repo: Repository, svc: Service)
      requires svc.repo == repo
      ensures this.repo == repo && this.svc == svc && Valid()
    {
      this.repo := repo;
      this.svc := svc;
    }

    method SignUpUser(req: Option<g.SignUpUserRequest>, newId: UUID, o: Outcome)
      returns (res: g.SignUpUserResponse, err: Option<Error>)
      requires Valid()
      modifies repo
      ensures res.error == ErrorText(err)
      ensures req.None? ==> err == Some(HandlerNilArgument) && res.userID == "" && repo.users == old(repo.users)
      ensures req.Some? ==> err == WriteError(o)
      ensures req.Some? ==> res.userID == if o.Healthy? then String(newId) else ""
      ensures req.Some? ==> (repo.users ==
        if o.Healthy? then old(repo.users) + [svc.Registered(NewUser(req.value.user), newId)] else old(repo.users))
    {
      if req.None? {
        return g.SignUpUserResponse("", Message(HandlerNilArgument)), Some(HandlerNilArgument);
      }
      var user := NewUser(req.value.user);
      var userID;
      userID, err := svc.SignUpUser(Some(user), newId, o);
      if err.Some? {
        return g.SignUpUserResponse("", Message(err.value)), err;
      }
      res := g.SignUpUserResponse(userID, "");
    }

    method LoginUser(req: Option<g.LoginUserRequest>, o: Outcome)
      returns (res: g.LoginUserResponse, err: Option<Error>)
      requires Valid()
      ensures res.error == ErrorText(err)
      ensures req.None? ==> err == Some(HandlerNilArgument) && res.userID == ""
      ensures req.Some? ==>
        Reply(res.userID, err) == svc.Login(repo.users, req.value.user.login, req.value.user.password, o)
    {
      if req.None? {
        return g.LoginUserResponse("", Message(HandlerNilArgument)), Some(HandlerNilArgument);
      }
      var user := Models.User(Nil(), req.value.user.login, req.value.user.password, [], [], [], []);
      var userID;
      userID, err := svc.LoginUser(Some(user), o);
      if err.Some? {
        return g.LoginUserResponse("", Message(err.value)), err;
      }
      res := g.LoginUserResponse(userID, "");
    }

    method UpdateItems(req: Option<g.UpdateItemsRequest>, o: Outcome)
      returns (res: g.UpdateItemsResponse, err: Option<Error>)
      ensures res.error == ErrorText(err)
      ensures req.None? ==> err == Some(HandlerNilArgument) && res.user.None?
      ensures req.Some? ==>
        match Parse(req.value.userID)
        case Failure(e) => err == Some(BadUuid(e)) && res.user.None?
        case Success(id) =>
          match ReadById(repo.users, id, o)
          case Failure(e) => err == Some(e) && res.user.None?
          case Success(u) => err.None? && res.user == Some(Snapshot(u))
    {
      if req.None? {
        return g.UpdateItemsResponse(None, Message(HandlerNilArgument)), Some(HandlerNilArgument);
      }
      var uid := Parse(req.value.userID);
      if uid.Failure? {
        err := Some(BadUuid(uid.error));
        return g.UpdateItemsResponse(None, Message(err.value)), err;
      }
      var user := repo.ReadUserByID(uid.value, o);
      if user.Failure? {
        err := Some(user.error);
        return g.UpdateItemsResponse(None, Message(err.value)), err;
      }
      var u := user.value;
      var logins := Transform(u.logins, ToWireLogin);
      var cards := Transform(u.bankCards, ToWireCard);
      var texts := Transform(u.texts, ToWireText);
      var binaries := Transform(u.binaries, ToWireBinary);
      assert logins == Snapshot(u).logins;
      assert cards == Snapshot(u).cards;
      assert texts == Snapshot(u).texts;
      assert binaries == Snapshot(u).binaries;
      res := g.UpdateItemsResponse(Some(g.User(u.login, "", logins, cards, texts, binaries)), "");
      err := None;
    }

    /** The part the four Add handlers share once the item is built: parse the identifier,
        then push the item under `itemType`. */
    method AddItem(userID: string, itemType: string, item: Item, o: Outcome) returns (err: Option<Error>)
      requires Fits(item, itemType)
      modifies repo
      ensures (repo.users, err) == AddItemOutcome(old(repo.users), userID, itemType, item, o)
    {
      var uid := Parse(userID);
      if uid.Failure? {
        return Some(BadUuid(uid.error));
      }
      err := repo.CreateItem(item, itemType, uid.value, o);
    }

    method AddLoginItem(req: Option<g.AddLoginItemRequest>, o: Outcome)
      returns (res: g.AddLoginItemResponse, err: Option<Error>)
      modifies repo
      ensures res.error == ErrorText(err)
      ensures req.None? ==> err == Some(HandlerNilArgument) && repo.users == old(repo.users)
      ensures req.Some? ==> ((repo.users, err) ==
        AddItemOutcome(old(repo.users), req.value.userID, Models.FieldName(Models.Logins), LoginEntry(ToModelLogin(req.value.item)), o))
    {
      if req.None? {
        return g.AddLoginItemResponse(Message(HandlerNilArgument)), Some(HandlerNilArgument);
      }
      var login := ToModelLogin(req.value.item);
      err := AddItem(req.value.userID, "logins", LoginEntry(login), o);
      res := g.AddLoginItemResponse(ErrorText(err));
    }

    method AddBankCardItem(req: Option<g.AddBankCardItemRequest>, o: Outcome)
      returns (res: g.AddBankCardItemResponse, err: Option<Error>)
      modifies repo
      ensures res.error == ErrorText(err)
      ensures req.None? ==> err == Some(HandlerNilArgument) && repo.users == old(repo.users)
      ensures req.Some? ==> ((repo.users, err) ==
        AddItemOutcome(old(repo.users), req.value.userID, Models.FieldName(Models.Cards), CardEntry(ToModelCard(req.value.item)), o))
    {
      if req.None? {
        return g.AddBankCardItemResponse(Message(HandlerNilArgument)), Some(HandlerNilArgument);
      }
      var card := ToModelCard(req.value.item);
      err := AddItem(req.value.userID, "cards", CardEntry(card), o);
      res := g.AddBankCardItemResponse(ErrorText(err));
    }

    method AddTextItem(req: Option<g.AddTextItemRequest>, o: Outcome)
      returns (res: g.AddTextItemResponse, err: Option<Error>)
      modifies repo
      ensures res.error == ErrorText(err)
      ensures req.None? ==> err == Some(HandlerNilArgument) && repo.users == old(repo.users)
      ensures req.Some? ==> ((repo.users, err) ==
        AddItemOutcome(old(repo.users), req.value.userID, Models.FieldName(Models.Texts), TextEntry(ToModelText(req.value.item)), o))
    {
      if req.None? {
        return g.AddTextItemResponse(Message(HandlerNilArgument)), Some(HandlerNilArgument);
      }
      var text := ToModelText(req.value.item);
      err := AddItem(req.value.userID, "texts", TextEntry(text), o);
      res := g.AddTextItemResponse(ErrorText(err));
    }

    method AddBinaryItem(req: Option<g.AddBinaryItemRequest>, o: Outcome)
      returns (res: g.AddBinaryItemResponse, err: Option<Error>)
      modifies repo
      ensures res.error == ErrorText(err)
      ensures req.None? ==> err == Some(HandlerNilArgument) && repo.users == old(repo.users)
      ensures req.Some? ==> ((repo.users, err) ==
        AddItemOutcome(old(repo.users), req.value.userID, Models.FieldName(Models.Binaries), BinaryEntry(ToModelBinary(req.value.item)), o))
    {
      if req.None? {
        return g.AddBinaryItemResponse(Message(HandlerNilArgument)), Some(HandlerNilArgument);
      }
      var bin := ToModelBinary(req.value.item);
      err := AddItem(req.value.userID, "binaries", BinaryEntry(bin), o);
      res := g.AddBinaryItemResponse(ErrorText(err));
    }
  }
}
