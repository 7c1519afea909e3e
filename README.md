# gokeeper vault server core, modelled in Dafny

This project models the server side of the gokeeper credential vault.
A user signs up with a login and a password. The server stores the user under a fresh UUID and keeps the password only as `hex(SHA-256(password ‖ salt))`.
Logging in compares that hash.
Each user owns four ordered item sequences: login/password pairs, bank cards, texts and binaries. Every item carries a string-to-string metadata map.
The gRPC gateway turns requests into calls on the service and the repository. It appends single items and returns the whole vault as a snapshot.
Every outcome comes back both as a returned error and as the response's `Error` text.

The model has one module per layer:

- `Models` (`models.dfy`): the stored records and the four category field names.
- `Repo` (`repository.dfy`): the MongoDB `users` collection as a class over a `seq<User>`, plus pure functions that specify each lookup and update.
- `Svc` (`service.dfy`): the credential service as a class over the repository.
- `Proto` (`proto.dfy`): the gRPC messages.
- `Handlers` (`handlers.dfy`): the gateway class `RPC`.

Supporting modules:

- `Wrappers`: Option and Result.
- `Hex`: Go's `%x` and hexadecimal decoding.
- `Uuid`: the 16-byte identifier, its text form and `uuid.Parse`.
- `Errors`: the Go `error` values that cross the layers.

`Flows` states properties of several gateway calls made one after another.

Environment inputs are parameters of the operations:

- A store fault is an `Outcome` argument on each store call: healthy, a driver fault, or a bson codec fault.
- `uuid.New()` is the `newId` argument of sign-up.
- SHA-256 is the `digest` function held by the service. No definition assumes anything about the digest's outputs, and it is never assumed injective. Two lemmas take particular hash inequalities as preconditions: `Svc.Service.DuplicateSignUpShadowed` and `Flows.SignUpLogInAddUpdate`.
- The salt is an opaque string held by the service.

A lookup (`FindOne`) and a single-document update (`UpdateOne`) act on the first matching document in insertion order.

Three behaviours of the code shape the model:

- `SignUpUser` does no lookup of the login before it inserts, although its tests expect a taken login to be refused (internal/app/service/service_test.go:52-61, 92-110). See Findings.
- The gateway rejects only a nil request. An empty login or password is passed on to the service.
- `CreateItem` reports success when no user has the given ID. It does not return "not found".

## Model

| member | source | states |
|---|---|---|
| `Models.FieldName` | internal/pkg/models/models.go:13-16 | each of the four categories is persisted under its own field name ("logins", "cards", "texts", "binaries"), and that name maps back to exactly that category |
| `Errors.Message` | internal/app/service/service.go:17-25 | every error value has a non-empty text; a store fault's text is the store's own message |
| `Hex.Encode` | internal/app/service/service.go:128 | `%x` writes two lower-case hexadecimal digits per byte |
| `Uuid.String` | internal/app/service/service.go:82 | the text form of an ID is 36 characters, with dashes at positions 8, 13, 18 and 23 |
| `Uuid.Parse` | internal/app/handlers/handlers.go:149-158 | a string whose length in bytes (UTF-8, as Go's `len` counts it) is not 36 is refused with an invalid-length error carrying that byte length; 36 bytes that hold a multi-byte character are refused as malformed; an accepted string has the dashes in place |
| `Uuid.Utf8Length` | internal/app/handlers/handlers.go:149 | the byte length of a string is at least its number of characters, and equal to it exactly when every character is ASCII |
| `Uuid.ParseString` | internal/app/handlers/handlers_test.go:145-147 | parsing the text form of an ID gives back that ID |
| `Uuid.StringInjective` | internal/app/service/service.go:116 | two IDs with the same text form are the same ID |
| `Repo.FindLogin` | internal/app/repository/repository.go:96-99 | finds the first document whose login equals the argument exactly; none exactly when no document has that login |
| `Repo.FindId` | internal/app/repository/repository.go:132-135 | finds the first document with that ID; none exactly when no document has it |
| `Repo.ReadByLogin` | internal/app/repository/repository.go:94-126 | succeeds exactly when the store is healthy and some document has the login, and then returns the first such document; ErrNoUser exactly when no document matches and the driver did not fault; any other error is the store fault itself, never ErrNoUser |
| `Repo.ReadById` | internal/app/repository/repository.go:130-162 | the same contract as ReadByLogin, keyed on the ID |
| `Repo.WriteError` | internal/app/repository/repository.go:75-83 | a write returns nil exactly when the store is healthy; otherwise it returns the store's error unchanged |
| `Repo.ReadFound` | internal/app/repository/repository.go:99-125 | a read succeeds exactly when the store is healthy and a document matched, and returns that document; ErrNoUser exactly when nothing matched and the driver did not fault; any other error is the store fault itself |
| `Repo.PushItem` | internal/app/repository/repository.go:169-175 | the number of documents is unchanged; the first document with that ID becomes Push of it; every other document is unchanged; with no matching ID nothing changes |
| `Repo.Push` | internal/app/repository/repository.go:172 | a push under a category's field appends the item at the end of that category; the ID, login, password and the other three categories are unchanged |
| `Repo.FindLoginAppend` | internal/app/repository/repository.go:62-89 | after a new document is inserted, a login that was already stored is still found at its earlier document; a new login is found at the inserted document |
| `Repo.PushItemKeepsIds` | internal/app/repository/repository.go:169-175 | an item push changes no ID, so every later lookup by ID finds the same document |
| `Repo.Repository.CreateUser` | internal/app/repository/repository.go:62-90 | on a healthy store exactly one document is appended, with no login check; on a fault the error is returned and the store is unchanged |
| `Repo.Repository.ReadUserByLogin` | internal/app/repository/repository.go:94-126 | returns ReadByLogin of the current documents and changes nothing |
| `Repo.Repository.ReadUserByID` | internal/app/repository/repository.go:130-162 | returns ReadById of the current documents and changes nothing |
| `Repo.Repository.CreateItem` | internal/app/repository/repository.go:165-191 | on a healthy store the documents become PushItem of the old ones and nil is returned, also when no user matches; on a fault the error is returned and the store is unchanged |
| `Svc.Service.HashUserPassword` | internal/app/service/service.go:124-129 | the stored hash is the lower-case hex of the digest of password followed by salt (two digits per digest byte), and decoding it gives back exactly that digest |
| `Svc.Service.Registered` | internal/app/service/service.go:66-70 | the record sign-up stores has the new ID, the same login, the hash of the password in place of the plaintext, and the same items |
| `Svc.Service.Login` | internal/app/service/service.go:93-120 | the ID comes back exactly when the store is healthy and the first document with that login holds the hash of the supplied password, and it is that document's ID; ErrUserNotExists exactly when no document has the login and the driver did not fault; ErrInvalidCredentials exactly when the login exists but the hash differs, so a wrong password never yields ErrUserNotExists; any other error is the store fault unchanged; the ID is "" on every error |
| `Svc.Service.SignUpUser` | internal/app/service/service.go:60-83 | a nil user gives ErrNilArgument and the store is unchanged; otherwise the stored record is Registered(user, newId), nothing checks whether the login is taken, and the result is the ID's text on success or "" with the store's error |
| `Svc.Service.LoginUser` | internal/app/service/service.go:87-121 | a nil user gives ErrNilArgument; otherwise the result equals Login on the current documents |
| `Svc.Service.SignUpThenLogIn` | internal/app/service/service_test.go:152-185 | after a sign-up with a login that was not stored, logging in with the same credentials returns the ID that sign-up handed out |
| `Svc.Service.DuplicateSignUpShadowed` | internal/app/service/service.go:60-83 | as written, a sign-up with a taken login stores a second document, so logins are no longer unique, and that account's own credentials are refused with ErrInvalidCredentials whenever its password hashes differently from the first account's |
| `Svc.Service.SignUpUserChecked` | internal/app/service/service_test.go:92-110 | corrected sign-up: a taken login gives ErrUserExists and nothing is written; a lookup fault other than ErrNoUser is returned as it is (the driver's or codec's own error) and nothing is written; a failed insert returns the store's error; it succeeds exactly when the login is free and the store is healthy; it keeps logins unique |
| `Svc.AppendKeepsLoginsUnique` | internal/app/service/service_test.go:92-110 | inserting a document whose login no other document has keeps logins unique |
| `Handlers.ErrorText` | internal/app/handlers/handlers.go:95-103 | a response's `Error` is "" exactly when no error is returned, and otherwise it is the error's text |
| `Handlers.ToWireLogin` | internal/app/handlers/handlers.go:180-184 | the wire login item converts back to the stored item |
| `Handlers.ToWireCard` | internal/app/handlers/handlers.go:190-196 | the wire bank card converts back to the stored card |
| `Handlers.ToWireText` | internal/app/handlers/handlers.go:202-205 | the wire text item converts back to the stored item |
| `Handlers.ToWireBinary` | internal/app/handlers/handlers.go:211-214 | the wire binary item converts back to the stored item |
| `Handlers.ToModelLogin` | internal/app/handlers/handlers.go:240-244 | the Add handler copies the wire login, password and metadata unchanged into the stored item |
| `Handlers.ToModelCard` | internal/app/handlers/handlers.go:283-289 | the Add handler copies the wire number, holder, expiry, security code and metadata unchanged into the stored card |
| `Handlers.ToModelText` | internal/app/handlers/handlers.go:328-331 | the Add handler copies the wire text and metadata unchanged into the stored item |
| `Handlers.ToModelBinary` | internal/app/handlers/handlers.go:370-373 | the Add handler copies the wire bytes and metadata unchanged into the stored item |
| `Handlers.NewUser` | internal/app/handlers/handlers.go:77-84 | a sign-up request becomes a user with the requested login and password and four empty item sequences |
| `Handlers.Snapshot` | internal/app/handlers/handlers.go:219-225 | the snapshot holds the stored login and no password. Each of its four sequences has the stored length, and element i converts back to stored element i |
| `Handlers.Transform` | internal/app/handlers/handlers.go:172-217 | one conversion task fills a slice of the source's length by index, and element i is the conversion of source element i |
| `Handlers.AddItemOutcome` | internal/app/handlers/handlers.go:248-268 | an identifier that does not parse returns the parse error and leaves the store untouched; otherwise the write error is returned and, on success, the item is pushed for the parsed ID |
| `Handlers.RPC.SignUpUser` | internal/app/handlers/handlers.go:70-104 | a nil request gives ErrNilArgument with its text and no store change; otherwise it forwards the request's login and password with empty items, returns the service's ID or "" with the error, and `Error` matches the error |
| `Handlers.RPC.LoginUser` | internal/app/handlers/handlers.go:107-137 | a nil request gives ErrNilArgument with its text; otherwise the ID and error are the service's Login answer, and `Error` matches the error |
| `Handlers.RPC.UpdateItems` | internal/app/handlers/handlers.go:141-230 | a nil request gives ErrNilArgument; an identifier that does not parse returns the parse error without reading the store; a read error is passed through; otherwise the response user is Snapshot of the stored user; `Error` matches the error |
| `Handlers.RPC.AddItem` | internal/app/handlers/handlers.go:248-268 | store and error after the call are AddItemOutcome of the store before it |
| `Handlers.RPC.AddLoginItem` | internal/app/handlers/handlers.go:233-273 | a nil request gives ErrNilArgument and no store change; otherwise the item's fields are copied unchanged and routed to "logins" |
| `Handlers.RPC.AddBankCardItem` | internal/app/handlers/handlers.go:276-318 | the same, routed to "cards" |
| `Handlers.RPC.AddTextItem` | internal/app/handlers/handlers.go:321-360 | the same, routed to "texts" |
| `Handlers.RPC.AddBinaryItem` | internal/app/handlers/handlers.go:363-402 | the same, routed to "binaries" |
| `Flows.AddThenRead` | internal/app/handlers/handlers.go:248-260 | an item added with the ID text that sign-up returned is the last item of its category the next time that user is read back; the login, the password hash and the other categories are unchanged |
| `Flows.AddForUnknownUser` | internal/app/repository/repository.go:175-190 | adding an item for an ID that no stored user has reports success and changes nothing |
| `Flows.SignUpLogInAddUpdate` | internal/app/service/service_test.go:228-261 | on an empty, healthy store: sign-up then login returns the same ID, a wrong password gives ErrInvalidCredentials, and an added login item is the snapshot's only login item. A second sign-up with the same login succeeds, but that account's login is refused. Both refusals hold provided the hashes of "wrong" and "pw2" differ from that of "pw1" |

## Left out

- Logging, `context.Context` cancellation, configuration loading, `NewRepository`, `NewService` and `MakeRPC` are not modelled. `NewService`'s nil-repository check cannot arise, because Dafny references are non-null. Salt, digest and repository are constructor arguments.
- The MongoDB driver and bson marshal/decode are replaced by the in-memory sequence. Their failures are the `Outcome` argument of each call.
- The model assumes that `FindOne` and `UpdateOne` pick the first match in insertion order. MongoDB does not promise any order.
- `Repo.Repository.CreateItem` requires the field name to be one of the four category names and to match the item's kind. Every caller in the gateway meets this. Other calls are not modelled: a push under a non-array field such as `id`, `login` or `password` makes MongoDB's `UpdateOne` fail, a push under an unknown name adds a field `User` does not have, and a mismatched kind stores a value whose decoding is not modelled.
- `Uuid.Parse` models only the 36-byte form, with hexadecimal digits of either case. Lengths are counted in UTF-8 bytes, as Go's `len` counts them. google/uuid also accepts the braced form, the `urn:uuid:` form and the 32-digit form; the model rejects those. For a string of 32, 38 or 45 bytes the model reports an invalid-length error, where google/uuid accepts the string or reports an invalid-format or invalid-urn-prefix error (for example, 32 `x` characters give "invalid UUID format" in Go and "invalid UUID length: 32" in the model). For every other length, and for the 36-byte form, the error texts follow that package; the package itself is not part of this model.
- SHA-256 (FIPS 180-4) is an opaque function. Every conclusion that needs two hashes to differ takes that inequality as a precondition, because the model cannot derive it. The hashed input `password ‖ salt` is the plain concatenation of the two strings, as in the service.
- The service's in-place overwrite of the caller's `*models.User` (`ID` and `Password`) is not modelled. The gateway never reads the overwritten `ID` or `Password` afterwards; it reads only the record's `Login`, for logging.
- `Svc.Service.LoginUser` and `Svc.Service.SignUpUser` with a nil user promise only that the store is unchanged. No method call on the repository can be observed in the model.
- A request whose `User` or `Item` field is nil makes the Go handlers dereference nil and panic. In the model those fields are always present.
- The gateway's four conversion goroutines and their WaitGroup run as four sequential `Transform` calls. They write disjoint slices.
- `Models.BankCardItem.cardSecurityCode` is Go's 64-bit `int`. The wire type in the generated proto package is not part of this model, so the wire card uses the same type. The gokeeper client seals the security code and the password into bytes (internal/app/gokeeperclt/gokeeperclt.go:406, 473). The server's types at internal/pkg/models/models.go:23, 32 are string and int. The model follows the server.
- The client side is not part of this model: the CLI and TUI front ends, and AES-GCM sealing of item fields. The client uses one fixed nonce for every encryption (internal/app/gokeeperclt/gokeeperclt.go:120), which breaks AES-GCM's guarantees.
- `Svc.Service.SignUpUserChecked` keeps logins unique only because the model runs one call at a time. The lookup and the insert are two separate store operations, so two concurrent sign-ups with the same login can both pass the lookup and both insert. Concurrency is not modelled.
- `Errors.Message` and `Handlers.ErrorText` assume that a store fault's text is non-empty (type `Errors.Text`). A driver error whose text is empty would leave the response's `Error` empty although an error is returned; the model does not cover that case.
- `Errors.Message` uses the text "user already exists" for `UserExists`. service.go does not define this error; only the corrected sign-up raises it.

## Findings

| source | as written | input that shows it | evidently intended | confidence | as-written member | corrected member |
|---|---|---|---|---|---|---|
| internal/app/service/service.go:60-83 | `SignUpUser` stores the user without looking up the login. `ErrUserExists`, which the tests expect (internal/app/service/service_test.go:92-110), is not defined. | Sign up ("alice", "pw1"), then ("alice", "pw2"): both succeed and two documents have login "alice". LoginUser("alice", "pw2") finds the first document and returns ErrInvalidCredentials whenever the two hashes differ. | Look the login up first. Refuse a taken login with ErrUserExists and write nothing. Pass any other lookup error through. Logins stay unique. | high (not executed) | `Svc.Service.DuplicateSignUpShadowed` | `Svc.Service.SignUpUserChecked` |

The gateway (`Handlers.RPC.SignUpUser`) calls the sign-up as written, matching internal/app/handlers/handlers.go:88. `Svc.Service.SignUpUserChecked` is the corrected operation; `Svc.AppendKeepsLoginsUnique` proves that it keeps logins unique.
