/** The gRPC messages the gateway exchanges with clients (the generated `proto` package,
    imported by the gateway as `g`). Only the fields the gateway reads or writes appear. */
module Proto {
  import opened Wrappers
  import opened Hex
  import Models

  datatype LoginItem = LoginItem(login: string, password: string, meta: Models.Meta)

  datatype BankCardItem = BankCardItem(
    number: string,
    holder: string,
    expires: string,
    cardSecurityCode: Models.Int,
    meta: Models.Meta)

  datatype TextItem = TextItem(value: string, meta: Models.Meta)

  datatype BinaryItem = BinaryItem(value: seq<Byte>, meta: Models.Meta)

  /** Credentials in sign-up and login requests; the vault snapshot in UpdateItems responses. */
  datatype User = User(
    login: string,
    password: string,
    logins: seq<LoginItem>,
    cards: seq<BankCardItem>,
    texts: seq<TextItem>,
    binaries: seq<BinaryItem>)

  datatype SignUpUserRequest = SignUpUserRequest(user: User)
  datatype SignUpUserResponse = SignUpUserResponse(userID: string, error: string)

  datatype LoginUserRequest = LoginUserRequest(user: User)
  datatype LoginUserResponse = LoginUserResponse(userID: string, error: string)

  datatype UpdateItemsRequest = UpdateItemsRequest(userID: string)
  datatype UpdateItemsResponse = UpdateItemsResponse(user: Option<User>, error: string)

  datatype AddLoginItemRequest = AddLoginItemRequest(userID: string, item: LoginItem)
  datatype AddLoginItemResponse = AddLoginItemResponse(error: string)

  datatype AddBankCardItemRequest = AddBankCardItemRequest(userID: string, item: BankCardItem)
  datatype AddBankCardItemResponse = AddBankCardItemResponse(error: string)

  datatype AddTextItemRequest = AddTextItemRequest(userID: string, item: TextItem)
  datatype AddTextItemResponse = AddTextItemResponse(error: string)

  datatype AddBinaryItemRequest = AddBinaryItemRequest(userID: string, item: BinaryItem)
  datatype AddBinaryItemResponse = AddBinaryItemResponse(error: string)
}
