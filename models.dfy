/** The records the vault stores: one document per user holding four ordered
    sequences of secret items, each item with a string-to-string metadata mapping. */
module Models {
  import opened Wrappers
  import opened Hex
  import opened Uuid

  /** Item metadata; a map has one value per key. */
  type Meta = map<string, string>

  /** Go's `int` on a 64-bit platform. */
  type Int = x: int | -0x8000_0000_0000_0000 <= x < 0x8000_0000_0000_0000

  datatype LoginPasswordItem = LoginPasswordItem(login: string, password: string, meta: Meta)

  datatype BankCardItem = BankCardItem(
    number: string,
    holder: string,
    expires: string,
    cardSecurityCode: Int,
    meta: Meta)

  datatype TextItem = TextItem(value: string, meta: Meta)

  datatype BinaryItem = BinaryItem(value: seq<Byte>, meta: Meta)

  /** A vault owner. `password` holds whatever the service wrote there: the salted hash. */
  datatype User = User(
    id: UUID,
    login: string,
    password: string,
    logins: seq<LoginPasswordItem>,
    bankCards: seq<BankCardItem>,
    texts: seq<TextItem>,
    binaries: seq<BinaryItem>)

  /** The four item sequences of a user. */
  datatype Category = Logins | Cards | Texts | Binaries

  /** The document field under which a category is persisted (its bson tag). */
  function FieldName(c: Category): (name: string)
    ensures CategoryNamed(name) == Some(c)
  {
    match c
    case Logins => "logins"
    case Cards => "cards"
    case Texts => "texts"
    case Binaries => "binaries"
  }

  /** The category persisted under a document field, if the field is one of the four. */
  function CategoryNamed(name: string): (c: Option<Category>)
  {
    if name == "logins" then Some(Logins)
    else if name == "cards" then Some(Cards)
    else if name == "texts" then Some(Texts)
    else if name == "binaries" then Some(Binaries)
    else None
  }
}
