/** The part of the google/uuid package the vault relies on: the 16-byte identifier,
    its canonical text form and parsing of that form. Random generation (`uuid.New`)
    is an input of the operations that use it. */
module Uuid {
  import opened Wrappers
  import opened Hex

  /** A 128-bit identifier, `uuid.UUID`. */
  type UUID = b: seq<Byte> | |b| == 16 witness Nil()

  /** The zero identifier, the value of a `uuid.UUID` field never assigned. */
  function Nil(): (u: seq<Byte>)
    ensures |u| == 16
  {
    seq(16, _ => 0)
  }

  /** Canonical form xxxxxxxx-xxxx-xxxx-xxxx-xxxxxxxxxxxx in lower-case hexadecimal. */
  function String(u: UUID): (s: string)
    ensures |s| == 36
    ensures s[8] == '-' && s[13] == '-' && s[18] == '-' && s[23] == '-'
    ensures forall i :: 0 <= i < |s| ==> s[i] == '-' || IsLowerHexDigit(s[i])
  {
    Encode(u[..4]) + "-" + Encode(u[4..6]) + "-" + Encode(u[6..8]) + "-"
      + Encode(u[8..10]) + "-" + Encode(u[10..])
  }

  /** Number of bytes of the UTF-8 encoding of one character. */
  function Utf8Width(c: char): (w: nat)
    ensures 1 <= w <= 4
    ensures w == 1 <==> c as int < 0x80
  {
    if c as int < 0x80 then 1
    else if c as int < 0x800 then 2
    else if c as int < 0x1_0000 then 3
    else 4
  }

  /** Length of a string in bytes, as Go's `len` counts it: the UTF-8 encoding's length.
      It equals the number of characters exactly when every character is ASCII. */
  function Utf8Length(s: string): (n: nat)
    ensures |s| <= n
    ensures n == |s| <==> forall i :: 0 <= i < |s| ==> s[i] as int < 0x80
  {
    if s == [] then 0
    else
      var n := Utf8Width(s[0]) + Utf8Length(s[1..]);
      assert (forall i :: 0 <= i < |s| ==> s[i] as int < 0x80) <==>
        s[0] as int < 0x80 && forall i :: 0 <= i < |s[1..]| ==> s[1..][i] as int < 0x80 by {
        if forall i :: 0 <= i < |s[1..]| ==> s[1..][i] as int < 0x80 {
          forall i | 1 <= i < |s| ensures s[i] as int < 0x80 {
            assert s[i] == s[1..][i - 1];
          }
        }
      }
      n
  }

  datatype ParseError = InvalidLength(length: nat) | InvalidFormat

  /** The 36-byte form with dashes at 8, 13, 18 and 23 and hexadecimal digits of either
      case elsewhere; any other byte length, or a misplaced or non-hexadecimal byte, is an
      error. A string of 36 bytes holding a multi-byte character has a byte at the place
      of a dash or a digit that is neither, so it is malformed. */
  function Parse(s: string): (r: Result<UUID, ParseError>)
    ensures Utf8Length(s) != 36 ==> r == Failure(InvalidLength(Utf8Length(s)))
    ensures Utf8Length(s) == 36 && |s| != 36 ==> r == Failure(InvalidFormat)
    ensures r.Success? ==> |s| == 36 && s[8] == '-' && s[13] == '-' && s[18] == '-' && s[23] == '-'
  {
    if Utf8Length(s) != 36 then Failure(InvalidLength(Utf8Length(s)))
    else if |s| != 36 then Failure(InvalidFormat)
    else if s[8] != '-' || s[13] != '-' || s[18] != '-' || s[23] != '-' then Failure(InvalidFormat)
    else match Decode(s[..8] + s[9..13] + s[14..18] + s[19..23] + s[24..])
      case Some(b) => Success(b)
      case None => Failure(InvalidFormat)
  }

  /** Parsing the canonical form gives back the identifier. */
  lemma ParseString(u: UUID)
    ensures Parse(String(u)) == Success(u)
  {
    var s := String(u);
    assert Utf8Length(s) == 36;
    assert s[..8] == Encode(u[..4]);
    assert s[9..13] == Encode(u[4..6]);
    assert s[14..18] == Encode(u[6..8]);
    assert s[19..23] == Encode(u[8..10]);
    assert s[24..] == Encode(u[10..]);
    EncodeAppend(u[..4], u[4..6]);
    assert u[..4] + u[4..6] == u[..6];
    EncodeAppend(u[..6], u[6..8]);
    assert u[..6] + u[6..8] == u[..8];
    EncodeAppend(u[..8], u[8..10]);
    assert u[..8] + u[8..10] == u[..10];
    EncodeAppend(u[..10], u[10..]);
    assert u[..10] + u[10..] == u;
    DecodeEncode(u);
  }

  /** Distinct identifiers have distinct text forms. */
  lemma StringInjective(u: UUID, v: UUID)
    requires String(u) == String(v)
    ensures u == v
  {
    ParseString(u);
    ParseString(v);
  }
}
