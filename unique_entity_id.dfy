/**
 * The `UniqueEntityId` value object: an identifier string that is either
 * supplied by the caller or generated as a random version-4 UUID, and that is
 * checked against the UUID string syntax on construction.
 *
 * The string syntax is that of section 3 of RFC 4122 (32 hexadecimal digits
 * in groups of 8-4-4-4-12, separated by hyphens; upper- and lower-case digits
 * are both accepted); generation follows section 4.4 of RFC 4122, with the
 * random bytes passed in.
 */
module UniqueEntityIds {
  import opened Js

  newtype byte = x: int | 0 <= x < 256

  predicate IsHexDigit(c: char) {
    '0' <= c <= '9' || 'a' <= c <= 'f' || 'A' <= c <= 'F'
  }

  predicate IsHyphenPosition(i: int) {
    i == 8 || i == 13 || i == 18 || i == 23
  }

  /** The UUID string syntax: 36 characters, hyphens at 8, 13, 18 and 23, hexadecimal digits elsewhere. */
  predicate IsUuid(s: string) {
    |s| == 36 && forall i :: 0 <= i < 36 ==> if IsHyphenPosition(i) then s[i] == '-' else IsHexDigit(s[i])
  }

  function HexValue(c: char): (d: nat)
    requires IsHexDigit(c)
    ensures d < 16
  {
    if '0' <= c <= '9' then c as int - '0' as int
    else if 'a' <= c <= 'f' then c as int - 'a' as int + 10
    else c as int - 'A' as int + 10
  }

  /** The lower-case hexadecimal digit of `d`. */
  function HexChar(d: nat): (c: char)
    requires d < 16
    ensures IsHexDigit(c) && HexValue(c) == d
  {
    if d < 10 then ('0' as int + d) as char else ('a' as int + d - 10) as char
  }

  /** Two hexadecimal digits per byte, high nibble first. */
  function Hex(bytes: seq<byte>): (s: string)
    ensures |s| == 2 * |bytes|
    ensures forall i :: 0 <= i < |s| ==> IsHexDigit(s[i])
  {
    if bytes == [] then []
    else [HexChar(bytes[0] as nat / 16), HexChar(bytes[0] as nat % 16)] + Hex(bytes[1..])
  }

  /** Reads hexadecimal digit pairs back into bytes. */
  function Unhex(s: string): (bytes: seq<byte>)
    requires |s| % 2 == 0
    requires forall i :: 0 <= i < |s| ==> IsHexDigit(s[i])
    ensures |bytes| == |s| / 2
  {
    if s == [] then [] else [(HexValue(s[0]) * 16 + HexValue(s[1])) as byte] + Unhex(s[2..])
  }

  lemma {:induction false} UnhexHex(bytes: seq<byte>)
    ensures Unhex(Hex(bytes)) == bytes
  {
    if bytes != [] {
      var s := Hex(bytes);
      assert s[2..] == Hex(bytes[1..]);
      UnhexHex(bytes[1..]);
    }
  }

  lemma {:induction false} HexAppend(a: seq<byte>, b: seq<byte>)
    ensures Hex(a + b) == Hex(a) + Hex(b)
  {
    if a == [] {
      assert a + b == b;
    } else {
      var pair := [HexChar(a[0] as nat / 16), HexChar(a[0] as nat % 16)];
      assert (a + b)[0] == a[0];
      assert (a + b)[1..] == a[1..] + b;
      HexAppend(a[1..], b);
      assert Hex(a + b) == pair + (Hex(a[1..]) + Hex(b));
    }
  }

  /** The first hexadecimal digit of a byte sequence is its first byte's high nibble. */
  lemma HexFirst(bytes: seq<byte>)
    requires bytes != []
    ensures Hex(bytes)[0] == HexChar(bytes[0] as nat / 16)
  {
  }

  /** The string form of a 16-byte UUID, in lower case. */
  function Format(bytes: seq<byte>): string
    requires |bytes| == 16
  {
    Hex(bytes[..4]) + "-" + Hex(bytes[4..6]) + "-" + Hex(bytes[6..8]) + "-" + Hex(bytes[8..10]) + "-" + Hex(bytes[10..])
  }

  /** The 32 hexadecimal digits of a UUID string, hyphens dropped. */
  function HexDigits(s: string): (h: string)
    requires IsUuid(s)
    ensures |h| == 32 && forall i :: 0 <= i < 32 ==> IsHexDigit(h[i])
  {
    assert forall i :: 0 <= i < 8 ==> IsHexDigit(s[..8][i]);
    assert forall i :: 0 <= i < 4 ==> IsHexDigit(s[9..13][i]) && IsHexDigit(s[14..18][i]) && IsHexDigit(s[19..23][i]);
    assert forall i :: 0 <= i < 12 ==> IsHexDigit(s[24..][i]);
    s[..8] + s[9..13] + s[14..18] + s[19..23] + s[24..]
  }

  /** The 16 bytes a UUID string denotes. */
  function Parse(s: string): (bytes: seq<byte>)
    requires IsUuid(s)
    ensures |bytes| == 16
  {
    Unhex(HexDigits(s))
  }

  /** Every formatted byte sequence has the UUID syntax. */
  lemma FormatIsUuid(bytes: seq<byte>)
    requires |bytes| == 16
    ensures IsUuid(Format(bytes))
  {
    var s := Format(bytes);
    var a, b, c, d, e := Hex(bytes[..4]), Hex(bytes[4..6]), Hex(bytes[6..8]), Hex(bytes[8..10]), Hex(bytes[10..]);
    assert s == a + "-" + b + "-" + c + "-" + d + "-" + e;
    forall i | 0 <= i < 36
      ensures if IsHyphenPosition(i) then s[i] == '-' else IsHexDigit(s[i])
    {
      if i < 8 { assert s[i] == a[i]; }
      else if i == 8 { }
      else if i < 13 { assert s[i] == b[i - 9]; }
      else if i == 13 { }
      else if i < 18 { assert s[i] == c[i - 14]; }
      else if i == 18 { }
      else if i < 23 { assert s[i] == d[i - 19]; }
      else if i == 23 { }
      else { assert s[i] == e[i - 24]; }
    }
  }

  /** Parsing a formatted UUID gives back its bytes. */
  lemma ParseFormat(bytes: seq<byte>)
    requires |bytes| == 16
    ensures IsUuid(Format(bytes)) && Parse(Format(bytes)) == bytes
  {
    FormatIsUuid(bytes);
    var s := Format(bytes);
    var a, b, c, d, e := Hex(bytes[..4]), Hex(bytes[4..6]), Hex(bytes[6..8]), Hex(bytes[8..10]), Hex(bytes[10..]);
    assert s == a + "-" + b + "-" + c + "-" + d + "-" + e;
    assert s[..8] == a && s[9..13] == b && s[14..18] == c && s[19..23] == d && s[24..] == e;
    HexAppend(bytes[..4], bytes[4..6]);
    HexAppend(bytes[..4] + bytes[4..6], bytes[6..8]);
    HexAppend(bytes[..4] + bytes[4..6] + bytes[6..8], bytes[8..10]);
    HexAppend(bytes[..4] + bytes[4..6] + bytes[6..8] + bytes[8..10], bytes[10..]);
    assert bytes[..4] + bytes[4..6] + bytes[6..8] + bytes[8..10] + bytes[10..] == bytes;
    UnhexHex(bytes);
  }

  /** Section 4.4 of RFC 4122: the version nibble becomes 4 and the two variant bits become 10. */
  function V4Bytes(random: seq<byte>): (bytes: seq<byte>)
    requires |random| == 16
    ensures |bytes| == 16
    ensures bytes[6] as int / 16 == 4 && bytes[6] as int % 16 == random[6] as int % 16
    ensures bytes[8] as int / 64 == 2 && bytes[8] as int % 64 == random[8] as int % 64
    ensures forall i :: 0 <= i < 16 && i != 6 && i != 8 ==> bytes[i] == random[i]
  {
    random[6 := (0x40 + random[6] as int % 16) as byte][8 := (0x80 + random[8] as int % 64) as byte]
  }

  /** `uuidv4()`, with its 16 random bytes as the parameter. */
  function GenerateV4(random: seq<byte>): (s: string)
    requires |random| == 16
    ensures IsUuid(s)
    ensures s[14] == '4'
    ensures s[19] in {'8', '9', 'a', 'b'}
    ensures Parse(s) == V4Bytes(random)
  {
    var bytes := V4Bytes(random);
    ParseFormat(bytes);
    HexFirst(bytes[6..8]);
    HexFirst(bytes[8..10]);
    var s := Format(bytes);
    assert s[14] == Hex(bytes[6..8])[0];
    assert s[19] == Hex(bytes[8..10])[0];
    s
  }

  /**
   * The value object: `id` is the constructor's argument as it was passed
   * (a parameter property), `value` the payload handed to the base class.
   */
  datatype UniqueEntityId = UniqueEntityId(id: Option<string>, value: string)

  /** `uuidValidate(x)`: true only for a string with the UUID syntax. */
  predicate UuidValidate(x: Option<string>) {
    x.Some? && IsUuid(x.value)
  }

  /** `id || uuidv4()`: the argument when it is a non-empty string, otherwise the generated UUID. */
  function BaseValue(id: Option<string>, generated: string): (v: string)
    ensures id.Some? && id.value != "" ==> v == id.value
    ensures id.None? || id.value == "" ==> v == generated
  {
    if id.Some? && id.value != "" then id.value else generated
  }

  /**
   * `new UniqueEntityId(id)` as written: the base receives `id || uuidv4()`,
   * then `validate()` checks `this.id`, the raw argument, and throws
   * `InvalidUuidError` when it is not a UUID string.
   */
  function New(id: Option<string>, generated: string): (r: Result<UniqueEntityId>)
    ensures r.Ok? <==> id.Some? && IsUuid(id.value)
    ensures r.Err? ==> r.error == InvalidUuidError
    ensures r.Ok? ==> r.value.id == id && r.value.value == id.value
  {
    var vo := UniqueEntityId(id, BaseValue(id, generated));
    if UuidValidate(vo.id) then Ok(vo) else Err(InvalidUuidError)
  }

  /**
   * As written, construction without an argument, or with the empty string,
   * always throws: the check sees the missing argument, not the generated
   * UUID, even when that UUID is well formed.
   */
  lemma NoArgumentIsRejected(random: seq<byte>)
    requires |random| == 16
    ensures IsUuid(GenerateV4(random))
    ensures New(None, GenerateV4(random)) == Err(InvalidUuidError)
    ensures New(Some(""), GenerateV4(random)) == Err(InvalidUuidError)
  {
    assert !IsUuid("");
  }

  /**
   * The construction the generation path evidently intends: the value handed
   * to the base is stored as `id` and is the one validated.
   */
  function NewIntended(id: Option<string>, generated: string): (r: Result<UniqueEntityId>)
    ensures r.Ok? <==> IsUuid(BaseValue(id, generated))
    ensures r.Err? ==> r.error == InvalidUuidError
    ensures r.Ok? ==> r.value.id == Some(r.value.value) && r.value.value == BaseValue(id, generated)
  {
    var value := BaseValue(id, generated);
    var vo := UniqueEntityId(Some(value), value);
    if UuidValidate(vo.id) then Ok(vo) else Err(InvalidUuidError)
  }

  /** Intended construction without an argument yields a generated id that passes validation. */
  lemma GeneratedIdIsAccepted(random: seq<byte>)
    requires |random| == 16
    ensures NewIntended(None, GenerateV4(random)).Ok?
    ensures UuidValidate(NewIntended(None, GenerateV4(random)).value.id)
  {
  }

  /** For a supplied non-empty argument the intended and the written construction agree. */
  lemma IntendedAgreesOnSuppliedIds(id: string, generated: string)
    requires id != ""
    ensures NewIntended(Some(id), generated) == New(Some(id), generated)
  {
  }

  // ---------------------------------------------------------------------------
  // The cases of unique-entity-id.vo.spec.ts
  // ---------------------------------------------------------------------------

  lemma FakeIdIsRejected(generated: string)
    ensures New(Some("Fake id"), generated) == Err(InvalidUuidError)
  {
  }

  lemma ValidUuidIsAccepted(generated: string)
    ensures New(Some("d8bb2696-a2e3-49a2-8e33-6782fc142855"), generated).Ok?
    ensures New(Some("d8bb2696-a2e3-49a2-8e33-6782fc142855"), generated).value.id
            == Some("d8bb2696-a2e3-49a2-8e33-6782fc142855")
  {
    var s := "d8bb2696-a2e3-49a2-8e33-6782fc142855";
    assert forall i :: 0 <= i < 36 ==> if IsHyphenPosition(i) then s[i] == '-' else IsHexDigit(s[i]);
  }
}
