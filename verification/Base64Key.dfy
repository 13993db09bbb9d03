/** 32-byte keys and their base64 text (section 4 of RFC 4648: standard alphabet, padding
    required, unused trailing bits zero), as `PrivateKey`, `PublicKey` and `PresharedKey` use it. */
module Base64Key {
  import opened Wrappers
  import opened Text

  type Byte = x: int | 0 <= x < 256
  type Sextet = x: int | 0 <= x < 64

  type Key = k: seq<Byte> | |k| == KEY_LEN witness seq(32, i => 0)

  const KEY_LEN := 32

  /** The placeholder key: 32 zero bytes. */
  function ZeroKey(): Key {
    seq(KEY_LEN, i => 0)
  }

  function SextetChar(v: Sextet): char {
    if v < 26 then ('A' as int + v) as char
    else if v < 52 then ('a' as int + (v - 26)) as char
    else if v < 62 then ('0' as int + (v - 52)) as char
    else if v == 62 then '+' else '/'
  }

  function CharSextet(c: char): (v: Option<int>)
    ensures v.Some? ==> 0 <= v.value < 64
  {
    if 'A' <= c <= 'Z' then Some(c as int - 'A' as int)
    else if 'a' <= c <= 'z' then Some(c as int - 'a' as int + 26)
    else if '0' <= c <= '9' then Some(c as int - '0' as int + 52)
    else if c == '+' then Some(62) else if c == '/' then Some(63) else None
  }

  /** One full group: three bytes, four characters. */
  function EncodeGroup(a: Byte, b: Byte, c: Byte): (q: string)
    ensures |q| == 4
  {
    [SextetChar(a / 4), SextetChar(a % 4 * 16 + b / 16), SextetChar(b % 16 * 4 + c / 64), SextetChar(c % 64)]
  }

  /** The final group when one or two bytes are left over. */
  function EncodeRest(b: seq<Byte>): (q: string)
    requires |b| == 1 || |b| == 2
    ensures |q| == 4
  {
    if |b| == 1 then [SextetChar(b[0] / 4), SextetChar(b[0] % 4 * 16), '=', '=']
    else [SextetChar(b[0] / 4), SextetChar(b[0] % 4 * 16 + b[1] / 16), SextetChar(b[1] % 16 * 4), '=']
  }

  function Encode(b: seq<Byte>): string {
    if b == [] then ""
    else if |b| < 3 then EncodeRest(b)
    else EncodeGroup(b[0], b[1], b[2]) + Encode(b[3..])
  }

  /** The bytes of one group of four characters; padding only in the last group. */
  function DecodeQuad(q: string, last: bool): Option<seq<Byte>>
    requires |q| == 4
  {
    match (CharSextet(q[0]), CharSextet(q[1]), CharSextet(q[2]), CharSextet(q[3]))
    case (Some(w), Some(x), Some(y), Some(z)) => Some([w * 4 + x / 16, x % 16 * 16 + y / 4, y % 4 * 64 + z])
    case (Some(w), Some(x), Some(y), None) =>
      if last && q[3] == '=' && y % 4 == 0 then Some([w * 4 + x / 16, x % 16 * 16 + y / 4]) else None
    case (Some(w), Some(x), None, None) =>
      if last && q[2] == '=' && q[3] == '=' && x % 16 == 0 then Some([w * 4 + x / 16]) else None
    case _ => None
  }

  function Decode(s: string): Option<seq<Byte>> {
    if s == "" then Some([]) else if |s| < 4 then None else
    match (DecodeQuad(s[..4], |s| == 4), Decode(s[4..]))
    case (Some(head), Some(tail)) => Some(head + tail)
    case _ => None
  }

  /** `to_base64`. */
  function ToBase64(k: Key): string {
    Encode(k)
  }

  /** `from_base64`: the text is trimmed first and must decode to exactly 32 bytes. */
  function FromBase64(s: string): Option<Key> {
    match Decode(Trim(s))
    case Some(b) => if |b| == KEY_LEN then Some(b) else None
    case None => None
  }

  lemma DecodeCons(q: string, rest: string)
    requires |q| == 4
    requires DecodeQuad(q, rest == "").Some? && Decode(rest).Some?
    ensures Decode(q + rest) == Some(DecodeQuad(q, rest == "").value + Decode(rest).value)
  {
    assert (q + rest)[..4] == q && (q + rest)[4..] == rest;
  }

  lemma DecodeOfGroup(a: Byte, b: Byte, c: Byte, tail: seq<Byte>, rest: string)
    requires Decode(rest) == Some(tail)
    ensures Decode(EncodeGroup(a, b, c) + rest) == Some([a, b, c] + tail)
  {
    QuadOfGroup(a, b, c, rest == "");
    DecodeCons(EncodeGroup(a, b, c), rest);
  }

  lemma DecodeOfRest(b: seq<Byte>)
    requires |b| == 1 || |b| == 2
    ensures Decode(EncodeRest(b)) == Some(b)
  {
    QuadOfRest(b);
    DecodeCons(EncodeRest(b), "");
    assert EncodeRest(b) + "" == EncodeRest(b) && b + [] == b;
  }

  lemma {:induction false} DecodeOfEncode(b: seq<Byte>)
    ensures Decode(Encode(b)) == Some(b)
  {
    if |b| >= 3 {
      DecodeOfEncode(b[3..]);
      DecodeOfGroup(b[0], b[1], b[2], b[3..], Encode(b[3..]));
      assert [b[0], b[1], b[2]] + b[3..] == b;
    } else if b != [] {
      DecodeOfRest(b);
    }
  }

  lemma QuadOfGroup(a: Byte, b: Byte, c: Byte, last: bool)
    ensures DecodeQuad(EncodeGroup(a, b, c), last) == Some([a, b, c])
  {
    CharOfSextet(a / 4);
    CharOfSextet(a % 4 * 16 + b / 16);
    CharOfSextet(b % 16 * 4 + c / 64);
    CharOfSextet(c % 64);
    hide SextetChar, CharSextet;
    assert (a % 4 * 16 + b / 16) / 16 == a % 4 && (a % 4 * 16 + b / 16) % 16 == b / 16;
    assert (b % 16 * 4 + c / 64) / 4 == b % 16 && (b % 16 * 4 + c / 64) % 4 == c / 64;
  }

  lemma QuadOfRest(b: seq<Byte>)
    requires |b| == 1 || |b| == 2
    ensures DecodeQuad(EncodeRest(b), true) == Some(b)
  {
    assert CharSextet('=') == None;
    CharOfSextet(b[0] / 4);
    hide SextetChar, CharSextet;
    if |b| == 1 {
      CharOfSextet(b[0] % 4 * 16);
      assert b == [b[0]];
    } else {
      CharOfSextet(b[0] % 4 * 16 + b[1] / 16);
      CharOfSextet(b[1] % 16 * 4);
      assert b == [b[0], b[1]];
    }
  }

  lemma CharOfSextet(v: Sextet)
    ensures CharSextet(SextetChar(v)) == Some(v)
    ensures !IsWhite(SextetChar(v)) && SextetChar(v) != ',' && SextetChar(v) != '\n'
  {
  }

  predicate KeyText(s: string) {
    forall i :: 0 <= i < |s| ==> CharSextet(s[i]).Some? || s[i] == '='
  }

  lemma QuadChars(q: string, last: bool)
    requires |q| == 4 && DecodeQuad(q, last).Some?
    ensures KeyText(q)
  {
  }

  lemma {:induction false} DecodableChars(s: string)
    requires Decode(s).Some?
    ensures KeyText(s)
  {
    if s == "" {
    } else {
      QuadChars(s[..4], |s| == 4);
      DecodableChars(s[4..]);
      assert s == s[..4] + s[4..];
    }
  }

  lemma KeyTextTrimmed(s: string)
    requires KeyText(s)
    ensures Trimmed(s) && Lacks(s, '\n')
  {
  }

  /** Text that decodes holds only alphabet characters and `=`, so it has nothing to trim. */
  lemma DecodableTrimmed(s: string)
    requires Decode(s).Some?
    ensures Trimmed(s) && Trim(s) == s && Lacks(s, '\n')
  {
    DecodableChars(s);
    KeyTextTrimmed(s);
    TrimId(s);
  }

  /** Writing a key and reading it back gives the same key; the text is one clean word. */
  lemma KeyRoundTrip(k: Key)
    ensures FromBase64(ToBase64(k)) == Some(k)
    ensures Trimmed(ToBase64(k)) && Lacks(ToBase64(k), '\n')
  {
    DecodeOfEncode(k);
    DecodableTrimmed(ToBase64(k));
  }
}
