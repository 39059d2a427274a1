/**
 Standard base64 as in section 4 of RFC 4648. The decoder skips line breaks, wants padding, and ignores
 the unused bits of a padded group.
 */
module Base64 {
  import opened Basics

  type byte = b: int | 0 <= b < 256

  type sextet = i: int | 0 <= i < 64

  // -1 stands for no digit.
  type reading = v: int | -1 <= v < 64

  function Digit(i: sextet): char {
    if i < 26 then 'A' + i as char
    else if i < 52 then 'a' + (i - 26) as char
    else if i < 62 then '0' + (i - 52) as char
    else if i == 62 then '+' else '/'
  }

  function Value(c: char): reading {
    if 'A' <= c <= 'Z' then (c - 'A') as int
    else if 'a' <= c <= 'z' then (c - 'a') as int + 26
    else if '0' <= c <= '9' then (c - '0') as int + 52
    else if c == '+' then 62 else if c == '/' then 63 else -1
  }

  // ----- one group: one to three bytes, four characters, in any alphabet -----

  function Quad(digit: sextet -> char, s: seq<byte>): string {
    if |s| == 1 then [digit(s[0] / 4), digit(s[0] % 4 * 16), '=', '=']
    else if |s| == 2 then [digit(s[0] / 4), digit(s[0] % 4 * 16 + s[1] / 16), digit(s[1] % 16 * 4), '=']
    else if |s| == 3 then
      [digit(s[0] / 4), digit(s[0] % 4 * 16 + s[1] / 16), digit(s[1] % 16 * 4 + s[2] / 64), digit(s[2] % 64)]
    else ""
  }

  function Unquad(value: char -> reading, t: string): Option<seq<byte>> {
    if |t| != 4 then None
    else
      var a, b, c, d := value(t[0]), value(t[1]), value(t[2]), value(t[3]);
      if a < 0 || b < 0 then None
      else if t[2] == '=' then (if t[3] == '=' then Some([a * 4 + b / 16]) else None)
      else if c < 0 then None
      else if t[3] == '=' then Some([a * 4 + b / 16, b % 16 * 16 + c / 4])
      else if d < 0 then None
      else Some([a * 4 + b / 16, b % 16 * 16 + c / 4, c % 4 * 64 + d])
  }

  ghost predicate Alphabet(digit: sextet -> char, value: char -> reading) {
    forall i: sextet :: value(digit(i)) == i && digit(i) != '='
  }

  lemma ThreeBytes(a: byte, b: byte, c: byte)
    ensures a / 4 * 4 + (a % 4 * 16 + b / 16) / 16 == a
    ensures (a % 4 * 16 + b / 16) % 16 * 16 + (b % 16 * 4 + c / 64) / 4 == b
    ensures (b % 16 * 4 + c / 64) % 4 * 64 + c % 64 == c
  {}

  lemma UnquadQuad(digit: sextet -> char, value: char -> reading, s: seq<byte>)
    requires Alphabet(digit, value) && 1 <= |s| <= 3
    ensures |Quad(digit, s)| == 4 && Unquad(value, Quad(digit, s)) == Some(s)
  {
    ThreeBytes(s[0], if |s| > 1 then s[1] else 0, if |s| > 2 then s[2] else 0);
    var r := Unquad(value, Quad(digit, s));
    assert r.Some? && r.value == s;
  }

  // ----- any number of groups, whatever the code of one group -----

  function Blocks(code: seq<byte> -> string, s: seq<byte>): string {
    if s == [] then ""
    else if |s| <= 3 then code(s)
    else code(s[..3]) + Blocks(code, s[3..])
  }

  // Only the last group may stand for fewer than three bytes.
  function Unblocks(decode: string -> Option<seq<byte>>, t: string): Option<seq<byte>> {
    if t == "" then Some([])
    else if |t| <= 4 then decode(t)
    else
      var first, rest := decode(t[..4]), Unblocks(decode, t[4..]);
      if first.None? || |first.value| != 3 || rest.None? then None else Some(first.value + rest.value)
  }

  lemma {:induction false} UnblocksBlocks(code: seq<byte> -> string, decode: string -> Option<seq<byte>>, s: seq<byte>)
    requires forall b: seq<byte> :: 1 <= |b| <= 3 ==> |code(b)| == 4 && decode(code(b)) == Some(b)
    ensures Unblocks(decode, Blocks(code, s)) == Some(s)
    ensures |s| > 0 ==> |Blocks(code, s)| >= 4
  {
    if |s| > 3 {
      var t := Blocks(code, s);
      UnblocksBlocks(code, decode, s[3..]);
      assert t[..4] == code(s[..3]) && t[4..] == Blocks(code, s[3..]);
      assert s == s[..3] + s[3..];
    }
  }

  lemma {:induction false} BlocksConcat(code: seq<byte> -> string, a: seq<byte>, b: seq<byte>)
    requires |a| % 3 == 0
    ensures Blocks(code, a + b) == Blocks(code, a) + Blocks(code, b)
  {
    if a == [] {
      assert a + b == b;
    } else {
      BlocksConcat(code, a[3..], b);
      BlocksHead(code, a);
      BlocksHead(code, a + b);
      assert (a + b)[..3] == a[..3] && (a + b)[3..] == a[3..] + b;
    }
  }

  lemma BlocksHead(code: seq<byte> -> string, s: seq<byte>)
    requires |s| >= 3
    ensures Blocks(code, s) == code(s[..3]) + Blocks(code, s[3..])
  {
    if |s| == 3 { assert s[..3] == s; }
  }

  lemma {:induction false} BlocksClean(code: seq<byte> -> string, s: seq<byte>)
    requires forall b: seq<byte> :: Clean(code(b))
    ensures Clean(Blocks(code, s))
  {
    if |s| > 3 { BlocksClean(code, s[3..]); }
  }

  // ----- line breaks -----

  predicate LineBreak(c: char) { c == '\r' || c == '\n' }

  predicate Clean(t: string) { forall i :: 0 <= i < |t| ==> !LineBreak(t[i]) }

  function Strip(t: string): string {
    if t == "" then "" else (if LineBreak(t[0]) then "" else [t[0]]) + Strip(t[1..])
  }

  lemma {:induction false} StripClean(t: string)
    requires Clean(t)
    ensures Strip(t) == t
  {
    if t != "" { StripClean(t[1..]); }
  }

  // ----- the code -----

  function StandardQuad(s: seq<byte>): string { Quad(Digit, s) }

  function StandardUnquad(t: string): Option<seq<byte>> { Unquad(Value, t) }

  function Encode(s: seq<byte>): string { Blocks(StandardQuad, s) }

  function Decode(t: string): Option<seq<byte>> { Unblocks(StandardUnquad, Strip(t)) }

  lemma Standard()
    ensures Alphabet(Digit, Value) && forall i: sextet :: !LineBreak(Digit(i))
  {}

  lemma DecodeEncode(s: seq<byte>)
    ensures Decode(Encode(s)) == Some(s)
  {
    Standard();
    forall b: seq<byte> ensures Clean(StandardQuad(b)) { QuadClean(Digit, b); }
    BlocksClean(StandardQuad, s);
    StripClean(Encode(s));
    forall b: seq<byte> | 1 <= |b| <= 3
      ensures |StandardQuad(b)| == 4 && StandardUnquad(StandardQuad(b)) == Some(b)
    {
      UnquadQuad(Digit, Value, b);
    }
    UnblocksBlocks(StandardQuad, StandardUnquad, s);
  }

  lemma QuadClean(digit: sextet -> char, s: seq<byte>)
    requires forall i: sextet :: !LineBreak(digit(i))
    ensures Clean(Quad(digit, s))
  {}

  // Encoding piece by piece gives the encoding of the whole when the pieces are cut at multiples of three bytes.
  lemma EncodeConcat(a: seq<byte>, b: seq<byte>)
    requires |a| % 3 == 0
    ensures Encode(a + b) == Encode(a) + Encode(b)
  {
    BlocksConcat(StandardQuad, a, b);
  }

  // ----- it is the standard code -----

  const ALPHABET := Range('A', 26) + Range('a', 26) + Range('0', 10) + "+/"

  lemma StandardAlphabet(i: sextet)
    ensures |ALPHABET| == 64 && Digit(i) == ALPHABET[i]
  {}

  // Four characters for every three bytes begun.
  lemma {:induction false} EncodedLength(s: seq<byte>)
    ensures |Encode(s)| == (|s| + 2) / 3 * 4
  {
    if |s| > 3 { EncodedLength(s[3..]); }
  }

  lemma {:induction false} UnblocksLength(t: string)
    requires Unblocks(StandardUnquad, t).Some?
    ensures |t| % 4 == 0
  {
    if |t| > 4 { UnblocksLength(t[4..]); }
  }

  // A text decodes only if it has whole groups, line breaks aside.
  lemma DecodableLength(t: string)
    requires Decode(t).Some?
    ensures |Strip(t)| % 4 == 0
  {
    UnblocksLength(Strip(t));
  }

  // The examples of section 10 of RFC 4648, in bytes.
  lemma Examples()
    ensures Encode([102]) == "Zg==" && Encode([102, 111]) == "Zm8=" && Encode([102, 111, 111]) == "Zm9v"
    ensures Encode([102, 111, 111, 98, 97, 114]) == "Zm9vYmFy"
  {
    var foobar: seq<byte> := [102, 111, 111, 98, 97, 114];
    assert foobar[..3] == [102, 111, 111] && foobar[3..] == [98, 97, 114];
    assert StandardQuad([98, 97, 114]) == "YmFy";
  }
}
