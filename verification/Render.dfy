/** Rendering of pathname bytes (`display_path` in `ncda/src/bpf.rs`) on top of UTF-8 as in
    section 4 of RFC 3629. */
module Render {
  import opened Saturating

  // --- UTF-8 ---

  predicate Tail(b: u8) { 0x80 <= b <= 0xBF }

  /** Which second bytes may follow a lead byte of three or four. */
  predicate SecondByte(lead: u8, b: u8) {
    if lead == 0xE0 then 0xA0 <= b <= 0xBF
    else if lead == 0xED then 0x80 <= b <= 0x9F
    else if lead == 0xF0 then 0x90 <= b <= 0xBF
    else if lead == 0xF4 then 0x80 <= b <= 0x8F
    else Tail(b)
  }

  /** The length that a lead byte announces, 0 for bytes that cannot lead. */
  function Announced(lead: u8): nat {
    if lead <= 0x7F then 1
    else if 0xC2 <= lead <= 0xDF then 2
    else if 0xE0 <= lead <= 0xEF then 3
    else if 0xF0 <= lead <= 0xF4 then 4
    else 0
  }

  /** How many of the announced bytes are there and fit; 0 if the first byte cannot lead. */
  function Fitting(b: Bytes): nat
    requires b != []
  {
    var n := Announced(b[0]);
    if n <= 1 || |b| < 2 || !SecondByte(b[0], b[1]) then Min(n, 1)
    else if n == 2 || |b| < 3 || !Tail(b[2]) then 2
    else if n == 3 || |b| < 4 || !Tail(b[3]) then 3
    else 4
  }

  /** The length of the character at the front, or 0 if there is none. */
  function Width(b: Bytes): (n: nat)
    ensures n <= |b| && n <= 4
  {
    if b != [] && Announced(b[0]) > 0 && Fitting(b) == Announced(b[0]) then Announced(b[0]) else 0
  }

  /** `Utf8Error::error_len`, or the rest of the input when it ends too early. */
  function BadLength(b: Bytes): (n: nat)
    requires b != [] && Width(b) == 0
    ensures 0 < n <= |b|
  {
    if Announced(b[0]) == 0 then 1
    else if Fitting(b) == |b| then |b|
    else Fitting(b)
  }

  /** The payload of a byte above the marker bits. */
  function Payload(b: u8, marker: nat): int { b as int - marker as int }

  /** The scalar value at the front. */
  function CodePoint(b: Bytes): (n: nat)
    requires Width(b) > 0
    ensures n < 0xD800 || 0xE000 <= n <= 0x10FFFF
  {
    match Width(b)
    case 1 => b[0]
    case 2 => Payload(b[0], 0xC0) * 64 + Payload(b[1], 0x80)
    case 3 => Payload(b[0], 0xE0) * 4096 + Payload(b[1], 0x80) * 64 + Payload(b[2], 0x80)
    case _ => Payload(b[0], 0xF0) * 262144 + Payload(b[1], 0x80) * 4096 + Payload(b[2], 0x80) * 64 + Payload(b[3], 0x80)
  }

  function Encode(c: char): Bytes {
    var n := c as int;
    if n < 0x80 then [n]
    else if n < 0x800 then [0xC0 + n / 64, 0x80 + n % 64]
    else if n < 0x10000 then [0xE0 + n / 4096, 0x80 + n / 64 % 64, 0x80 + n % 64]
    else [0xF0 + n / 262144, 0x80 + n / 4096 % 64, 0x80 + n / 64 % 64, 0x80 + n % 64]
  }

  lemma Digits(high: nat, low: nat)
    requires low < 64
    ensures (high * 64 + low) / 64 == high && (high * 64 + low) % 64 == low
  {
  }

  lemma Digits3(a: nat, b: nat, c: nat)
    requires b < 64 && c < 64
    ensures var n := a * 4096 + b * 64 + c;
            n / 4096 == a && n / 64 % 64 == b && n % 64 == c
  {
    Digits(a * 64 + b, c);
    Digits(a, b);
  }

  lemma Digits4(a: nat, b: nat, c: nat, d: nat)
    requires b < 64 && c < 64 && d < 64
    ensures var n := a * 262144 + b * 4096 + c * 64 + d;
            n / 262144 == a && n / 4096 % 64 == b && n / 64 % 64 == c && n % 64 == d
  {
    Digits(a * 4096 + b * 64 + c, d);
    Digits3(a, b, c);
  }

  lemma Encode3(a: nat, b: nat, c: nat)
    requires b < 64 && c < 64
    requires var n := a * 4096 + b * 64 + c; 0x800 <= n < 0xD800 || 0xE000 <= n < 0x10000
    ensures Encode((a * 4096 + b * 64 + c) as char) == [0xE0 + a, 0x80 + b, 0x80 + c]
  {
    Digits3(a, b, c);
  }

  lemma Encode4(a: nat, b: nat, c: nat, d: nat)
    requires b < 64 && c < 64 && d < 64 && 0x10000 <= a * 262144 + b * 4096 + c * 64 + d <= 0x10FFFF
    ensures Encode((a * 262144 + b * 4096 + c * 64 + d) as char) == [0xF0 + a, 0x80 + b, 0x80 + c, 0x80 + d]
  {
    Digits4(a, b, c, d);
  }

  /** Decoding a character and encoding it again gives the same bytes. */
  lemma EncodeDecodes(b: Bytes)
    requires Width(b) > 0
    ensures Encode(CodePoint(b) as char) == b[..Width(b)]
  {
    hide Encode;
    if Width(b) == 1 {
      EncodeShort(b[0]);
    } else if Width(b) == 2 {
      EncodePair(Payload(b[0], 0xC0), Payload(b[1], 0x80));
    } else if Width(b) == 3 {
      Encode3(Payload(b[0], 0xE0), Payload(b[1], 0x80), Payload(b[2], 0x80));
    } else {
      Encode4(Payload(b[0], 0xF0), Payload(b[1], 0x80), Payload(b[2], 0x80), Payload(b[3], 0x80));
    }
  }

  lemma EncodeShort(a: nat)
    requires a < 0x80
    ensures Encode(a as char) == [a]
  {
  }

  lemma EncodePair(a: nat, b: nat)
    requires b < 64 && 0x80 <= a * 64 + b < 0x800
    ensures Encode((a * 64 + b) as char) == [0xC0 + a, 0x80 + b]
  {
    Digits(a, b);
  }

  /** Every scalar value is found again at the front of its encoding. */
  lemma DecodeEncodes(c: char, rest: Bytes)
    ensures var b := Encode(c) + rest;
            Width(b) == |Encode(c)| && CodePoint(b) == c as int
  {
    var n := c as int;
    assert n == n / 64 * 64 + n % 64;
    assert n / 64 == n / 64 / 64 * 64 + n / 64 % 64 && n / 64 / 64 == n / 4096;
    assert n / 4096 == n / 4096 / 64 * 64 + n / 4096 % 64 && n / 4096 / 64 == n / 262144;
  }

  /** Only the character itself has an encoding that starts with its ASCII byte. */
  lemma AsciiAlone(b: Bytes)
    requires Width(b) > 0
    ensures CodePoint(b) < 0x80 <==> b[0] < 0x80
    ensures b[0] < 0x80 ==> CodePoint(b) == b[0] && Width(b) == 1
  {
  }

  // --- Rendering ---

  predicate Control(c: char) { c as int <= 0x1F || 0x7F <= c as int <= 0x9F }

  const HEX := "0123456789ABCDEF"

  /** `\xNN`. */
  function HexByte(b: u8): string { ['\\', 'x', HEX[b / 16], HEX[b % 16]] }

  function HexBytes(b: Bytes): string { if b == [] then "" else HexByte(b[0]) + HexBytes(b[1..]) }

  /** `push_display_text` for one character. */
  function Escape(c: char): string {
    if c == '\\' then "\\\\" else if Control(c) then HexBytes(Encode(c)) else [c]
  }

  /** How many bytes are rendered together: a character, or a sequence that is none. */
  function Taken(b: Bytes): (n: nat)
    requires b != []
    ensures 0 < n <= |b|
  {
    if Width(b) > 0 then Width(b) else BadLength(b)
  }

  function Front(b: Bytes): string
    requires b != []
  {
    if Width(b) > 0 then Escape(CodePoint(b) as char) else HexBytes(b[..Taken(b)])
  }

  /** The rendering of pathname bytes. */
  function Display(b: Bytes): string
    decreases |b|
  {
    if b == [] then "" else Front(b) + Display(b[Taken(b)..])
  }

  function HexValue(c: char): int {
    if '0' <= c <= '9' then c as int - '0' as int
    else if 'A' <= c <= 'F' then c as int - 'A' as int + 10
    else -1
  }

  /** Reads back what `Display` writes; malformed escapes end the text. */
  function Undo(text: string): Bytes {
    if text == "" then []
    else if text[0] != '\\' then Encode(text[0]) + Undo(text[1..])
    else if 2 <= |text| && text[1] == '\\' then [0x5C] + Undo(text[2..])
    else if 4 <= |text| && text[1] == 'x' && HexValue(text[2]) >= 0 && HexValue(text[3]) >= 0 then
      [HexValue(text[2]) * 16 + HexValue(text[3])] + Undo(text[4..])
    else []
  }

  lemma HexDigits(b: u8)
    ensures HexValue(HEX[b / 16]) * 16 + HexValue(HEX[b % 16]) == b
    ensures HexValue(HEX[b / 16]) >= 0 && HexValue(HEX[b % 16]) >= 0
    ensures !Control(HEX[b / 16]) && !Control(HEX[b % 16])
    ensures HEX[b / 16] != '/' && HEX[b % 16] != '/'
  {
    assert HexDigit(b / 16) && HexDigit(b % 16);
  }

  predicate HexDigit(n: int)
    requires 0 <= n < 16
    ensures HexDigit(n)
  {
    HexValue(HEX[n]) == n && !Control(HEX[n]) && HEX[n] != '/'
  }

  lemma {:induction false} UndoHex(b: Bytes, rest: string)
    ensures Undo(HexBytes(b) + rest) == b + Undo(rest)
  {
    hide Undo, HexByte;
    if b == [] {
      assert HexBytes(b) + rest == rest;
    } else {
      UndoHex(b[1..], rest);
      UndoHexByte(b[0], HexBytes(b[1..]) + rest);
      assert HexBytes(b) + rest == HexByte(b[0]) + (HexBytes(b[1..]) + rest);
    }
  }

  lemma UndoHexByte(b: u8, rest: string)
    ensures Undo(HexByte(b) + rest) == [b] + Undo(rest)
  {
    var text := HexByte(b) + rest;
    HexDigits(b);
    assert text[..4] == HexByte(b) && text[4..] == rest;
  }

  lemma UndoEscape(c: char, rest: string)
    ensures Undo(Escape(c) + rest) == Encode(c) + Undo(rest)
  {
    if c != '\\' && Control(c) {
      UndoHex(Encode(c), rest);
    } else {
      assert (Escape(c) + rest)[|Escape(c)|..] == rest;
    }
  }

  lemma UndoFront(b: Bytes, rest: string)
    requires b != []
    ensures Undo(Front(b) + rest) == b[..Taken(b)] + Undo(rest)
  {
    hide Undo, Escape, Encode, HexBytes, CodePoint, BadLength, Width;
    if Width(b) > 0 {
      EncodeDecodes(b);
      UndoEscape(CodePoint(b) as char, rest);
    } else {
      UndoHex(b[..Taken(b)], rest);
    }
  }

  /** The rendering can be read back, whatever the bytes. */
  lemma {:induction false} DisplayRoundTrip(b: Bytes)
    ensures Undo(Display(b)) == b
    decreases |b|
  {
    hide Undo, Front, Taken;
    if b == [] {
      UndoNothing();
    } else {
      DisplayRoundTrip(b[Taken(b)..]);
      UndoFront(b, Display(b[Taken(b)..]));
      assert b[..Taken(b)] + b[Taken(b)..] == b;
    }
  }

  lemma UndoNothing()
    ensures Undo("") == []
  {
  }

  /** Different bytes are rendered differently. */
  lemma DisplayInjective(a: Bytes, b: Bytes)
    requires Display(a) == Display(b)
    ensures a == b
  {
    DisplayRoundTrip(a);
    DisplayRoundTrip(b);
  }

  ghost predicate Printable(text: string) { forall c :: c in text ==> !Control(c) }

  lemma {:induction false} HexPrintable(b: Bytes)
    ensures Printable(HexBytes(b)) && '/' !in HexBytes(b)
  {
    if b != [] {
      HexDigits(b[0]);
      HexPrintable(b[1..]);
    }
  }

  lemma FrontPrintable(b: Bytes)
    requires b != []
    ensures Printable(Front(b))
    ensures b[0] != 0x2F ==> '/' !in Front(b)
    ensures b[0] == 0x2F ==> Front(b) == "/" && Taken(b) == 1
  {
    if Width(b) > 0 {
      AsciiAlone(b);
      HexPrintable(Encode(CodePoint(b) as char));
    } else {
      HexPrintable(b[..Taken(b)]);
    }
    hide HexBytes, BadLength;
  }

  /** No control character is ever written. */
  lemma {:induction false} DisplayPrintable(b: Bytes)
    ensures Printable(Display(b))
    decreases |b|
  {
    hide Front, Taken;
    if b != [] {
      FrontPrintable(b);
      DisplayPrintable(b[Taken(b)..]);
    }
  }

  // --- Slashes ---

  /** A slash ends whatever comes before it, even a truncated character. */
  lemma SlashEndsCharacter(a: Bytes, rest: Bytes)
    requires a != []
    ensures var b := a + [0x2F] + rest;
            Taken(b) == Taken(a) && Front(b) == Front(a) && b[Taken(b)..] == a[Taken(a)..] + [0x2F] + rest
  {
    var b := a + [0x2F] + rest;
    assert Announced(b[0]) == Announced(a[0]);
    assert b[Taken(a)..] == a[Taken(a)..] + [0x2F] + rest;
    assert b[..Taken(a)] == a[..Taken(a)];
    hide HexBytes, Escape;
  }

  /** Rendering goes component by component. */
  lemma {:induction false} DisplayAtSlash(a: Bytes, rest: Bytes)
    ensures Display(a + [0x2F] + rest) == Display(a) + "/" + Display(rest)
    decreases |a|
  {
    hide *;
    var b := a + [0x2F] + rest;
    DisplayNext(b);
    if a == [] {
      DisplayNothing();
      FrontPrintable(b);
      assert b[1..] == rest;
    } else {
      DisplayNext(a);
      SlashEndsCharacter(a, rest);
      DisplayAtSlash(a[Taken(a)..], rest);
    }
  }

  lemma DisplayNext(b: Bytes)
    requires b != []
    ensures Display(b) == Front(b) + Display(b[Taken(b)..])
  {
  }

  lemma DisplayNothing()
    ensures Display([]) == ""
  {
  }

  // --- What is shown as it is ---

  /** Text as bytes. */
  function Utf8(text: string): Bytes { if text == "" then [] else Encode(text[0]) + Utf8(text[1..]) }

  /** A character is rendered by itself, whatever follows. */
  lemma CharacterShown(c: char, rest: Bytes)
    ensures Display(Encode(c) + rest) == Escape(c) + Display(rest)
  {
    hide *;
    DecodeEncodes(c, rest);
    EncodeSome(c);
    var b := Encode(c) + rest;
    DisplayNext(b);
    FrontCharacter(b);
    assert b[|Encode(c)|..] == rest;
  }

  lemma EncodeSome(c: char)
    ensures Encode(c) != []
  {
  }

  lemma FrontCharacter(b: Bytes)
    requires b != [] && Width(b) > 0
    ensures Taken(b) == Width(b) && Front(b) == Escape(CodePoint(b) as char)
  {
    hide Escape, CodePoint, Width;
  }

  /** Text without control characters and backslashes is shown as it is. */
  lemma {:induction false} PlainTextShown(text: string)
    requires forall i :: 0 <= i < |text| ==>
               text[i] != '\\' && 0x20 <= text[i] as int && !(0x7F <= text[i] as int <= 0x9F)
    ensures Display(Utf8(text)) == text
  {
    hide Display, Encode;
    if text == "" {
      DisplayNothing();
    } else {
      PlainTextShown(text[1..]);
      CharacterShown(text[0], Utf8(text[1..]));
      assert text == [text[0]] + text[1..];
    }
  }

  /** A backslash is doubled, and control characters are written in hexadecimal. */
  lemma EscapesShown(b: u8, rest: Bytes)
    requires b == 0x5C || b <= 0x1F || b == 0x7F
    ensures Display([b] + rest)
         == (if b == 0x5C then "\\\\" else ['\\', 'x', "0123456789ABCDEF"[b / 16], "0123456789ABCDEF"[b % 16]]) + Display(rest)
  {
    hide *;
    CharacterShown(b as char, rest);
    EscapeAscii(b);
  }

  lemma EscapeAscii(b: u8)
    requires b == 0x5C || b <= 0x1F || b == 0x7F
    ensures Encode(b as char) == [b]
    ensures Escape(b as char)
         == if b == 0x5C then "\\\\" else ['\\', 'x', "0123456789ABCDEF"[b / 16], "0123456789ABCDEF"[b % 16]]
  {
    if b != 0x5C {
      var bytes: Bytes := [b];
      assert Encode(b as char) == bytes && Control(b as char);
      HexNext(bytes, 0);
      assert bytes[0..] == bytes && bytes[1..] == [];
      assert HexByte(b) + "" == HexByte(b);
    }
  }

  // --- The loops of `display_path` ---

  /** `Utf8Error::valid_up_to`. */
  function ValidUpTo(b: Bytes): (n: nat)
    ensures n <= |b|
    ensures n < |b| ==> Width(b[n..]) == 0
    decreases |b|
  {
    if Width(b) == 0 then 0 else Width(b) + ValidUpTo(b[Width(b)..])
  }

  /** The characters of the valid prefix. */
  function Characters(b: Bytes): string
    decreases |b|
  {
    if Width(b) == 0 then "" else [CodePoint(b) as char] + Characters(b[Width(b)..])
  }

  function Escaped(text: string): string {
    if text == "" then "" else Escape(text[0]) + Escaped(text[1..])
  }

  lemma {:induction false} ValidFirst(b: Bytes)
    ensures Display(b) == Escaped(Characters(b)) + Display(b[ValidUpTo(b)..])
    decreases |b|
  {
    hide *;
    ValidNext(b);
    if Width(b) == 0 {
      assert b[0..] == b;
    } else {
      var rest := b[Width(b)..];
      ValidFirst(rest);
      DisplayNext(b);
      assert b[ValidUpTo(b)..] == rest[ValidUpTo(rest)..];
    }
  }

  lemma ValidNext(b: Bytes)
    ensures Width(b) == 0 ==> ValidUpTo(b) == 0 && Escaped(Characters(b)) == ""
    ensures Width(b) > 0 ==>
              var rest := b[Width(b)..];
              b != [] && Taken(b) == Width(b) && ValidUpTo(b) == Width(b) + ValidUpTo(rest)
              && Escaped(Characters(b)) == Front(b) + Escaped(Characters(rest))
  {
    hide Escape, CodePoint, BadLength, HexBytes;
    if Width(b) > 0 {
      assert Characters(b)[1..] == Characters(b[Width(b)..]);
    }
  }

  lemma InvalidNext(b: Bytes)
    requires b != [] && Width(b) == 0
    ensures Display(b) == HexBytes(b[..BadLength(b)]) + Display(b[BadLength(b)..])
  {
    hide Width, BadLength, HexBytes;
  }

  lemma EscapedNext(text: string, i: nat)
    requires i < |text|
    ensures Escaped(text[i..]) == Escape(text[i]) + Escaped(text[i + 1..])
  {
    hide Escape;
  }

  lemma HexNext(b: Bytes, i: nat)
    requires i < |b|
    ensures HexBytes(b[i..]) == HexByte(b[i]) + HexBytes(b[i + 1..])
  {
    hide HexByte;
  }

  method PushHex(output: string, bytes: Bytes) returns (output': string)
    ensures output' == output + HexBytes(bytes)
  {
    hide HexByte, HexBytes;
    output' := output;
    for i := 0 to |bytes|
      invariant output' + HexBytes(bytes[i..]) == output + HexBytes(bytes)
    {
      HexNext(bytes, i);
      output' := output' + HexByte(bytes[i]);
    }
    NoHex(bytes[|bytes|..]);
  }

  lemma NoHex(bytes: Bytes)
    requires bytes == []
    ensures HexBytes(bytes) == ""
  {
  }

  method PushDisplayText(output: string, text: string) returns (output': string)
    ensures output' == output + Escaped(text)
  {
    hide Encode, HexBytes, Escaped, Control;
    output' := output;
    for i := 0 to |text|
      invariant output' + Escaped(text[i..]) == output + Escaped(text)
    {
      EscapedNext(text, i);
      if text[i] == '\\' {
        output' := output' + "\\\\";
      } else if Control(text[i]) {
        output' := PushHex(output', Encode(text[i]));
      } else {
        output' := output' + [text[i]];
      }
    }
    NoEscape(text[|text|..]);
  }

  lemma NoEscape(text: string)
    requires text == ""
    ensures Escaped(text) == ""
  {
  }

  /** `display_path`. */
  method DisplayPath(path: Bytes) returns (output: string)
    ensures output == Display(path)
  {
    hide Front, Taken, Escaped, HexBytes, Characters, BadLength, Width;
    output := "";
    var bytes := path;
    while bytes != []
      invariant output + Display(bytes) == Display(path)
      decreases |bytes|
    {
      var valid := ValidUpTo(bytes);
      ValidFirst(bytes);
      output := PushDisplayText(output, Characters(bytes));
      bytes := bytes[valid..];
      if bytes == [] {
        break;
      }
      var invalid := BadLength(bytes);
      InvalidNext(bytes);
      output := PushHex(output, bytes[..invalid]);
      bytes := bytes[invalid..];
    }
  }
}
