/** The string operations the wire format is made of: splitting, stripping, decimal, hex, UTF-8. */
module Text {
  import opened Wrappers

  // ---------------------------------------------------------------- splitting and joining

  /** The text before the first `sep`, and the text after it if there is one. */
  function Partition(s: string, sep: char): (string, Option<string>) {
    if s == "" then ("", None)
    else if s[0] == sep then ("", Some(s[1..]))
    else
      var (head, tail) := Partition(s[1..], sep);
      ([s[0]] + head, tail)
  }

  /** The pieces between the separators; at least one. */
  function Split(s: string, sep: char): (pieces: seq<string>)
    ensures pieces != []
  {
    if s == "" then [""]
    else if s[0] == sep then [""] + Split(s[1..], sep)
    else
      var rest := Split(s[1..], sep);
      [[s[0]] + rest[0]] + rest[1..]
  }

  function Join(pieces: seq<string>, sep: char): string
    requires pieces != []
  {
    if |pieces| == 1 then pieces[0] else pieces[0] + [sep] + Join(pieces[1..], sep)
  }

  lemma {:induction false} PartitionFirst(head: string, sep: char, tail: string)
    requires sep !in head
    ensures Partition(head + [sep] + tail, sep) == (head, Some(tail))
  {
    var s := head + [sep] + tail;
    if head == "" {
      assert s[1..] == tail;
    } else {
      assert s[1..] == head[1..] + [sep] + tail;
      PartitionFirst(head[1..], sep, tail);
      assert head == [head[0]] + head[1..];
    }
  }

  lemma {:induction false} SplitPiece(piece: string, sep: char)
    requires sep !in piece
    ensures Split(piece, sep) == [piece]
  {
    if piece != "" {
      SplitPiece(piece[1..], sep);
      assert piece == [piece[0]] + piece[1..];
    }
  }

  lemma {:induction false} SplitFirst(piece: string, sep: char, rest: string)
    requires sep !in piece
    ensures Split(piece + [sep] + rest, sep) == [piece] + Split(rest, sep)
  {
    var s := piece + [sep] + rest;
    if piece == "" {
      assert s[1..] == rest;
    } else {
      assert s[1..] == piece[1..] + [sep] + rest;
      SplitFirst(piece[1..], sep, rest);
      assert piece == [piece[0]] + piece[1..];
    }
  }

  predicate NoneHas(pieces: seq<string>, sep: char) {
    forall i :: 0 <= i < |pieces| ==> sep !in pieces[i]
  }

  /** Splitting takes joining back. */
  lemma {:induction false} SplitJoin(pieces: seq<string>, sep: char)
    requires pieces != [] && NoneHas(pieces, sep)
    ensures Split(Join(pieces, sep), sep) == pieces
  {
    if |pieces| == 1 {
      SplitPiece(pieces[0], sep);
    } else {
      SplitJoin(pieces[1..], sep);
      SplitFirst(pieces[0], sep, Join(pieces[1..], sep));
      assert pieces == [pieces[0]] + pieces[1..];
    }
  }

  /** The last piece is where the text ends. */
  lemma {:induction false} SplitEnds(s: string, sep: char)
    ensures var pieces := Split(s, sep); var last := pieces[|pieces| - 1];
            last != "" ==> s != "" && last[|last| - 1] == s[|s| - 1]
  {
    if s != "" {
      SplitEnds(s[1..], sep);
      var rest := Split(s[1..], sep);
      if s[1..] != "" {
        NotOnlyEmpty(s[1..], sep);
      }
    }
  }

  lemma NotOnlyEmpty(s: string, sep: char)
    requires s != ""
    ensures |Split(s, sep)| > 1 || Split(s, sep)[0] != ""
  {
    var rest := Split(s[1..], sep);
    if s[0] != sep {
      assert Split(s, sep)[0] == [s[0]] + rest[0];
    }
  }

  lemma {:induction false} SplitPiecesLackSeparator(s: string, sep: char)
    ensures NoneHas(Split(s, sep), sep)
  {
    if s != "" {
      SplitPiecesLackSeparator(s[1..], sep);
    }
  }

  // ---------------------------------------------------------------- stripping

  /** The characters that stripping removes. */
  predicate IsSpace(c: char) {
    var n := c as int;
    || 0x09 <= n <= 0x0D || 0x1C <= n <= 0x20 || n == 0x85 || n == 0xA0 || n == 0x1680
    || 0x2000 <= n <= 0x200A || n == 0x2028 || n == 0x2029 || n == 0x202F || n == 0x205F || n == 0x3000
  }

  function StripLeft(s: string): string {
    if s != "" && IsSpace(s[0]) then StripLeft(s[1..]) else s
  }

  function StripRight(s: string): string {
    if s != "" && IsSpace(s[|s| - 1]) then StripRight(s[..|s| - 1]) else s
  }

  function Strip(s: string): string {
    StripRight(StripLeft(s))
  }

  predicate EndsInSpace(s: string) {
    s != "" && IsSpace(s[|s| - 1])
  }

  lemma {:induction false} StripRightEnds(s: string)
    ensures !EndsInSpace(StripRight(s))
  {
    if s != "" && IsSpace(s[|s| - 1]) {
      StripRightEnds(s[..|s| - 1]);
    }
  }

  /** What is stripped off the end leaves a front part. */
  lemma {:induction false} StripRightPart(s: string)
    ensures StripRight(s) <= s && (StripRight(s) == s <==> !EndsInSpace(s))
  {
    if s != "" && IsSpace(s[|s| - 1]) {
      StripRightPart(s[..|s| - 1]);
    }
  }

  lemma {:induction false} StripRightAfter(lead: string, s: string)
    requires lead != "" && !EndsInSpace(lead)
    ensures StripRight(lead + s) == lead + StripRight(s)
  {
    if s == "" {
      assert lead + s == lead;
    } else if IsSpace(s[|s| - 1]) {
      assert (lead + s)[..|lead + s| - 1] == lead + s[..|s| - 1];
      StripRightAfter(lead, s[..|s| - 1]);
    }
  }

  lemma StripRightKeeps(prefix: string, s: string)
    requires prefix != "" && !EndsInSpace(prefix) && prefix <= s
    ensures prefix <= StripRight(s)
  {
    assert s == prefix + s[|prefix|..];
    StripRightAfter(prefix, s[|prefix|..]);
  }

  lemma StripNothing(s: string)
    requires s != "" ==> !IsSpace(s[0]) && !IsSpace(s[|s| - 1])
    ensures Strip(s) == s
  {
  }

  // ---------------------------------------------------------------- prefixes and case

  function RemovePrefix(s: string, prefix: string): string {
    if prefix <= s then s[|prefix|..] else s
  }

  function LowerChar(c: char): char {
    if 'A' <= c <= 'Z' then c + 32 as char else c
  }

  function Lower(s: string): string {
    if s == "" then "" else [LowerChar(s[0])] + Lower(s[1..])
  }

  predicate IsHexDigit(c: char) {
    '0' <= c <= '9' || 'a' <= c <= 'f'
  }

  lemma {:induction false} LowerHex(s: string)
    requires forall i :: 0 <= i < |s| ==> IsHexDigit(s[i])
    ensures Lower(s) == s
  {
    if s != "" {
      LowerHex(s[1..]);
    }
  }

  // ---------------------------------------------------------------- decimal numbers

  function DigitChar(d: nat): char
    requires d < 10
  {
    '0' + d as char
  }

  predicate IsDigit(c: char) {
    '0' <= c <= '9'
  }

  /** The decimal digits of a number. */
  function Decimal(n: nat): string {
    if n < 10 then [DigitChar(n)] else Decimal(n / 10) + [DigitChar(n % 10)]
  }

  function Str(n: int): string {
    if n < 0 then "-" + Decimal(-n) else Decimal(n)
  }

  /** Digits with single underscores between them, as they are read by `int`. */
  function ParseDigits(s: string): Option<nat> {
    if s == "" || !IsDigit(s[|s| - 1]) then None
    else
      var d := (s[|s| - 1] - '0') as nat;
      if |s| == 1 then Some(d)
      else
        var rest := if s[|s| - 2] == '_' then s[..|s| - 2] else s[..|s| - 1];
        match ParseDigits(rest)
        case None => None
        case Some(n) => Some(n * 10 + d)
  }

  predicate IsAscii(s: string) {
    forall i :: 0 <= i < |s| ==> s[i] as int < 0x80
  }

  function AsciiStrip(s: string): string {
    if s == "" then s
    else if IsAsciiSpace(s[0]) then AsciiStrip(s[1..])
    else if IsAsciiSpace(s[|s| - 1]) then AsciiStrip(s[..|s| - 1])
    else s
  }

  /** What `int` reads. The control characters that `strip` takes for spaces are so for `int` only
      in a text that is not all ASCII. */
  function ParseInt(s: string): Option<int> {
    var t := if IsAscii(s) then AsciiStrip(s) else Strip(s);
    if t == "" then None
    else if t[0] == '-' then Negated(ParseDigits(t[1..]))
    else ParseDigits(if t[0] == '+' then t[1..] else t)
  }

  function Negated(n: Option<int>): Option<int> {
    match n
    case None => None
    case Some(value) => Some(-value)
  }

  lemma {:induction false} DecimalDigits(n: nat)
    ensures Decimal(n) != "" && forall i :: 0 <= i < |Decimal(n)| ==> IsDigit(Decimal(n)[i])
    ensures ParseDigits(Decimal(n)) == Some(n)
  {
    if n >= 10 {
      DecimalDigits(n / 10);
      assert Decimal(n)[..|Decimal(n)| - 1] == Decimal(n / 10);
    }
  }

  /** A number read back from its digits. */
  lemma ParseStr(n: nat)
    ensures ParseInt(Str(n)) == Some(n)
    ensures forall i :: 0 <= i < |Str(n)| ==> IsDigit(Str(n)[i])
  {
    DecimalDigits(n);
    StripNothing(Str(n));
  }

  // ---------------------------------------------------------------- hex bytes

  function HexChar(d: nat): char
    requires d < 16
  {
    if d < 10 then '0' + d as char else 'a' + (d - 10) as char
  }

  function HexValue(c: char): Option<nat> {
    if '0' <= c <= '9' then Some((c - '0') as nat)
    else if 'a' <= c <= 'f' then Some((c - 'a') as nat + 10)
    else if 'A' <= c <= 'F' then Some((c - 'A') as nat + 10)
    else None
  }

  function ToHex(bytes: seq<Byte>): string {
    if bytes == [] then "" else [HexChar(bytes[0] / 16), HexChar(bytes[0] % 16)] + ToHex(bytes[1..])
  }

  predicate IsAsciiSpace(c: char) {
    0x09 <= c as int <= 0x0D || c == ' '
  }

  /** Pairs of hex digits, with spaces allowed between pairs. */
  function FromHex(s: string): Option<seq<Byte>> {
    if s == "" then Some([])
    else if IsAsciiSpace(s[0]) then FromHex(s[1..])
    else if |s| < 2 || HexValue(s[0]).None? || HexValue(s[1]).None? then None
    else
      match FromHex(s[2..])
      case None => None
      case Some(rest) => Some([HexByte(s[0], s[1])] + rest)
  }

  function HexByte(a: char, b: char): Byte
    requires HexValue(a).Some? && HexValue(b).Some?
  {
    HexValue(a).value * 16 + HexValue(b).value
  }

  lemma HexOfByte(b: Byte)
    ensures var high, low := HexChar(b / 16), HexChar(b % 16);
            && HexValue(high) == Some(b / 16) && HexValue(low) == Some(b % 16)
            && HexByte(high, low) == b && !IsAsciiSpace(high)
  {
  }

  lemma {:induction false} HexRoundTrip(bytes: seq<Byte>)
    ensures FromHex(ToHex(bytes)) == Some(bytes)
  {
    if bytes != [] {
      HexRoundTrip(bytes[1..]);
      HexOfByte(bytes[0]);
      var text := ToHex(bytes);
      assert text[0] == HexChar(bytes[0] / 16) && text[1] == HexChar(bytes[0] % 16);
      assert text[2..] == ToHex(bytes[1..]);
      assert bytes == [bytes[0]] + bytes[1..];
    }
  }

  // ---------------------------------------------------------------- UTF-8

  function EncodeChar(c: char): seq<Byte> {
    var n := c as int;
    if n < 0x80 then [n]
    else if n < 0x800 then [0xC0 + n / 64, 0x80 + n % 64]
    else if n < 0x1_0000 then [0xE0 + n / 4096, 0x80 + n / 64 % 64, 0x80 + n % 64]
    else [0xF0 + n / 262144, 0x80 + n / 4096 % 64, 0x80 + n / 64 % 64, 0x80 + n % 64]
  }

  function Utf8(s: string): seq<Byte> {
    if s == "" then [] else EncodeChar(s[0]) + Utf8(s[1..])
  }

  predicate IsTail(b: Byte) {
    0x80 <= b < 0xC0
  }

  predicate IsScalar(n: int) {
    0 <= n < 0xD800 || 0xE000 <= n < 0x11_0000
  }

  /** The first character and how many bytes it takes; overlong and surrogate forms are refused. */
  function DecodeChar(bytes: seq<Byte>): Option<(char, nat)>
    requires bytes != []
  {
    var b := bytes[0];
    if b < 0x80 then Some((b as char, 1))
    else if 0xC0 <= b < 0xE0 && |bytes| >= 2 && IsTail(bytes[1]) then
      var n: int := (b as int - 0xC0) * 64 + (bytes[1] - 0x80);
      if 0x80 <= n then Some((n as char, 2)) else None
    else if 0xE0 <= b < 0xF0 && |bytes| >= 3 && IsTail(bytes[1]) && IsTail(bytes[2]) then
      var n: int := (b as int - 0xE0) * 4096 + (bytes[1] as int - 0x80) * 64 + (bytes[2] - 0x80);
      if 0x800 <= n && IsScalar(n) then Some((n as char, 3)) else None
    else if 0xF0 <= b < 0xF8 && |bytes| >= 4 && IsTail(bytes[1]) && IsTail(bytes[2]) && IsTail(bytes[3]) then
      var n: int := (b as int - 0xF0) * 262144 + (bytes[1] as int - 0x80) * 4096 +
                    (bytes[2] as int - 0x80) * 64 + (bytes[3] - 0x80);
      if 0x1_0000 <= n && IsScalar(n) then Some((n as char, 4)) else None
    else None
  }

  function DecodeUtf8(bytes: seq<Byte>): Option<string>
    decreases |bytes|
  {
    if bytes == [] then Some("")
    else
      match DecodeChar(bytes)
      case None => None
      case Some((c, taken)) =>
        if taken == 0 || taken > |bytes| then None
        else
          match DecodeUtf8(bytes[taken..])
          case None => None
          case Some(rest) => Some([c] + rest)
  }

  lemma DecodeEncoded(c: char, rest: seq<Byte>)
    ensures DecodeChar(EncodeChar(c) + rest) == Some((c, |EncodeChar(c)|))
  {
    var n := c as int;
    var bytes := EncodeChar(c) + rest;
    SixBitDigits(n);
    if n < 0x80 {
      assert bytes[0] == n;
    } else if n < 0x800 {
      assert bytes[0] == 0xC0 + n / 64 && bytes[1] == 0x80 + n % 64;
    } else if n < 0x1_0000 {
      assert bytes[0] == 0xE0 + n / 4096 && bytes[1] == 0x80 + n / 64 % 64 && bytes[2] == 0x80 + n % 64;
    } else {
      assert bytes[0] == 0xF0 + n / 262144 && bytes[1] == 0x80 + n / 4096 % 64;
      assert bytes[2] == 0x80 + n / 64 % 64 && bytes[3] == 0x80 + n % 64;
    }
  }

  lemma SixBitDigits(n: nat)
    ensures n == n / 64 * 64 + n % 64
    ensures n / 64 == n / 4096 * 64 + n / 64 % 64
    ensures n / 4096 == n / 262144 * 64 + n / 4096 % 64
    ensures n < 0x11_0000 ==> n / 262144 < 8
  {
  }

  /** Decoding takes encoding back. */
  lemma {:induction false} Utf8RoundTrip(s: string)
    ensures DecodeUtf8(Utf8(s)) == Some(s)
  {
    if s != "" {
      DecodeEncoded(s[0], Utf8(s[1..]));
      Utf8RoundTrip(s[1..]);
      assert Utf8(s)[|EncodeChar(s[0])|..] == Utf8(s[1..]);
      assert s == [s[0]] + s[1..];
    }
  }
}
