/** String literals: the unescaping of `parse_string`, checked against section 7 of RFC 8259 and section 3 of RFC
    3629. */
module JsonStrings {
  import opened Bits
  import opened JsonText

  /** What a parsing function makes of the text at a pointer: nothing, or a value and the text left. */
  datatype Parsed<T> = Fail | Ok(value: T, rest: string)

  // ---------------------------------------------------------------- UTF-8

  /** Storing an unsigned value in a byte. */
  function Byte(n: nat): char { (n % 256) as char }

  /** The encoding of section 3 of RFC 3629. */
  function Utf8(cp: nat): (s: string)
    requires cp < 0x11_0000
    ensures |s| == if cp < 0x80 then 1 else if cp < 0x800 then 2 else if cp < 0x1_0000 then 3 else 4
  {
    if cp < 0x80 then [Byte(cp)]
    else if cp < 0x800 then [Byte(0xC0 + cp / 64), Byte(0x80 + cp % 64)]
    else if cp < 0x1_0000 then [Byte(0xE0 + cp / 4096), Byte(0x80 + cp / 64 % 64), Byte(0x80 + cp % 64)]
    else [Byte(0xF0 + cp / 262144), Byte(0x80 + cp / 4096 % 64), Byte(0x80 + cp / 64 % 64), Byte(0x80 + cp % 64)]
  }

  /** The byte the transcoder stores for the lowest six bits. */
  function Continuation(uc: nat): char { Byte(And(Or(uc, 0x80), 0xBF)) }

  /** The first byte the transcoder stores. */
  function Leading(uc: nat, mark: nat): char { Byte(Or(uc, mark)) }

  /** The transcoder of `parse_string`, with its cases falling through from the last byte to the first. */
  function Transcode(uc: nat): string {
    if uc < 0x80 then [Leading(uc, 0x00)]
    else if uc < 0x800 then [Leading(Rest(uc), 0xC0), Continuation(uc)]
    else if uc < 0x1_0000 then [Leading(Rest(Rest(uc)), 0xE0), Continuation(Rest(uc)), Continuation(uc)]
    else [Leading(Rest(Rest(Rest(uc))), 0xF0), Continuation(Rest(Rest(uc))), Continuation(Rest(uc)), Continuation(uc)]
  }

  function Rest(uc: nat): nat { ShiftRight(uc, 6) }

  lemma {:induction false} SetBit(uc: nat)
    ensures Or(uc, 0x80) == 64 * Or(uc / 64, 2) + uc % 64
  {
    ShiftBy6(uc / 64);
    ShiftBy6(2);
    ShiftBy6(Or(uc / 64, 2));
    OrSplits(uc / 64, uc % 64, 2, 0, 6);
    OrCommutes(uc % 64, 0);
  }

  lemma {:induction false} ClearBit(h: nat, l: nat)
    requires l < 64
    ensures And(64 * h + l, 0xBF) == 64 * And(h, 2) + l
  {
    ShiftBy6(h);
    ShiftBy6(2);
    ShiftBy6(And(h, 2));
    AndSplits(h, l, 2, 63, 6);
    SixLow(l);
  }

  lemma {:induction false} SixLow(l: nat)
    requires l < 64
    ensures And(l, 63) == l
  {
    assert Pow2(6) == 64 by { ShiftBy6(0); }
    MaskIsLow(l, 6);
    LowIsAll(l, 6);
  }

  lemma {:induction false} ContinuationBits(uc: nat)
    ensures And(Or(uc, 0x80), 0xBF) == 0x80 + uc % 64
  {
    SetBit(uc);
    ClearBit(Or(uc / 64, 2), uc % 64);
    OrTwo(uc / 64);
    AndTwo(Or(uc / 64, 2));
  }

  lemma {:induction false} RestIsQuotient(uc: nat)
    ensures Rest(uc) == uc / 64
  {
    ShiftBy6(ShiftRight(uc, 6));
    ShiftIsQuotient(uc, 6);
  }

  lemma {:induction false} Rests(uc: nat)
    ensures Rest(uc) == uc / 64 && Rest(Rest(uc)) == uc / 4096 && Rest(Rest(Rest(uc))) == uc / 262144
  {
    RestIsQuotient(uc);
    RestIsQuotient(uc / 64);
    RestIsQuotient(uc / 4096);
  }

  lemma {:induction false} LeadingByte(h: nat, mark: nat, k: nat)
    requires h < Pow2(k)
    ensures Or(h, ShiftLeft(mark, k)) == ShiftLeft(mark, k) + h
  {
    OrCommutes(h, ShiftLeft(mark, k));
    OrDisjoint(mark, h, k);
  }

  lemma {:induction false} Marked(h: nat)
    ensures Leading(h, 0x00) == Byte(h)
    ensures h < 32 ==> Leading(h, 0xC0) == Byte(0xC0 + h)
    ensures h < 16 ==> Leading(h, 0xE0) == Byte(0xE0 + h)
    ensures h < 8 ==> Leading(h, 0xF0) == Byte(0xF0 + h)
  {
    assert ShiftLeft(6, 5) == 0xC0 && ShiftLeft(14, 4) == 0xE0 && ShiftLeft(30, 3) == 0xF0;
    assert Pow2(5) == 32 && Pow2(4) == 16 && Pow2(3) == 8;
    OrCommutes(h, 0);
    if h < 32 { LeadingByte(h, 6, 5); }
    if h < 16 { LeadingByte(h, 14, 4); }
    if h < 8 { LeadingByte(h, 30, 3); }
  }

  lemma {:induction false} Continued(uc: nat)
    ensures Continuation(uc) == Byte(0x80 + uc % 64)
  {
    ContinuationBits(uc);
  }

  /** The bit manipulation is the standard's encoding. */
  lemma {:induction false} TranscodeIsUtf8(uc: nat)
    requires uc < 0x11_0000
    ensures Transcode(uc) == Utf8(uc)
  {
    Rests(uc);
    Continued(uc);
    Continued(uc / 64);
    Continued(uc / 4096);
    if uc < 0x80 { Marked(uc); }
    else if uc < 0x800 { Marked(uc / 64); }
    else if uc < 0x1_0000 { Marked(uc / 4096); }
    else { Marked(uc / 262144); }
  }

  // ---------------------------------------------------------------- escapes

  predicate IsHex(c: char) { '0' <= c <= '9' || 'A' <= c <= 'F' || 'a' <= c <= 'f' }

  function HexValue(c: char): (v: nat)
    requires IsHex(c)
    ensures v < 16
  {
    if c <= '9' then c as int - '0' as int
      else if c <= 'F' then 10 + c as int - 'A' as int else 10 + c as int - 'a' as int
  }

  /** `parse_hex4`: four hexadecimal digits, or 0. */
  function Hex4(s: string): (h: nat)
    requires |s| >= 4
    ensures h < 0x1_0000
  {
    if IsHex(s[0]) && IsHex(s[1]) && IsHex(s[2]) && IsHex(s[3]) then
      ((HexValue(s[0]) * 16 + HexValue(s[1])) * 16 + HexValue(s[2])) * 16 + HexValue(s[3])
    else 0
  }

  predicate High(uc: nat) { 0xD800 <= uc <= 0xDBFF }

  predicate Low10(uc: nat) { 0xDC00 <= uc <= 0xDFFF }

  /** The code point of a surrogate pair, as `parse_string` computes it. */
  function Combine(uc: nat, uc2: nat): nat {
    0x1_0000 + Or(ShiftLeft(And(uc, 0x3FF), 10), And(uc2, 0x3FF))
  }

  /** The code point of a surrogate pair by section 7 of RFC 8259. */
  ghost function PairCode(uc: nat, uc2: nat): (cp: nat)
    requires High(uc) && Low10(uc2)
    ensures cp < 0x11_0000
  {
    0x1_0000 + (uc - 0xD800) * 0x400 + (uc2 - 0xDC00)
  }

  lemma {:induction false} TenBits(x: nat)
    ensures Pow2(10) == 1024 && ShiftLeft(x, 10) == 1024 * x && And(x, 0x3FF) == x % 1024
  {
    ShiftBy10(x);
    AndMask(x, 10);
  }

  lemma {:induction false} TenLow(q: nat, r: nat)
    requires r < 1024
    ensures And(q * 1024 + r, 0x3FF) == r
  {
    TenBits(q * 1024 + r);
    DivMod(q * 1024 + r, q, 1024, r);
  }

  lemma {:induction false} CombineIsPair(uc: nat, uc2: nat)
    requires High(uc) && Low10(uc2)
    ensures Combine(uc, uc2) == PairCode(uc, uc2)
  {
    TenLow(54, uc - 0xD800);
    TenLow(55, uc2 - 0xDC00);
    Shifted(uc - 0xD800, uc2 - 0xDC00);
  }

  lemma {:induction false} Shifted(a: nat, b: nat)
    requires b < 1024
    ensures Or(ShiftLeft(a, 10), b) == a * 1024 + b
  {
    TenBits(a);
    OrDisjoint(a, b, 10);
  }

  /** The character a one-letter escape stands for. */
  function Unletter(c: char): char {
    if c == 'b' then 8 as char
    else if c == 'f' then 12 as char
    else if c == 'n' then '\n'
    else if c == 'r' then '\r'
    else if c == 't' then '\t'
    else c
  }

  function Prepend(a: string, p: Parsed<string>): Parsed<string> {
    if p.Fail? then p else Ok(a + p.value, p.rest)
  }

  /** The second pass of `parse_string` over the text behind the opening quote.  Where the source would read past the
      end of the text (a backslash or a \u escape cut short) the result is a failure. */
  function Unescape(s: string): (p: Parsed<string>)
    ensures p.Ok? ==> |p.rest| <= |s|
  {
    if s == "" then Ok("", "")
    else if s[0] == '\"' then Ok("", s[1..])
    else if s[0] != '\\' then Prepend([s[0]], Unescape(s[1..]))
    else if |s| == 1 then Fail
    else if s[1] != 'u' then Prepend([Unletter(s[1])], Unescape(s[2..]))
    else if |s| < 6 then Fail
    else
      var uc := Hex4(s[2..6]);
      if Low10(uc) || uc == 0 then Unescape(s[6..])
      else if !High(uc) then Prepend(Transcode(uc), Unescape(s[6..]))
      else if |s| < 8 || s[6] != '\\' || s[7] != 'u' then Unescape(s[6..])
      else if |s| < 12 then Fail
      else
        var uc2 := Hex4(s[8..12]);
        if !Low10(uc2) then Unescape(s[12..]) else Prepend(Transcode(Combine(uc, uc2)), Unescape(s[12..]))
  }

  /** `parse_string`. */
  function ParseString(s: string): (p: Parsed<string>)
    ensures p.Ok? ==> |p.rest| < |s|
  {
    if s == "" || s[0] != '\"' then Fail else Unescape(s[1..])
  }

  /** The first pass of `parse_string`: the length it allocates for. */
  function CountedLength(s: string): nat {
    if s == "" || s[0] == '\"' then 0
    else 1 + if s[0] != '\\' then CountedLength(s[1..]) else if |s| == 1 then 0 else CountedLength(s[2..])
  }

  // ---------------------------------------------------------------- reference: well-formed literals

  /** The hexadecimal digit of a number, with a capital letter or not. */
  ghost function Spelling(d: nat, capital: bool): char
    requires d < 16
  {
    if capital then "0123456789ABCDEF"[d] else "0123456789abcdef"[d]
  }

  /** The four hexadecimal digits of a number below 0x10000; `caps` are the positions of the digits that are
      capitals. */
  ghost function Spelled(n: nat, caps: set<nat>): string {
    [Spelling(n / 4096 % 16, 0 in caps), Spelling(n / 256 % 16, 1 in caps), Spelling(n / 16 % 16, 2 in caps),
     Spelling(n % 16, 3 in caps)]
  }

  /** The pieces of a string literal by section 7 of RFC 8259: a character, a one-letter escape, the escape of a code
      point, or those of a surrogate pair. */
  datatype Piece =
    | Plain(c: char)
    | Letter(c: char)
    | Code(n: nat, caps: set<nat>)
    | Pair(n: nat, caps: set<nat>, low: nat, lowCaps: set<nat>)

  ghost predicate GoodPiece(p: Piece) {
    match p
    case Plain(c) => c != '\"' && c != '\\'
    case Letter(c) => c in "\"\\/bfnrt"
    case Code(n, caps) => 0 < n < 0x1_0000 && !High(n) && !Low10(n)
    case Pair(n, caps, low, lowCaps) => High(n) && Low10(low)
  }

  /** The text of a piece in front of `s`. */
  ghost function PieceThen(p: Piece, s: string): string {
    match p
    case Plain(c) => [c] + s
    case Letter(c) => ['\\', c] + s
    case Code(n, caps) => CodeThen(Spelled(n, caps), s)
    case Pair(n, caps, low, lowCaps) => CodeThen(Spelled(n, caps), CodeThen(Spelled(low, lowCaps), s))
  }

  ghost function CodeThen(h: string, s: string): string { ['\\', 'u'] + (h + s) }

  /** The code of the character a one-letter escape stands for: quote, reverse solidus, solidus, backspace, form feed,
      line feed, carriage return and tab. */
  ghost function LetterCode(c: char): nat {
    if c == '\"' then 0x22 else if c == '\\' then 0x5C else if c == '/' then 0x2F else if c == 'b' then 0x08
    else if c == 'f' then 0x0C else if c == 'n' then 0x0A else if c == 'r' then 0x0D else 0x09
  }

  /** What a piece denotes: a character, or the encoding of a code point. */
  ghost function Denoted(p: Piece): (d: string)
    ensures |d| <= if p.Code? then 3 else if p.Pair? then 4 else 1
  {
    if !GoodPiece(p) then ""
    else
    match p
    case Plain(c) => [c]
    case Letter(c) => [LetterCode(c) as char]
    case Code(n, caps) => Utf8(n)
    case Pair(n, caps, low, lowCaps) => Utf8(PairCode(n, low))
  }

  ghost predicate GoodPieces(ps: seq<Piece>) { forall i :: 0 <= i < |ps| ==> GoodPiece(ps[i]) }

  ghost function PiecesThen(ps: seq<Piece>, s: string): string {
    if ps == [] then s else PieceThen(ps[0], PiecesThen(ps[1..], s))
  }

  /** A string literal in front of a text. */
  ghost function LiteralThen(ps: seq<Piece>, rest: string): string { "\"" + PiecesThen(ps, "\"" + rest) }

  ghost function DenotedAll(ps: seq<Piece>): string {
    if ps == [] then "" else Denoted(ps[0]) + DenotedAll(ps[1..])
  }

  lemma {:induction false} SpellingRead(d: nat, capital: bool)
    requires d < 16
    ensures var c := Spelling(d, capital); IsHex(c) && HexValue(c) == d
  {
  }

  lemma {:induction false} DigitsOf(n: nat)
    requires n < 0x1_0000
    ensures ((n / 4096 % 16 * 16 + n / 256 % 16) * 16 + n / 16 % 16) * 16 + n % 16 == n
  {
  }

  /** `parse_hex4` reads every spelling of a number. */
  lemma {:induction false} SpelledIsRead(n: nat, caps: set<nat>)
    requires n < 0x1_0000
    ensures Hex4(Spelled(n, caps)) == n && forall i :: 0 <= i < 4 ==> IsHex(Spelled(n, caps)[i])
  {
    DigitsOf(n);
    SpellingRead(n / 4096 % 16, 0 in caps);
    SpellingRead(n / 256 % 16, 1 in caps);
    SpellingRead(n / 16 % 16, 2 in caps);
    SpellingRead(n % 16, 3 in caps);
  }

  lemma {:induction false} CodeSlices(h: string, s: string)
    requires |h| == 4
    ensures var t := CodeThen(h, s);
            |t| >= 6 && t[0] == '\\' && t[1] == 'u' && t[2..6] == h && t[6..] == s && t[2..] == h + s
  {
  }

  lemma {:induction false} CodeIsRead(h: string, s: string)
    requires |h| == 4 && Hex4(h) != 0 && !High(Hex4(h)) && !Low10(Hex4(h))
    ensures Unescape(CodeThen(h, s)) == Prepend(Utf8(Hex4(h)), Unescape(s))
  {
    CodeSlices(h, s);
    TranscodeIsUtf8(Hex4(h));
  }

  lemma {:induction false} PairIsRead(h: string, l: string, s: string, cp: nat)
    requires |h| == 4 && |l| == 4 && High(Hex4(h)) && Low10(Hex4(l)) && Combine(Hex4(h), Hex4(l)) == cp < 0x11_0000
    ensures Unescape(CodeThen(h, CodeThen(l, s))) == Prepend(Utf8(cp), Unescape(s))
  {
    TranscodeIsUtf8(cp);
    var t, u := CodeThen(h, CodeThen(l, s)), CodeThen(l, s);
    CodeSlices(h, u);
    CodeSlices(l, s);
    assert t[6] == u[0] && t[7] == u[1] && t[8..12] == u[2..6] && t[12..] == u[6..];
  }

  /** One piece is read as what it denotes. */
  lemma {:induction false} PieceIsRead(p: Piece, s: string)
    requires GoodPiece(p)
    ensures Unescape(PieceThen(p, s)) == Prepend(Denoted(p), Unescape(s))
  {
    match p
    case Plain(c) => PlainIsRead(c, s);
    case Letter(c) => LetterIsRead(c, s);
    case Code(n, caps) =>
      SpelledIsRead(n, caps);
      CodeIsRead(Spelled(n, caps), s);
    case Pair(n, caps, low, lowCaps) =>
      SpelledIsRead(n, caps);
      SpelledIsRead(low, lowCaps);
      CombineIsPair(n, low);
      PairIsRead(Spelled(n, caps), Spelled(low, lowCaps), s, PairCode(n, low));
  }

  lemma {:induction false} PlainIsRead(c: char, s: string)
    requires c != '\"' && c != '\\'
    ensures Unescape([c] + s) == Prepend([c], Unescape(s))
  {
  }

  lemma {:induction false} LetterIsRead(c: char, s: string)
    requires c in "\"\\/bfnrt"
    ensures Unescape(['\\', c] + s) == Prepend([LetterCode(c) as char], Unescape(s))
  {
    var t := ['\\', c] + s;
    assert t[1] == c && t[2..] == s;
    LetterMeans(c);
  }

  lemma {:induction false} LetterMeans(c: char)
    requires c in "\"\\/bfnrt"
    ensures c != 'u' && Unletter(c) == LetterCode(c) as char
  {
  }

  /** A well-formed literal is read as the characters it denotes, whatever follows its closing quote. */
  lemma {:induction false} LiteralIsRead(ps: seq<Piece>, rest: string)
    requires GoodPieces(ps)
    ensures Unescape(PiecesThen(ps, "\"" + rest)) == Ok(DenotedAll(ps), rest)
  {
    if ps == [] {
      assert ("\"" + rest)[1..] == rest;
    } else {
      LiteralIsRead(ps[1..], rest);
      PieceIsRead(ps[0], PiecesThen(ps[1..], "\"" + rest));
    }
  }

  lemma {:induction false} LiteralParsed(ps: seq<Piece>, rest: string)
    requires GoodPieces(ps)
    ensures ParseString(LiteralThen(ps, rest)) == Ok(DenotedAll(ps), rest)
  {
    assert LiteralThen(ps, rest)[1..] == PiecesThen(ps, "\"" + rest);
    LiteralIsRead(ps, rest);
  }

  /** What is written for a literal fits into what was counted for it. */
  lemma {:induction false} LiteralFits(ps: seq<Piece>, rest: string)
    requires GoodPieces(ps)
    ensures |DenotedAll(ps)| <= CountedLength(PiecesThen(ps, "\"" + rest))
  {
    if ps != [] {
      LiteralFits(ps[1..], rest);
      PieceFits(ps[0], PiecesThen(ps[1..], "\"" + rest));
    }
  }

  lemma {:induction false} CodeCounted(h: string, s: string)
    requires |h| == 4 && forall i :: 0 <= i < 4 ==> IsHex(h[i])
    ensures CountedLength(CodeThen(h, s)) == 5 + CountedLength(s)
  {
    CodeSlices(h, s);
    DigitsCounted(h, s);
  }

  lemma {:induction false} PieceFits(p: Piece, s: string)
    requires GoodPiece(p)
    ensures |Denoted(p)| + CountedLength(s) <= CountedLength(PieceThen(p, s))
  {
    match p
    case Plain(c) => assert ([c] + s)[1..] == s;
    case Letter(c) => assert (['\\', c] + s)[2..] == s;
    case Code(n, caps) =>
      SpelledIsRead(n, caps);
      CodeCounted(Spelled(n, caps), s);
    case Pair(n, caps, low, lowCaps) =>
      SpelledIsRead(n, caps);
      SpelledIsRead(low, lowCaps);
      CodeCounted(Spelled(n, caps), CodeThen(Spelled(low, lowCaps), s));
      CodeCounted(Spelled(low, lowCaps), s);
  }

  lemma {:induction false} DigitsCounted(h: string, s: string)
    requires forall i :: 0 <= i < |h| ==> IsHex(h[i])
    ensures CountedLength(h + s) == |h| + CountedLength(s)
  {
    if h == "" {
      assert h + s == s;
    } else {
      assert (h + s)[1..] == h[1..] + s;
      DigitsCounted(h[1..], s);
    }
  }
}
