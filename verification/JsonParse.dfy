/** `cJSON_Parse`, and the proof that it undoes both printers. */
module JsonParse {
  import opened JsonText
  import opened JsonStrings

  // ---------------------------------------------------------------- strings

  /** The piece `print_string_ptr` writes for a character. */
  ghost function PieceOf(c: char): Piece {
    if c == '\"' || c == '\\' then Letter(c)
    else if c == 8 as char then Letter('b')
    else if c == 12 as char then Letter('f')
    else if c == '\n' then Letter('n')
    else if c == '\r' then Letter('r')
    else if c == '\t' then Letter('t')
    else if c < 32 as char then Code(c as int, {})
    else Plain(c)
  }

  lemma {:induction false} PieceOfIsGood(c: char, s: string)
    requires 0 < c as int < 256
    ensures GoodPiece(PieceOf(c)) && PieceThen(PieceOf(c), s) == EscapeChar(c) + s && Denoted(PieceOf(c)) == [c]
  {
    if PieceOf(c).Code? {
      ControlCode(c);
      CodeText(HexDigit(c as int / 16), HexDigit(c as int % 16), s);
    } else if PieceOf(c).Letter? {
      LetterOf(c);
    }
  }

  lemma {:induction false} LetterOf(c: char)
    requires PieceOf(c).Letter?
    ensures var l := PieceOf(c).c; GoodPiece(Letter(l)) && LetterCode(l) == c as int && EscapeChar(c) == ['\\', l]
  {
  }

  lemma {:induction false} CodeText(a: char, b: char, s: string)
    ensures CodeThen("00" + [a, b], s) == ("\\u00" + [a, b]) + s
  {
  }

  /** The four digits of a control character. */
  lemma {:induction false} ControlCode(c: char)
    requires c < 32 as char
    ensures Spelled(c as int, {}) == "00" + [HexDigit(c as int / 16), HexDigit(c as int % 16)]
  {
    DigitSpelled(0);
    DigitSpelled(c as int / 16);
    DigitSpelled(c as int % 16);
  }

  lemma {:induction false} DigitSpelled(d: nat)
    requires d < 16
    ensures Spelling(d, false) == HexDigit(d)
  {
  }

  ghost function PiecesOf(s: string): seq<Piece> {
    if s == "" then [] else [PieceOf(s[0])] + PiecesOf(s[1..])
  }

  /** An escaped string is a well-formed literal for the string. */
  lemma {:induction false} EscapeIsLiteral(s: string, rest: string)
    requires CString(s)
    ensures GoodPieces(PiecesOf(s)) && PiecesThen(PiecesOf(s), rest) == EscapeThen(s, rest)
            && DenotedAll(PiecesOf(s)) == s
  {
    if s != "" {
      EscapeIsLiteral(s[1..], rest);
      PieceOfIsGood(s[0], EscapeThen(s[1..], rest));
      assert PiecesOf(s)[1..] == PiecesOf(s[1..]);
    }
  }

  lemma {:induction false} StringRoundTrip(s: string, rest: string)
    requires CString(s)
    ensures ParseString(StringThen(s, rest)) == Ok(s, rest)
  {
    EscapeIsLiteral(s, ['\"'] + rest);
    LiteralIsRead(PiecesOf(s), rest);
    assert StringThen(s, rest)[1..] == EscapeThen(s, ['\"'] + rest);
  }

  // ---------------------------------------------------------------- numbers

  predicate IsDigit(c: char) { '0' <= c <= '9' }

  function DigitValue(c: char): nat
    requires IsDigit(c)
  {
    c as int - '0' as int
  }

  /** The digit loop of `parse_number`. */
  function ReadDigits(s: string, acc: nat): (r: (nat, string))
    ensures |r.1| <= |s| && (s != "" && IsDigit(s[0]) ==> |r.1| < |s|)
  {
    if s == "" || !IsDigit(s[0]) then (acc, s) else ReadDigits(s[1..], acc * 10 + DigitValue(s[0]))
  }

  /** The text does not go on as a number. */
  predicate NumberEnds(s: string) {
    s == "" || !(IsDigit(s[0]) || s[0] == '.' || s[0] == 'e' || s[0] == 'E')
  }

  /** `parse_number` on its integer path; a fraction or an exponent is outside this model. */
  function ParseNumber(s: string): (p: Parsed<Json>)
    requires s != "" && (s[0] == '-' || IsDigit(s[0]))
    ensures p.Ok? ==> |p.rest| < |s|
  {
    var unsigned := if s[0] == '-' then s[1..] else s;
    var body := if unsigned != "" && unsigned[0] == '0' then unsigned[1..] else unsigned;
    var (n, rest) := if body != "" && '1' <= body[0] <= '9' then ReadDigits(body, 0) else (0, body);
    if rest != "" && (rest[0] == 'e' || rest[0] == 'E' || (rest[0] == '.' && |rest| > 1 && IsDigit(rest[1]))) then Fail
    else Ok(Number(if s[0] == '-' then -(n as int) else n), rest)
  }

  ghost function Fold(a: string, acc: nat): nat
    requires forall i :: 0 <= i < |a| ==> IsDigit(a[i])
  {
    if a == "" then acc else Fold(a[1..], acc * 10 + DigitValue(a[0]))
  }

  lemma {:induction false} DigitsAreRead(a: string, rest: string, acc: nat)
    requires (forall i :: 0 <= i < |a| ==> IsDigit(a[i])) && (rest == "" || !IsDigit(rest[0]))
    ensures ReadDigits(a + rest, acc) == (Fold(a, acc), rest)
  {
    if a == "" {
      assert a + rest == rest;
    } else {
      assert (a + rest)[1..] == a[1..] + rest;
      DigitsAreRead(a[1..], rest, acc * 10 + DigitValue(a[0]));
    }
  }

  lemma {:induction false} FoldLast(a: string, c: char, acc: nat)
    requires IsDigit(c) && forall i :: 0 <= i < |a| ==> IsDigit(a[i])
    ensures Fold(a + [c], acc) == Fold(a, acc) * 10 + DigitValue(c)
  {
    if a == "" {
      assert a + [c] == [c];
    } else {
      assert (a + [c])[1..] == a[1..] + [c];
      FoldLast(a[1..], c, acc * 10 + DigitValue(a[0]));
    }
  }

  lemma {:induction false} DecimalDigits(n: nat)
    ensures |Decimal(n)| > 0 && (forall i :: 0 <= i < |Decimal(n)| ==> IsDigit(Decimal(n)[i]))
            && Fold(Decimal(n), 0) == n
    ensures n > 0 ==> '1' <= Decimal(n)[0] <= '9'
  {
    if n < 10 {
      assert Decimal(n)[1..] == "";
    } else {
      DecimalDigits(n / 10);
      FoldLast(Decimal(n / 10), Digit(n % 10), 0);
    }
  }

  lemma {:induction false} PositiveRead(m: nat, rest: string)
    requires NumberEnds(rest) && m > 0
    ensures Decimal(m) != "" && IsDigit(Decimal(m)[0]) && ParseNumber(Decimal(m) + rest) == Ok(Number(m), rest)
  {
    DecimalDigits(m);
    DigitsAreRead(Decimal(m), rest, 0);
  }

  lemma {:induction false} NegativeRead(m: nat, rest: string)
    requires NumberEnds(rest) && m > 0
    ensures ParseNumber("-" + Decimal(m) + rest) == Ok(Number(-(m as int)), rest)
  {
    DecimalDigits(m);
    DigitsAreRead(Decimal(m), rest, 0);
    assert ("-" + Decimal(m) + rest)[1..] == Decimal(m) + rest;
  }

  lemma {:induction false} NumberRoundTrip(n: int, rest: string)
    requires NumberEnds(rest)
    ensures PrintNumber(n) != "" && (PrintNumber(n)[0] == '-' || IsDigit(PrintNumber(n)[0]))
    ensures ParseNumber(PrintNumber(n) + rest) == Ok(Number(n), rest)
  {
    if n < 0 {
      NegativeRead(-n, rest);
    } else if n > 0 {
      PositiveRead(n, rest);
    } else {
      assert ("0" + rest)[1..] == rest;
    }
  }

  // ---------------------------------------------------------------- values

  /** `skip`: over white space and control characters. */
  function Skip(s: string): (r: string)
    ensures |r| <= |s|
  {
    if s != "" && 0 < s[0] as int <= 32 then Skip(s[1..]) else s
  }

  predicate Starts(s: string, c: char) { s != "" && s[0] == c }

  /** `parse_value`. */
  function ParseValue(s: string): (p: Parsed<Json>)
    ensures p.Ok? ==> |p.rest| < |s|
    decreases |s|, 0
  {
    if "null" <= s then Ok(Null, s[4..])
    else if "false" <= s then Ok(False, s[5..])
    else if "true" <= s then Ok(True, s[4..])
    else if s == "" then Fail
    else if s[0] == '\"' then
      var p := ParseString(s);
      if p.Fail? then Fail else Ok(String(p.value), p.rest)
    else if s[0] == '-' || IsDigit(s[0]) then ParseNumber(s)
    else if s[0] == '[' then
      var v := Skip(s[1..]);
      if Starts(v, ']') then Ok(Array([]), v[1..])
      else
        var p := ParseItems(v);
        if p.Fail? then Fail else Ok(Array(p.value), p.rest)
    else if s[0] == '{' then
      var v := Skip(s[1..]);
      if Starts(v, '}') then Ok(Object([]), v[1..])
      else
        var p := ParseMembers(v);
        if p.Fail? then Fail else Ok(Object(p.value), p.rest)
    else Fail
  }

  /** The elements of `parse_array` from here on, up to and including the closing bracket. */
  function ParseItems(s: string): (p: Parsed<seq<Json>>)
    ensures p.Ok? ==> |p.rest| < |s|
    decreases |s|, 1
  {
    var p := ParseValue(Skip(s));
    if p.Fail? then Fail else ItemsAfter(p.value, p.rest)
  }

  /** The loop of `parse_array` behind an element. */
  function ItemsAfter(item: Json, s: string): (p: Parsed<seq<Json>>)
    ensures p.Ok? ==> |p.rest| < |s|
    decreases |s|, 2
  {
    var v := Skip(s);
    if Starts(v, ',') then
      var q := ParseItems(v[1..]);
      if q.Fail? then Fail else Ok([item] + q.value, q.rest)
    else if Starts(v, ']') then Ok([item], v[1..])
    else Fail
  }

  /** The members of `parse_object` from here on, up to and including the closing brace. */
  function ParseMembers(s: string): (p: Parsed<seq<Member>>)
    ensures p.Ok? ==> |p.rest| < |s|
    decreases |s|, 1
  {
    var k := ParseString(Skip(s));
    if k.Fail? then Fail
    else
      var colon := Skip(k.rest);
      if !Starts(colon, ':') then Fail
      else
        var p := ParseValue(Skip(colon[1..]));
        if p.Fail? then Fail else MembersAfter(Member(k.value, p.value), p.rest)
  }

  /** The loop of `parse_object` behind a member. */
  function MembersAfter(m: Member, s: string): (p: Parsed<seq<Member>>)
    ensures p.Ok? ==> |p.rest| < |s|
    decreases |s|, 2
  {
    var v := Skip(s);
    if Starts(v, ',') then
      var q := ParseMembers(v[1..]);
      if q.Fail? then Fail else Ok([m] + q.value, q.rest)
    else if Starts(v, '}') then Ok([m], v[1..])
    else Fail
  }

  /** `cJSON_Parse`. */
  function Parse(text: string): Parsed<Json> {
    ParseValue(Skip(text))
  }

  // ---------------------------------------------------------------- parsing undoes printing

  // Steps of the parser on a text of which only the beginning is known.

  lemma {:induction false} BlankSkipped(fmt: bool, c: char, s: string)
    requires 0 < c as int <= 32
    ensures Skip(BlankThen(fmt, c, s)) == Skip(s)
  {
  }

  lemma {:induction false} TabsSkipped(n: int, s: string)
    ensures Skip(TabsThen(n, s)) == Skip(s)
  {
    if n > 0 {
      assert TabsThen(n, s)[1..] == TabsThen(n - 1, s);
      TabsSkipped(n - 1, s);
    }
  }

  lemma {:induction false} IndentSkipped(fmt: bool, n: int, s: string)
    ensures Skip(IndentThen(fmt, n, s)) == Skip(s)
  {
    TabsSkipped(n, s);
  }

  lemma {:induction false} SkipTwice(s: string)
    ensures Skip(Skip(s)) == Skip(s)
  {
    if s != "" && 0 < s[0] as int <= 32 { SkipTwice(s[1..]); }
  }

  /** Parsing elements or members does not depend on white space in front of them. */
  lemma {:induction false} SkippedFirst(s: string, t: string)
    requires Skip(s) == Skip(t)
    ensures ParseItems(s) == ParseItems(t) && ParseMembers(s) == ParseMembers(t)
  {
  }

  lemma {:induction false} ArrayParsed(s: string, items: seq<Json>, rest: string)
    requires !Starts(Skip(s), ']') && ParseItems(s) == Ok(items, rest)
    ensures ParseValue(['['] + s) == Ok(Array(items), rest)
  {
    var t := ['['] + s;
    assert t[0] == '[' && t[1..] == s;
  }

  lemma {:induction false} ObjectParsed(s: string, members: seq<Member>, rest: string)
    requires !Starts(Skip(s), '}') && ParseMembers(s) == Ok(members, rest)
    ensures ParseValue(['{'] + s) == Ok(Object(members), rest)
  {
    var t := ['{'] + s;
    assert t[0] == '{' && t[1..] == s;
  }

  lemma {:induction false} EmptyParsed(s: string, rest: string)
    ensures Skip(s) == [']'] + rest ==> ParseValue(['['] + s) == Ok(Array([]), rest)
    ensures Skip(s) == ['}'] + rest ==> ParseValue(['{'] + s) == Ok(Object([]), rest)
  {
    var t, u := ['['] + s, ['{'] + s;
    assert t[0] == '[' && t[1..] == s && u[0] == '{' && u[1..] == s;
    assert ([']'] + rest)[1..] == rest && (['}'] + rest)[1..] == rest;
  }

  lemma {:induction false} LastItem(item: Json, rest: string)
    ensures ItemsAfter(item, [']'] + rest) == Ok([item], rest)
  {
  }

  lemma {:induction false} NextItem(item: Json, s: string, items: seq<Json>, rest: string)
    requires ParseItems(s) == Ok(items, rest)
    ensures ItemsAfter(item, [','] + s) == Ok([item] + items, rest)
  {
  }

  lemma {:induction false} LastMember(m: Member, s: string, rest: string)
    requires Skip(s) == ['}'] + rest
    ensures MembersAfter(m, s) == Ok([m], rest)
  {
  }

  lemma {:induction false} NextMember(m: Member, s: string, members: seq<Member>, rest: string)
    requires ParseMembers(s) == Ok(members, rest)
    ensures MembersAfter(m, [','] + s) == Ok([m] + members, rest)
  {
  }

  lemma {:induction false} MemberParsed(s: string, m: Member, value: string, rest: string)
    requires ParseString(Skip(s)) == Ok(m.key, [':'] + value) && ParseValue(Skip(value)) == Ok(m.value, rest)
    ensures ParseMembers(s) == MembersAfter(m, rest)
  {
  }

  // The induction over trees.

  lemma {:induction false} WordRoundTrip(rest: string)
    ensures ParseValue("null" + rest) == Ok(Null, rest) && ParseValue("true" + rest) == Ok(True, rest)
    ensures ParseValue("false" + rest) == Ok(False, rest)
  {
    var f := "false" + rest;
    assert f[0] == 'f' && "false" <= f && f[5..] == rest;
    var t := "true" + rest;
    assert t[0] == 't' && "true" <= t && t[4..] == rest;
    var n := "null" + rest;
    assert "null" <= n && n[4..] == rest;
  }

  lemma {:induction false} NumberParsed(n: int, rest: string)
    requires NumberEnds(rest)
    ensures ParseValue(PrintNumber(n) + rest) == Ok(Number(n), rest)
  {
    NumberRoundTrip(n, rest);
    var s := PrintNumber(n) + rest;
    assert s[0] == PrintNumber(n)[0];
  }

  lemma {:induction false} StringParsed(s: string, rest: string)
    requires CString(s)
    ensures ParseValue(StringThen(s, rest)) == Ok(String(s), rest)
  {
    StringRoundTrip(s, rest);
    assert StringThen(s, rest)[0] == '\"';
  }

  /** A printed value does not start with anything that is skipped, nor with a closing bracket. */
  lemma {:induction false} ValueStart(t: Json, depth: nat, fmt: bool, rest: string)
    ensures var text := ValueThen(t, depth, fmt, rest); text != "" && Skip(text) == text && text[0] != ']'
  {
    if t.Number? { NumberRoundTrip(t.n, ""); }
  }

  /** Parsing the text of a value gives back the value and leaves what follows it. */
  lemma {:induction false} ValueRoundTrip(t: Json, depth: nat, fmt: bool, rest: string)
    requires WellFormed(t) && NumberEnds(rest)
    ensures ParseValue(ValueThen(t, depth, fmt, rest)) == Ok(t, rest)
    decreases t, 1
  {
    match t
    case Null => WordRoundTrip(rest);
    case False => WordRoundTrip(rest);
    case True => WordRoundTrip(rest);
    case Number(n) => NumberParsed(n, rest);
    case String(s) => StringParsed(s, rest);
    case Array(items) => ArrayRoundTrip(items, depth, fmt, rest);
    case Object(members) => ObjectRoundTrip(members, depth, fmt, rest);
  }

  lemma {:induction false} ArrayRoundTrip(items: seq<Json>, depth: nat, fmt: bool, rest: string)
    requires WellFormedItems(items)
    ensures ParseValue(ValueThen(Array(items), depth, fmt, rest)) == Ok(Array(items), rest)
    decreases items, 1
  {
    if items == [] {
      EmptyParsed([']'] + rest, rest);
    } else {
      var body := ItemsThen(items, depth + 1, fmt, [']'] + rest);
      ItemsRoundTrip(items, depth + 1, fmt, rest);
      ValueStart(items[0], depth + 1, fmt, ItemsTail(items[1..], depth + 1, fmt, [']'] + rest));
      ArrayParsed(body, items, rest);
    }
  }

  lemma {:induction false} ItemsRoundTrip(items: seq<Json>, depth: nat, fmt: bool, rest: string)
    requires items != [] && WellFormedItems(items)
    ensures ParseItems(ItemsThen(items, depth, fmt, [']'] + rest)) == Ok(items, rest)
    decreases items, 0
  {
    var t, others := items[0], items[1..];
    var tail := ItemsTail(others, depth, fmt, [']'] + rest);
    assert items == [t] + others;
    ValueStart(t, depth, fmt, tail);
    ValueRoundTrip(t, depth, fmt, tail);
    if others == [] {
      LastItem(t, rest);
      assert items == [t];
    } else {
      var more := ItemsThen(others, depth, fmt, [']'] + rest);
      ItemsRoundTrip(others, depth, fmt, rest);
      BlankSkipped(fmt, ' ', more);
      SkippedFirst(BlankThen(fmt, ' ', more), more);
      NextItem(t, BlankThen(fmt, ' ', more), others, rest);
    }
  }

  lemma {:induction false} ObjectRoundTrip(members: seq<Member>, depth: nat, fmt: bool, rest: string)
    requires WellFormedMembers(members)
    ensures ParseValue(ValueThen(Object(members), depth, fmt, rest)) == Ok(Object(members), rest)
    decreases members, 1
  {
    var close := ['}'] + rest;
    var body := BodyThen(members, depth, fmt, close);
    BlankSkipped(fmt, '\n', body);
    if members == [] {
      IndentSkipped(fmt, depth - 1, close);
      EmptyParsed(BlankThen(fmt, '\n', body), rest);
    } else {
      MembersRoundTrip(members, depth, fmt, rest);
      SkippedFirst(BlankThen(fmt, '\n', body), body);
      MemberStart(members[0], depth + 1, fmt, MembersTail(members[1..], depth + 1, fmt, IndentThen(fmt, depth, close)));
      ObjectParsed(BlankThen(fmt, '\n', body), members, rest);
    }
  }

  lemma {:induction false} MemberStart(m: Member, depth: nat, fmt: bool, rest: string)
    ensures Starts(Skip(MemberThen(m, depth, fmt, rest)), '\"')
  {
    IndentSkipped(fmt, depth, StringThen(m.key, [':'] + BlankThen(fmt, '\t', ValueThen(m.value, depth, fmt, rest))));
  }

  lemma {:induction false} MemberRoundTrip(m: Member, depth: nat, fmt: bool, rest: string)
    requires CString(m.key) && WellFormed(m.value) && NumberEnds(rest)
    ensures ParseMembers(MemberThen(m, depth, fmt, rest)) == MembersAfter(m, rest)
    decreases m, 0
  {
    var text := ValueThen(m.value, depth, fmt, rest);
    var value := BlankThen(fmt, '\t', text);
    var key := StringThen(m.key, [':'] + value);
    IndentSkipped(fmt, depth, key);
    assert Skip(key) == key;
    StringRoundTrip(m.key, [':'] + value);
    BlankSkipped(fmt, '\t', text);
    ValueStart(m.value, depth, fmt, rest);
    ValueRoundTrip(m.value, depth, fmt, rest);
    MemberParsed(MemberThen(m, depth, fmt, rest), m, value, rest);
  }

  lemma {:induction false} MembersRoundTrip(members: seq<Member>, depth: nat, fmt: bool, rest: string)
    requires members != [] && WellFormedMembers(members)
    ensures ParseMembers(MembersThen(members, depth + 1, fmt, IndentThen(fmt, depth, ['}'] + rest)))
            == Ok(members, rest)
    decreases members, 0
  {
    var m, others := members[0], members[1..];
    var close := IndentThen(fmt, depth, ['}'] + rest);
    var tail := MembersTail(others, depth + 1, fmt, close);
    assert members == [m] + others;
    TailEnds(others, depth, fmt, rest);
    MemberRoundTrip(m, depth + 1, fmt, tail);
    if others == [] {
      BlankSkipped(fmt, '\n', close);
      IndentSkipped(fmt, depth, ['}'] + rest);
      LastMember(m, tail, rest);
      assert members == [m];
    } else {
      var more := MembersThen(others, depth + 1, fmt, close);
      MembersRoundTrip(others, depth, fmt, rest);
      BlankSkipped(fmt, '\n', more);
      SkippedFirst(BlankThen(fmt, '\n', more), more);
      NextMember(m, BlankThen(fmt, '\n', more), others, rest);
    }
  }

  lemma {:induction false} TailEnds(others: seq<Member>, depth: nat, fmt: bool, rest: string)
    ensures NumberEnds(MembersTail(others, depth + 1, fmt, IndentThen(fmt, depth, ['}'] + rest)))
  {
  }

  /** Parsing undoes printing, in either layout. */
  lemma {:induction false} ParseUndoesPrint(t: Json, fmt: bool)
    requires WellFormed(t)
    ensures Parse(Print(t, fmt)) == Ok(t, "")
  {
    ValueStart(t, 0, fmt, "");
    ValueRoundTrip(t, 0, fmt, "");
  }
}
