/** The parser as it runs, advancing an index through the text; each method is proved against its function on the text
    from that index on. */
module JsonReader {
  import opened JsonText
  import opened JsonStrings
  import opened JsonParse

  /** A method's results agree with what a parsing function gives. */
  ghost predicate Agrees<T>(p: Parsed<T>, text: string, ok: bool, value: T, j: nat) {
    if p.Fail? then !ok else ok && value == p.value && j <= |text| && text[j..] == p.rest
  }

  /** `skip`. */
  method SkipFrom(text: string, i: nat) returns (j: nat)
    requires i <= |text|
    ensures i <= j <= |text| && text[j..] == Skip(text[i..])
  {
    j := i;
    while j < |text| && 0 < text[j] as int <= 32
      invariant i <= j <= |text| && Skip(text[j..]) == Skip(text[i..])
    {
      assert text[j..][1..] == text[j + 1..];
      j := j + 1;
    }
  }

  /** The first loop of `parse_string`. */
  method CountFrom(text: string, i: nat) returns (len: nat)
    requires i <= |text|
    ensures len == CountedLength(text[i..])
  {
    len := 0;
    var ptr := i;
    while ptr < |text| && text[ptr] != '\"'
      invariant i <= ptr <= |text| && len + CountedLength(text[ptr..]) == CountedLength(text[i..])
      decreases |text| - ptr
    {
      ghost var rest := text[ptr..];
      assert rest[1..] == text[ptr + 1..] && (ptr + 1 < |text| ==> rest[2..] == text[ptr + 2..]);
      len := len + 1;
      ptr := if text[ptr] == '\\' && ptr + 1 < |text| then ptr + 2 else ptr + 1;
    }
  }

  /** One character or escape of the second loop of `parse_string`, and the bytes it stores. */
  method ReadChar(text: string, ptr: nat) returns (ok: bool, bytes: string, ptr': nat)
    requires ptr < |text| && text[ptr] != '\"'
    ensures ok ==> ptr < ptr' <= |text| && Unescape(text[ptr..]) == Prepend(bytes, Unescape(text[ptr'..]))
    ensures !ok ==> Unescape(text[ptr..]).Fail?
  {
    ghost var rest := text[ptr..];
    ok, bytes, ptr' := true, "", ptr + 1;
    if text[ptr] != '\\' {
      bytes := [text[ptr]];
      assert rest[1..] == text[ptr + 1..];
    } else if ptr + 1 == |text| {
      ok := false;
    } else if text[ptr + 1] != 'u' {
      bytes := [Unletter(text[ptr + 1])];
      ptr' := ptr + 2;
      assert rest[2..] == text[ptr + 2..];
    } else {
      ok, bytes, ptr' := ReadCode(text, ptr);
    }
  }

  /** A \u escape, with the second half of a surrogate pair if there is one. */
  method ReadCode(text: string, ptr: nat) returns (ok: bool, bytes: string, ptr': nat)
    requires ptr + 1 < |text| && text[ptr] == '\\' && text[ptr + 1] == 'u'
    ensures ok ==> ptr < ptr' <= |text| && Unescape(text[ptr..]) == Prepend(bytes, Unescape(text[ptr'..]))
    ensures !ok ==> Unescape(text[ptr..]).Fail?
  {
    ghost var rest := text[ptr..];
    ok, bytes, ptr' := true, "", ptr + 6;
    if |text| < ptr + 6 {
      return false, "", ptr;
    }
    NothingPrepended(Unescape(text[ptr + 6..]));
    var uc := Hex4(text[ptr + 2..ptr + 6]);
    assert rest[2..6] == text[ptr + 2..ptr + 6] && rest[6..] == text[ptr + 6..];
    if High(uc) {
      if ptr + 7 < |text| && text[ptr + 6] == '\\' && text[ptr + 7] == 'u' {
        if |text| < ptr + 12 {
          return false, "", ptr;
        }
        NothingPrepended(Unescape(text[ptr + 12..]));
        var uc2 := Hex4(text[ptr + 8..ptr + 12]);
        assert rest[8..12] == text[ptr + 8..ptr + 12] && rest[12..] == text[ptr + 12..];
        ptr' := ptr + 12;
        if Low10(uc2) {
          bytes := Transcode(Combine(uc, uc2));
        }
      }
    } else if !Low10(uc) && uc != 0 {
      bytes := Transcode(uc);
    }
  }

  lemma {:induction false} NothingPrepended(p: Parsed<string>)
    ensures Prepend("", p) == p
  {
    if p.Ok? { assert "" + p.value == p.value; }
  }

  lemma {:induction false} PrependTwice(a: string, b: string, p: Parsed<string>)
    ensures Prepend(a, Prepend(b, p)) == Prepend(a + b, p)
  {
    if p.Ok? { assert a + (b + p.value) == (a + b) + p.value; }
  }

  lemma {:induction false} LiteralCounted(ps: seq<Piece>, rest: string)
    requires GoodPieces(ps)
    ensures var s := LiteralThen(ps, rest);
            ParseString(s) == Ok(DenotedAll(ps), rest) && |DenotedAll(ps)| <= CountedLength(s[1..])
  {
    assert LiteralThen(ps, rest)[1..] == PiecesThen(ps, "\"" + rest);
    LiteralParsed(ps, rest);
    LiteralFits(ps, rest);
  }

  /** `parse_string`, with the size it allocates before it decodes; on a well-formed literal the value and a terminator
      fit. */
  method ReadString(text: string, i: nat) returns (ok: bool, value: string, j: nat, size: nat)
    requires i <= |text|
    ensures Agrees(ParseString(text[i..]), text, ok, value, j) && (ok ==> i < j)
    ensures forall ps, rest :: GoodPieces(ps) && text[i..] == LiteralThen(ps, rest)
              ==> ok && value == DenotedAll(ps) && |value| < size
  {
    ok, value, j, size := false, "", i, 0;
    forall ps, rest | GoodPieces(ps) && text[i..] == LiteralThen(ps, rest)
      ensures ParseString(text[i..]) == Ok(DenotedAll(ps), rest) && |DenotedAll(ps)| <= CountedLength(text[i..][1..])
    {
      LiteralCounted(ps, rest);
    }
    if i == |text| || text[i] != '\"' {
      return;
    }
    ghost var body := Unescape(text[i + 1..]);
    assert text[i..][1..] == text[i + 1..];
    size := CountFrom(text, i + 1);
    size := size + 1;
    NothingPrepended(body);
    j := i + 1;
    while j < |text| && text[j] != '\"'
      invariant i < j <= |text| && Prepend(value, Unescape(text[j..])) == body
      decreases |text| - j
    {
      var good, bytes, next := ReadChar(text, j);
      if !good {
        return;
      }
      PrependTwice(value, bytes, Unescape(text[next..]));
      value := value + bytes;
      j := next;
    }
    ok := true;
    assert value + "" == value;
    if j < |text| {
      assert text[j..][1..] == text[j + 1..];
      j := j + 1;
    }
  }

  /** `parse_number` on its integer path. */
  method ReadNumber(text: string, i: nat) returns (ok: bool, value: Json, j: nat)
    requires i < |text| && (text[i] == '-' || IsDigit(text[i]))
    ensures Agrees(ParseNumber(text[i..]), text, ok, value, j) && (ok ==> i < j)
  {
    j := i;
    var negative := text[i] == '-';
    if negative {
      assert text[i..][1..] == text[i + 1..];
      j := j + 1;
    }
    ghost var unsigned := text[j..];
    if j < |text| && text[j] == '0' {
      assert unsigned[1..] == text[j + 1..];
      j := j + 1;
    }
    ghost var body := text[j..];
    var n: nat := 0;
    if j < |text| && '1' <= text[j] <= '9' {
      n, j := ReadDigitsFrom(text, j);
    }
    ok := !(j < |text| && (text[j] == 'e' || text[j] == 'E'
      || (text[j] == '.' && j + 1 < |text| && IsDigit(text[j + 1]))));
    value := Number(if negative then -(n as int) else n);
  }

  /** The digit loop of `parse_number`. */
  method ReadDigitsFrom(text: string, i: nat) returns (n: nat, j: nat)
    requires i < |text| && IsDigit(text[i])
    ensures i < j <= |text| && ReadDigits(text[i..], 0) == (n, text[j..])
  {
    n, j := 0, i;
    while j < |text| && IsDigit(text[j])
      invariant i <= j <= |text| && (j == i ==> IsDigit(text[i]))
                && ReadDigits(text[j..], n) == ReadDigits(text[i..], 0)
    {
      assert text[j..][1..] == text[j + 1..];
      n := n * 10 + DigitValue(text[j]);
      j := j + 1;
    }
  }

  /** `strncmp` of the text at `i` with a word. */
  method StartsWith(text: string, i: nat, word: string) returns (yes: bool)
    requires i <= |text|
    ensures yes == (word <= text[i..]) && (yes ==> i + |word| <= |text| && text[i + |word|..] == text[i..][|word|..])
  {
    yes := i + |word| <= |text| && text[i..i + |word|] == word;
    if i + |word| <= |text| {
      assert text[i..][..|word|] == text[i..i + |word|];
      assert text[i..] == text[i..][..|word|] + text[i..][|word|..];
    }
  }

  /** `parse_value`. */
  method ReadValue(text: string, i: nat) returns (ok: bool, value: Json, j: nat)
    requires i <= |text|
    ensures Agrees(ParseValue(text[i..]), text, ok, value, j) && (ok ==> i < j)
    decreases |text| - i, 1
  {
    ok, value, j := false, Null, i;
    var yes := StartsWith(text, i, "null");
    if yes {
      return true, Null, i + 4;
    }
    yes := StartsWith(text, i, "false");
    if yes {
      return true, False, i + 5;
    }
    yes := StartsWith(text, i, "true");
    if yes {
      return true, True, i + 4;
    }
    if i == |text| {
      return;
    }
    if text[i] == '\"' {
      var s, size;
      ok, s, j, size := ReadString(text, i);
      value := String(s);
    } else if text[i] == '-' || IsDigit(text[i]) {
      ok, value, j := ReadNumber(text, i);
    } else if text[i] == '[' {
      ok, value, j := ReadArray(text, i);
    } else if text[i] == '{' {
      ok, value, j := ReadObject(text, i);
    }
  }

  // ---------------------------------------------------------------- arrays

  ghost function Extend<T>(a: seq<T>, p: Parsed<seq<T>>): Parsed<seq<T>> {
    if p.Fail? then p else Ok(a + p.value, p.rest)
  }

  lemma {:induction false} ExtendTwice<T>(a: seq<T>, x: T, p: Parsed<seq<T>>)
    ensures Extend(a, Extend([x], p)) == Extend(a + [x], p)
  {
    if p.Ok? { assert a + ([x] + p.value) == (a + [x]) + p.value; }
  }

  lemma {:induction false} ExtendNothing<T>(p: Parsed<seq<T>>)
    ensures Extend([], p) == p
  {
    if p.Ok? { assert [] + p.value == p.value; }
  }

  /** An element of `parse_array` with the white space around it. */
  method ReadItem(text: string, i: nat) returns (ok: bool, item: Json, j: nat)
    requires i <= |text|
    ensures ok ==>
              i < j <= |text| && Skip(text[j..]) == text[j..] && ParseItems(text[i..]) == ItemsAfter(item, text[j..])
    ensures !ok ==> ParseItems(text[i..]).Fail?
    decreases |text| - i, 2
  {
    j := SkipFrom(text, i);
    ok, item, j := ReadValue(text, j);
    if ok {
      SkipTwice(text[j..]);
      j := SkipFrom(text, j);
    }
  }

  /** `parse_array`. */
  method ReadArray(text: string, i: nat) returns (ok: bool, value: Json, j: nat)
    requires i < |text| && text[i] == '['
    ensures Agrees(ParseValue(text[i..]), text, ok, value, j) && (ok ==> i < j)
    decreases |text| - i, 0
  {
    ghost var rest := text[i..];
    assert rest[0] == '[' && rest[1..] == text[i + 1..];
    j := SkipFrom(text, i + 1);
    if j < |text| && text[j] == ']' {
      assert text[j..][1..] == text[j + 1..];
      return true, Array([]), j + 1;
    }
    var items;
    ok, items, j := ReadItems(text, j);
    value := Array(items);
  }

  /** Elements read so far, and what is left of the whole. */
  ghost predicate ItemsLeft(text: string, items: seq<Json>, item: Json, j: nat, whole: Parsed<seq<Json>>)
    requires j <= |text|
  {
    Skip(text[j..]) == text[j..] && Extend(items, ItemsAfter(item, text[j..])) == whole
  }

  lemma {:induction false} ItemsStep(item: Json, s: string)
    requires Skip(s) == s
    ensures ItemsAfter(item, s) ==
            if Starts(s, ',') then Extend([item], ParseItems(s[1..]))
              else if Starts(s, ']') then Ok([item], s[1..]) else Fail
  {
  }

  /** One turn of the loop, at a comma. */
  method NextItem(text: string, items: seq<Json>, item: Json, j: nat, ghost whole: Parsed<seq<Json>>)
    returns (ok: bool, items': seq<Json>, item': Json, j': nat)
    requires j < |text| && text[j] == ',' && ItemsLeft(text, items, item, j, whole)
    ensures ok ==> j < j' <= |text| && ItemsLeft(text, items', item', j', whole)
    ensures !ok ==> whole.Fail?
    decreases |text| - j, 1
  {
    assert text[j..][1..] == text[j + 1..];
    ItemsStep(item, text[j..]);
    ExtendTwice(items, item, ParseItems(text[j + 1..]));
    ok, item', j' := ReadItem(text, j + 1);
    items' := items + [item];
  }

  /** The end of the loop. */
  method EndItems(text: string, items: seq<Json>, item: Json, j: nat, ghost whole: Parsed<seq<Json>>)
    returns (ok: bool, items': seq<Json>, j': nat)
    requires j <= |text| && !Starts(text[j..], ',') && ItemsLeft(text, items, item, j, whole)
    ensures Agrees(whole, text, ok, items', j') && j <= j'
  {
    ItemsStep(item, text[j..]);
    ok := j < |text| && text[j] == ']';
    items', j' := items + [item], j;
    if ok {
      assert text[j..][1..] == text[j + 1..];
      j' := j + 1;
    }
  }

  /** The elements, up to and including the closing bracket. */
  method ReadItems(text: string, i: nat) returns (ok: bool, items: seq<Json>, j: nat)
    requires i <= |text|
    ensures Agrees(ParseItems(text[i..]), text, ok, items, j) && (ok ==> i < j)
    decreases |text| - i, 3
  {
    ghost var whole := ParseItems(text[i..]);
    var item;
    items := [];
    ok, item, j := ReadItem(text, i);
    if ok {
      ExtendNothing(ItemsAfter(item, text[j..]));
    }
    while ok && j < |text| && text[j] == ','
      invariant ok ==> i < j <= |text| && ItemsLeft(text, items, item, j, whole)
      invariant !ok ==> whole.Fail?
      decreases ok, |text| - j
    {
      ok, items, item, j := NextItem(text, items, item, j, whole);
    }
    if ok {
      ok, items, j := EndItems(text, items, item, j, whole);
    }
  }

  // ---------------------------------------------------------------- objects

  /** What `parse_object` makes of the text behind a key and its colon. */
  ghost function MemberFrom(key: string, s: string): Parsed<seq<Member>> {
    var p := ParseValue(Skip(s));
    if p.Fail? then Fail else MembersAfter(Member(key, p.value), p.rest)
  }

  lemma {:induction false} KeyAndColon(s: string, k: Parsed<string>, colon: string)
    requires k == ParseString(Skip(s))
    requires k.Ok? ==> colon == Skip(k.rest)
    ensures k.Fail? || !Starts(colon, ':') ==> ParseMembers(s).Fail?
    ensures k.Ok? && Starts(colon, ':') ==> ParseMembers(s) == MemberFrom(k.value, colon[1..])
  {
  }

  /** A key of `parse_object` and the white space around it. */
  method ReadKeyText(text: string, i: nat) returns (ok: bool, key: string, j: nat)
    requires i <= |text|
    ensures var k := ParseString(Skip(text[i..]));
            if k.Fail? then !ok else ok && key == k.value && i < j <= |text| && text[j..] == Skip(k.rest)
  {
    var size;
    j := SkipFrom(text, i);
    ok, key, j, size := ReadString(text, j);
    if ok {
      j := SkipFrom(text, j);
    }
  }

  /** A key of `parse_object` up to and including its colon. */
  method ReadKey(text: string, i: nat) returns (ok: bool, key: string, j: nat)
    requires i <= |text|
    ensures ok ==> i < j <= |text| && ParseMembers(text[i..]) == MemberFrom(key, text[j..])
    ensures !ok ==> ParseMembers(text[i..]).Fail?
  {
    ok, key, j := ReadKeyText(text, i);
    KeyAndColon(text[i..], ParseString(Skip(text[i..])), if ok then text[j..] else "");
    if ok {
      ok := j < |text| && text[j] == ':';
      if ok {
        assert text[j..][1..] == text[j + 1..];
        j := j + 1;
      }
    }
  }

  /** A member of `parse_object` with the white space around its parts. */
  method ReadMember(text: string, i: nat) returns (ok: bool, member: Member, j: nat)
    requires i <= |text|
    ensures ok ==>
              i < j <= |text| && Skip(text[j..]) == text[j..]
              && ParseMembers(text[i..]) == MembersAfter(member, text[j..])
    ensures !ok ==> ParseMembers(text[i..]).Fail?
    decreases |text| - i, 2
  {
    var key, value;
    member := Member("", Null);
    ok, key, j := ReadKey(text, i);
    if !ok {
      return;
    }
    j := SkipFrom(text, j);
    ok, value, j := ReadValue(text, j);
    member := Member(key, value);
    if ok {
      AfterSkips(member, text[j..]);
      j := SkipFrom(text, j);
    }
  }

  lemma {:induction false} AfterSkips(m: Member, s: string)
    ensures MembersAfter(m, Skip(s)) == MembersAfter(m, s) && Skip(Skip(s)) == Skip(s)
  {
    SkipTwice(s);
  }

  lemma {:induction false} MembersStep(m: Member, s: string)
    requires Skip(s) == s
    ensures MembersAfter(m, s) ==
            if Starts(s, ',') then Extend([m], ParseMembers(s[1..]))
              else if Starts(s, '}') then Ok([m], s[1..]) else Fail
  {
  }

  /** `parse_object`. */
  method ReadObject(text: string, i: nat) returns (ok: bool, value: Json, j: nat)
    requires i < |text| && text[i] == '{'
    ensures Agrees(ParseValue(text[i..]), text, ok, value, j) && (ok ==> i < j)
    decreases |text| - i, 0
  {
    ghost var rest := text[i..];
    assert rest[0] == '{' && rest[1..] == text[i + 1..];
    j := SkipFrom(text, i + 1);
    if j < |text| && text[j] == '}' {
      assert text[j..][1..] == text[j + 1..];
      return true, Object([]), j + 1;
    }
    var members;
    ok, members, j := ReadMembers(text, j);
    value := Object(members);
  }

  /** Members read so far, and what is left of the whole. */
  ghost predicate MembersLeft(text: string, members: seq<Member>, member: Member, j: nat, whole: Parsed<seq<Member>>)
    requires j <= |text|
  {
    Skip(text[j..]) == text[j..] && Extend(members, MembersAfter(member, text[j..])) == whole
  }

  /** One turn of the loop, at a comma. */
  method NextMember(text: string, members: seq<Member>, member: Member, j: nat, ghost whole: Parsed<seq<Member>>)
    returns (ok: bool, members': seq<Member>, member': Member, j': nat)
    requires j < |text| && text[j] == ',' && MembersLeft(text, members, member, j, whole)
    ensures ok ==> j < j' <= |text| && MembersLeft(text, members', member', j', whole)
    ensures !ok ==> whole.Fail?
    decreases |text| - j, 1
  {
    assert text[j..][1..] == text[j + 1..];
    MembersStep(member, text[j..]);
    ExtendTwice(members, member, ParseMembers(text[j + 1..]));
    ok, member', j' := ReadMember(text, j + 1);
    members' := members + [member];
  }

  /** The end of the loop. */
  method EndMembers(text: string, members: seq<Member>, member: Member, j: nat, ghost whole: Parsed<seq<Member>>)
    returns (ok: bool, members': seq<Member>, j': nat)
    requires j <= |text| && !Starts(text[j..], ',') && MembersLeft(text, members, member, j, whole)
    ensures Agrees(whole, text, ok, members', j') && j <= j'
  {
    MembersStep(member, text[j..]);
    ok := j < |text| && text[j] == '}';
    members', j' := members + [member], j;
    if ok {
      assert text[j..][1..] == text[j + 1..];
      j' := j + 1;
    }
  }

  /** The members, up to and including the closing brace. */
  method ReadMembers(text: string, i: nat) returns (ok: bool, members: seq<Member>, j: nat)
    requires i <= |text|
    ensures Agrees(ParseMembers(text[i..]), text, ok, members, j) && (ok ==> i < j)
    decreases |text| - i, 3
  {
    ghost var whole := ParseMembers(text[i..]);
    var member;
    members := [];
    ok, member, j := ReadMember(text, i);
    if ok {
      ExtendNothing(MembersAfter(member, text[j..]));
    }
    while ok && j < |text| && text[j] == ','
      invariant ok ==> i < j <= |text| && MembersLeft(text, members, member, j, whole)
      invariant !ok ==> whole.Fail?
      decreases ok, |text| - j
    {
      ok, members, member, j := NextMember(text, members, member, j, whole);
    }
    if ok {
      ok, members, j := EndMembers(text, members, member, j, whole);
    }
  }

  /** `cJSON_Parse`; on a printed tree it gives the tree back. */
  method ParseText(text: string) returns (ok: bool, value: Json)
    ensures ok == Parse(text).Ok? && (ok ==> value == Parse(text).value)
    ensures forall t, fmt :: WellFormed(t) && text == Print(t, fmt) ==> ok && value == t
  {
    var i := SkipFrom(text, 0);
    assert text[0..] == text;
    var j;
    ok, value, j := ReadValue(text, i);
    forall t, fmt | WellFormed(t) && text == Print(t, fmt) ensures ok && value == t {
      ParseUndoesPrint(t, fmt);
    }
  }
}
