/** `cJSON_PrintBuffered`: the printer that writes into one growing buffer, proved against the text of `JsonText`. */
module JsonBuffer {
  import opened Bits
  import opened JsonText

  // ---------------------------------------------------------------- pow2gt

  /** `y` has `n` bits, the top `m` of which are ones. */
  ghost predicate TopOnes(y: nat, n: nat, m: nat) {
    y < Pow2(n) && y + Pow2(if m <= n then n - m else 0) >= Pow2(n)
  }

  lemma {:induction false} ShiftedRange(y: nat, a: nat, b: nat, m: nat)
    requires ShiftLeft(a, m) <= y < ShiftLeft(b, m)
    ensures a <= ShiftRight(y, m) < b
  {
    var z := ShiftRight(y, m);
    ShiftIsQuotient(y, m);
    if z < a { ShiftMonotone(z, a, m); }
    if z >= b { ShiftMonotone(b, z, m); }
  }

  lemma {:induction false} ShiftDifference(a: nat, b: nat, m: nat)
    requires b <= a
    ensures ShiftLeft(a - b, m) == ShiftLeft(a, m) - ShiftLeft(b, m)
  {
    if m > 0 { ShiftDifference(a, b, m - 1); }
  }

  /** Or-ing a number with itself shifted by `m` doubles the run of ones at its top. */
  lemma {:induction false} SmearDoubles(y: nat, n: nat, m: nat)
    requires TopOnes(y, n, m)
    ensures TopOnes(Or(y, ShiftRight(y, m)), n, 2 * m)
  {
    var z := ShiftRight(y, m);
    OrBounds(y, z);
    if m >= n {
      ShiftShrinks(y, m);
      OrFits(y, z, n);
    } else {
      SmearStep(y, m, n - m);
    }
  }

  lemma {:induction false} ShiftShrinks(y: nat, m: nat)
    ensures ShiftRight(y, m) <= y
  {
    if m > 0 { ShiftShrinks(y / 2, m - 1); }
  }

  /** The part of a number with `m` ones at its top that is shifted down to the other `k` bits. */
  lemma {:induction false} ShiftedPart(y: nat, m: nat, k: nat)
    requires TopOnes(y, m + k, m)
    ensures Pow2(k) <= ShiftRight(y, m) + (if m <= k then Pow2(k - m) else 1) && ShiftRight(y, m) < Pow2(k)
  {
    var low := if m <= k then Pow2(k - m) else 1;
    Pow2Adds(k, m);
    assert low <= Pow2(k) by { if m <= k { Pow2Grows(k - m, k); } }
    ShiftDifference(Pow2(k), low, m);
    LowCovers(k, m);
    ShiftedRange(y, Pow2(k) - low, Pow2(k), m);
  }

  lemma {:induction false} HighPart(m: nat, k: nat)
    ensures ShiftLeft(Pow2(m) - 1, k) == Pow2(m + k) - Pow2(k)
  {
    Pow2Adds(m, k);
    ShiftDifference(Pow2(m), 1, k);
    ShiftOne(k);
  }

  lemma {:induction false} SmearStep(y: nat, m: nat, k: nat)
    requires TopOnes(y, m + k, m)
    ensures TopOnes(Or(y, ShiftRight(y, m)), m + k, 2 * m)
  {
    var z := ShiftRight(y, m);
    ShiftedPart(y, m, k);
    HighPart(m, k);
    OrIntoLow(Pow2(m) - 1, y - ShiftLeft(Pow2(m) - 1, k), z, k);
  }

  lemma {:induction false} OrIntoLow(h: nat, r: nat, z: nat, k: nat)
    requires r < Pow2(k) && z < Pow2(k)
    ensures ShiftLeft(h, k) + z <= Or(ShiftLeft(h, k) + r, z) < ShiftLeft(h, k) + Pow2(k)
  {
    ZeroShifts(k);
    OrSplits(h, r, 0, z, k);
    OrCommutes(h, 0);
    OrBounds(r, z);
    OrFits(r, z, k);
  }

  lemma {:induction false} ShiftOne(k: nat)
    ensures ShiftLeft(1, k) == Pow2(k)
  {
    if k > 0 { ShiftOne(k - 1); }
  }

  lemma {:induction false} LowCovers(k: nat, m: nat)
    ensures ShiftLeft(if m <= k then Pow2(k - m) else 1, m) >= Pow2(k)
  {
    if m <= k {
      Pow2Adds(k - m, m);
    } else {
      ShiftOne(m);
      Pow2Grows(k, m);
    }
  }

  ghost function BitLength(y: nat): nat {
    if y == 0 then 0 else 1 + BitLength(y / 2)
  }

  lemma {:induction false} BitLengthBounds(y: nat)
    ensures TopOnes(y, BitLength(y), 1) && (y > 0 ==> Pow2(BitLength(y) - 1) <= y)
  {
    if y > 0 { BitLengthBounds(y / 2); }
  }

  lemma {:induction false} BitLengthSmall(y: nat, k: nat)
    requires y < Pow2(k)
    ensures BitLength(y) <= k
  {
    if y > 0 { BitLengthSmall(y / 2, k - 1); }
  }

  /** `r` is the least power of two that is at least `x`. */
  ghost predicate LeastPow2(r: nat, x: nat) {
    && (exists k :: r == Pow2(k)) && x <= r
    && forall k :: x <= Pow2(k) ==> r <= Pow2(k)
  }

  const RESERVE: nat := 20             // what is asked for beyond a text: 21 characters for a number of one digit

  const MAX_SIZE: nat := 0x4000_0000   // the largest argument whose power of two fits into an int

  lemma {:induction false} MaxIsPow2()
    ensures Pow2(30) == MAX_SIZE
  {
    ShiftBy10(1);
    Pow2Adds(10, 10);
    ShiftBy10(1024);
    Pow2Adds(20, 10);
    ShiftBy10(0x10_0000);
  }

  /** The power of two above `x` is an `int` exactly if `x` is at most MAX_SIZE. */
  lemma {:induction false} PowerIsInt(r: nat, x: nat)
    requires LeastPow2(r, x)
    ensures r <= 0x7FFF_FFFF <==> x <= MAX_SIZE
  {
    MaxIsPow2();
    var k :| r == Pow2(k);
    if k <= 30 {
      Pow2Grows(k, 30);
    } else {
      Pow2Grows(30, k);
    }
  }

  /** One assignment `x |= x >> m` of `pow2gt`. */
  method Smear(y: nat, m: nat, ghost n: nat) returns (z: nat)
    requires TopOnes(y, n, m)
    ensures TopOnes(z, n, 2 * m)
  {
    SmearDoubles(y, n, m);
    z := Or(y, ShiftRight(y, m));
  }

  /** `pow2gt`. */
  method Pow2gt(x: nat) returns (r: nat)
    requires 1 <= x <= MAX_SIZE
    ensures LeastPow2(r, x) && r <= MAX_SIZE
  {
    var y := x - 1;
    ghost var n := BitLength(y);
    TopBit(y);
    y := Smear(y, 1, n);
    y := Smear(y, 2, n);
    y := Smear(y, 4, n);
    y := Smear(y, 8, n);
    y := Smear(y, 16, n);
    r := y + 1;
    AllOnes(y, n);
    PowerAbove(x, n);
  }

  lemma {:induction false} TopBit(y: nat)
    requires y < MAX_SIZE
    ensures TopOnes(y, BitLength(y), 1) && BitLength(y) <= 30 && Pow2(BitLength(y)) <= MAX_SIZE
  {
    BitLengthBounds(y);
    MaxIsPow2();
    BitLengthSmall(y, 30);
    Pow2Grows(BitLength(y), 30);
  }

  lemma {:induction false} AllOnes(y: nat, n: nat)
    requires n <= 30 && TopOnes(y, n, 32)
    ensures y + 1 == Pow2(n)
  {
  }

  lemma {:induction false} PowerAbove(x: nat, n: nat)
    requires x >= 1 && n == BitLength(x - 1)
    ensures LeastPow2(Pow2(n), x)
  {
    BitLengthBounds(x - 1);
    forall k | x <= Pow2(k) ensures Pow2(n) <= Pow2(k) {
      BitLengthSmall(x - 1, k);
      Pow2Grows(n, k);
    }
  }

  // ---------------------------------------------------------------- the buffer

  const NUL: char := 0 as char

  ghost predicate NoNul(s: string) { forall i :: 0 <= i < |s| ==> s[i] != NUL }

  // ---------------------------------------------------------------- texts and their sizes

  lemma {:induction false} NumberText(n: int)
    requires Int32(n)
    ensures NoNul(PrintNumber(n)) && |PrintNumber(n)| <= 11
  {
    DecimalText(if n < 0 then -n else n, 10);
  }

  ghost function Pow10(k: nat): nat { if k == 0 then 1 else 10 * Pow10(k - 1) }

  lemma {:induction false} DecimalText(n: nat, k: nat)
    requires n < Pow10(k) && k >= 1
    ensures NoNul(Decimal(n)) && |Decimal(n)| <= k
  {
    if n >= 10 { DecimalText(n / 10, k - 1); }
  }

  lemma {:induction false} EscapeNoNul(s: string, rest: string)
    requires CString(s) && NoNul(rest)
    ensures NoNul(EscapeThen(s, rest))
  {
    if s != "" { EscapeNoNul(s[1..], rest); }
  }

  lemma {:induction false} StringText(s: string)
    requires CString(s)
    ensures StringThen(s, "") == ['\"'] + EscapeThen(s, ['\"']) && |StringThen(s, "")| == |EscapeThen(s, "")| + 2
    ensures NoNul(StringThen(s, ""))
  {
    assert ['\"'] + "" == ['\"'] && "" + ['\"'] == ['\"'];
    EscapeAppend(s, "", ['\"']);
    EscapeNoNul(s, ['\"']);
  }

  /** The second loop of `print_string_ptr`: the number of characters between the quotes. */
  method EscapedLength(s: string) returns (len: nat)
    ensures len == |EscapeThen(s, "")|
  {
    len := 0;
    for i := 0 to |s|
      invariant len + |EscapeThen(s[i..], "")| == |EscapeThen(s, "")|
    {
      var token := s[i];
      len := len + 1;
      if token in "\"\\\n\r\t" || token == 8 as char || token == 12 as char {
        len := len + 1;
      } else if token < 32 as char {
        len := len + 5;
      }
    }
  }

  /** The third loop of `print_string_ptr`, with the quotes around it. */
  method Quoted(s: string) returns (out: string)
    requires CString(s)
    ensures out == StringThen(s, "")
  {
    StringText(s);
    assert s[0..] == s;
    out := ['\"'];
    for i := 0 to |s|
      invariant out + EscapeThen(s[i..], ['\"']) == StringThen(s, "")
    {
      ghost var more := EscapeThen(s[i + 1..], ['\"']);
      assert out + (EscapeChar(s[i]) + more) == (out + EscapeChar(s[i])) + more;
      out := out + EscapeChar(s[i]);
    }
    out := out + ['\"'];
  }

  predicate NeedsEscape(c: char) { (0 < c as int < 32) || c == '\"' || c == '\\' }

  lemma {:induction false} PlainChar(c: char)
    requires c != NUL && !NeedsEscape(c)
    ensures EscapeChar(c) == [c]
  {
  }

  lemma {:induction false} PlainText(s: string, rest: string)
    requires CString(s) && forall i :: 0 <= i < |s| ==> !NeedsEscape(s[i])
    ensures EscapeThen(s, rest) == s + rest
  {
    if s != "" {
      PlainText(s[1..], rest);
      PlainChar(s[0]);
      assert s + rest == [s[0]] + (s[1..] + rest);
    } else {
      assert s + rest == rest;
    }
  }

  lemma {:induction false} Assoc(a: string, b: string, c: string)
    ensures (a + b) + c == a + (b + c)
  {
  }

  /** The indentation, as the loops of `print_object` write it. */
  function Indentation(fmt: bool, n: int): string { IndentThen(fmt, n, "") }

  lemma {:induction false} IndentationText(fmt: bool, n: int)
    ensures NoNul(Indentation(fmt, n)) && |Indentation(fmt, n)| == if fmt && n > 0 then n else 0
  {
    TabsText(n);
  }

  lemma {:induction false} TabsText(n: int)
    ensures NoNul(TabsThen(n, "")) && |TabsThen(n, "")| == if n > 0 then n else 0
  {
    if n > 0 { TabsText(n - 1); }
  }

  /** The separators of arrays and objects. */
  function Comma(fmt: bool): string { if fmt then ", " else "," }

  function Colon(fmt: bool): string { if fmt then ":\t" else ":" }

  function LineEnd(fmt: bool, last: bool): string { (if last then "" else ",") + (if fmt then "\n" else "") }

  lemma {:induction false} ItemPieces(items: seq<Json>, i: nat, depth: nat, fmt: bool, close: string)
    requires i < |items|
    ensures ItemsThen(items[i..], depth, fmt, close)
            == ValueThen(items[i], depth, fmt, "") + ItemsTail(items[i + 1..], depth, fmt, close)
    ensures i + 1 < |items| ==>
              ItemsTail(items[i + 1..], depth, fmt, close) == Comma(fmt) + ItemsThen(items[i + 1..], depth, fmt, close)
  {
    var tail := ItemsTail(items[i + 1..], depth, fmt, close);
    assert items[i..][1..] == items[i + 1..];
    assert "" + tail == tail;
    ValueAppend(items[i], depth, fmt, "", tail);
  }

  lemma {:induction false} MemberPieces(m: Member, depth: nat, fmt: bool, tail: string)
    ensures MemberThen(m, depth, fmt, tail) ==
            Indentation(fmt, depth) + (StringThen(m.key, "")
              + (Colon(fmt) + (ValueThen(m.value, depth, fmt, "") + tail)))
  {
    var value := ValueThen(m.value, depth, fmt, "") + tail;
    assert "" + tail == tail;
    ValueAppend(m.value, depth, fmt, "", tail);
    var colon := Colon(fmt) + value;
    assert [':'] + BlankThen(fmt, '\t', value) == colon;
    assert "" + colon == colon;
    StringAppend(m.key, "", colon);
    var key := StringThen(m.key, "") + colon;
    assert "" + key == key;
    IndentAppend(fmt, depth, "", key);
  }

  lemma {:induction false} TailPieces(members: seq<Member>, i: nat, depth: nat, fmt: bool, close: string)
    requires i < |members|
    ensures MembersThen(members[i..], depth, fmt, close)
            == MemberThen(members[i], depth, fmt, MembersTail(members[i + 1..], depth, fmt, close))
    ensures MembersTail(members[i + 1..], depth, fmt, close) ==
            LineEnd(fmt, i + 1 == |members|)
              + if i + 1 < |members| then MembersThen(members[i + 1..], depth, fmt, close) else close
  {
  }

  class PrintBuffer {
    var buffer: array<char>
    var offset: nat
    ghost const limit: nat

    /** The text in front of the offset. */
    ghost predicate Prefix(s: string)
      reads this, buffer
    {
      offset == |s| <= buffer.Length && buffer[..|s|] == s && NoNul(s) && Roomy()
    }

    /** The text in front of the terminator, some of which may lie behind the offset. */
    ghost predicate Holds(s: string)
      reads this, buffer
    {
      offset <= |s| < buffer.Length && buffer[..|s|] == s && buffer[|s|] == NUL && NoNul(s) && Roomy()
    }

    /** Sizes up to `limit` can be had, by growth or because they are there from the start. */
    ghost predicate Roomy()
      reads this
    {
      limit <= MAX_SIZE || limit <= buffer.Length
    }

    constructor (prebuffer: nat)
      ensures Prefix("") && fresh(buffer) && limit == if prebuffer < MAX_SIZE then MAX_SIZE else prebuffer
    {
      buffer := new char[prebuffer];
      offset := 0;
      limit := if prebuffer < MAX_SIZE then MAX_SIZE else prebuffer;
    }

    /** `ensure`: afterwards `needed` characters fit behind the offset; what was in the buffer is kept. */
    method Ensure(needed: nat)
      requires 1 <= offset + needed <= limit && offset <= buffer.Length && Roomy()
      modifies this`buffer
      ensures offset + needed <= buffer.Length && old(buffer[..]) <= buffer[..] && Roomy()
      ensures buffer == old(buffer) || fresh(buffer)
    {
      if offset + needed > buffer.Length {
        var newsize := Pow2gt(offset + needed);
        var newbuffer := new char[newsize];
        forall i | 0 <= i < buffer.Length { newbuffer[i] := buffer[i]; }
        buffer := newbuffer;
      }
    }

    /** `update`: the offset moves to the terminator. */
    method Update(ghost s: string)
      requires Holds(s)
      modifies this`offset
      ensures Prefix(s)
    {
      while buffer[offset] != NUL
        invariant offset <= |s|
        decreases |s| - offset
      {
        offset := offset + 1;
      }
    }

    /** Writes `str`, and a terminator if `terminated`, behind the offset, within the `needed` characters asked for. */
    method Write(needed: nat, str: string, terminated: bool, ghost s: string)
      requires Prefix(s) && NoNul(str) && 1 <= offset + needed <= limit
      requires |str| + (if terminated then 1 else 0) <= needed
      modifies this`buffer, buffer
      ensures offset == |s| && |s + str| <= buffer.Length && buffer[..|s + str|] == s + str && NoNul(s + str) && Roomy()
      ensures terminated ==> Holds(s + str)
      ensures buffer == old(buffer) || fresh(buffer)
    {
      Ensure(needed);
      for i := 0 to |str|
        invariant buffer == old(buffer) || fresh(buffer)
        invariant offset + needed <= buffer.Length && offset == |s| && Roomy()
        invariant buffer[..offset + i] == s + str[..i]
      {
        buffer[offset + i] := str[i];
        assert str[..i + 1] == str[..i] + [str[i]];
      }
      assert str[..|str|] == str;
      if terminated {
        buffer[offset + |str|] := NUL;
      }
    }

    /** As `Write`, and then moves the offset behind what was written. */
    method Append(needed: nat, str: string, terminated: bool, ghost s: string)
      requires Prefix(s) && NoNul(str) && 1 <= offset + needed <= limit
      requires |str| + (if terminated then 1 else 0) <= needed
      modifies this, buffer
      ensures Prefix(s + str) && (buffer == old(buffer) || fresh(buffer))
    {
      Write(needed, str, terminated, s);
      offset := offset + |str|;
    }

    /** `print_string_ptr`. */
    method PrintString(str: string, ghost s: string)
      requires Prefix(s) && CString(str) && |s| + |StringThen(str, "")| + RESERVE <= limit
      modifies this`buffer, buffer
      ensures Holds(s + StringThen(str, "")) && (buffer == old(buffer) || fresh(buffer))
    {
      var flag := false;
      for i := 0 to |str|
        invariant flag <==> exists j :: 0 <= j < i && NeedsEscape(str[j])
      {
        flag := flag || NeedsEscape(str[i]);
      }
      StringText(str);
      if !flag {
        PlainText(str, ['\"']);
        assert ['\"'] + str + ['\"'] == StringThen(str, "");
        Write(|str| + 3, ['\"'] + str + ['\"'], true, s);
      } else {
        var len := EscapedLength(str);
        var out := Quoted(str);
        Write(len + 3, out, true, s);
      }
    }

    /** `print_value` with a buffer; `out` is the index its result points to. */
    method PrintValue(t: Json, depth: nat, fmt: bool, ghost s: string) returns (out: nat)
      requires Prefix(s) && WellFormed(t) && |s| + |ValueThen(t, depth, fmt, "")| + RESERVE <= limit
      modifies this, buffer
      ensures Holds(s + ValueThen(t, depth, fmt, "")) && (buffer == old(buffer) || fresh(buffer))
      ensures out == if fmt && t.Object? && t.members != [] then depth else |s|
      decreases t, 1
    {
      out := offset;
      assert forall x: string :: x + "" == x;
      match t
      case Null => Write(5, "null", true, s);
      case False => Write(6, "false", true, s);
      case True => Write(5, "true", true, s);
      case Number(n) =>
        NumberText(n);
        Write(if n == 0 then 2 else 21, JsonText.PrintNumber(n), true, s);
      case String(str) => PrintString(str, s);
      case Array(items) =>
        if items == [] {
          assert ValueThen(t, depth, fmt, "") == "[]";
          Write(3, "[]", true, s);
        } else {
          PrintArray(items, depth, fmt, s);
        }
      case Object(members) =>
        if members == [] {
          EmptyObjectText(depth, fmt);
          Write(if fmt then depth + 4 else 3, EmptyObject(depth, fmt), true, s);
        } else {
          out := PrintObject(members, depth, fmt, s);
        }
    }

    /** The buffered branch of `print_array`. */
    method PrintArray(items: seq<Json>, depth: nat, fmt: bool, ghost s: string)
      requires items != [] && WellFormedItems(items)
      requires Prefix(s) && |s| + |ValueThen(Array(items), depth, fmt, "")| + RESERVE <= limit
      modifies this, buffer
      ensures Holds(s + ValueThen(Array(items), depth, fmt, "")) && (buffer == old(buffer) || fresh(buffer))
      decreases items, 2
    {
      ghost var close := [']'] + "";
      ghost var total := s + ValueThen(Array(items), depth, fmt, "");
      Assoc(s, ['['], ItemsThen(items, depth + 1, fmt, close));
      Append(1, ['['], false, s);
      ghost var cur := PrintItems(items, depth + 1, fmt, s + ['['], close, total);
      Write(2, "]", true, cur);
    }

    /** The loop of `print_array`. */
    method PrintItems(items: seq<Json>, depth: nat, fmt: bool, ghost cur: string, ghost close: string,
                      ghost total: string)
      returns (ghost cur': string)
      requires items != [] && Prefix(cur) && WellFormedItems(items)
      requires cur + ItemsThen(items, depth, fmt, close) == total && |total| + RESERVE <= limit
      modifies this, buffer
      ensures Prefix(cur') && (buffer == old(buffer) || fresh(buffer)) && cur' + close == total
      decreases items, 1
    {
      cur' := cur;
      assert items[0..] == items;
      for i := 0 to |items|
        invariant Prefix(cur') && (buffer == old(buffer) || fresh(buffer)) && WellFormedItems(items[i..])
        invariant cur' + (if i < |items| then ItemsThen(items[i..], depth, fmt, close) else close) == total
      {
        cur' := PrintItem(items, i, depth, fmt, cur', close, total);
      }
    }

    /** The body of the loop of `print_array`. */
    method PrintItem(items: seq<Json>, i: nat, depth: nat, fmt: bool, ghost cur: string, ghost close: string,
                     ghost total: string)
      returns (ghost cur': string)
      requires i < |items| && Prefix(cur) && WellFormedItems(items[i..])
      requires cur + ItemsThen(items[i..], depth, fmt, close) == total && |total| + RESERVE <= limit
      modifies this, buffer
      ensures Prefix(cur') && (buffer == old(buffer) || fresh(buffer)) && WellFormedItems(items[i + 1..])
      ensures cur' + (if i + 1 < |items| then ItemsThen(items[i + 1..], depth, fmt, close) else close) == total
      decreases items, 0
    {
      ItemPieces(items, i, depth, fmt, close);
      ghost var text, tail := ValueThen(items[i], depth, fmt, ""), ItemsTail(items[i + 1..], depth, fmt, close);
      assert items[i..][0] == items[i] && items[i..][1..] == items[i + 1..];
      Assoc(cur, text, tail);
      var _ := PrintValue(items[i], depth, fmt, cur);
      cur' := cur + text;
      Update(cur');
      if i + 1 < |items| {
        Assoc(cur', Comma(fmt), ItemsThen(items[i + 1..], depth, fmt, close));
        Append((if fmt then 2 else 1) + 1, Comma(fmt), true, cur');
        cur' := cur' + Comma(fmt);
      }
    }

    /** The buffered branch of `print_object`.  Its closing loop reuses the variable that held the start of the object,
        so with a layout the result points to index `depth`. */
    method PrintObject(members: seq<Member>, depth: nat, fmt: bool, ghost s: string) returns (out: nat)
      requires members != [] && WellFormedMembers(members)
      requires Prefix(s) && |s| + |ValueThen(Object(members), depth, fmt, "")| + RESERVE <= limit
      modifies this, buffer
      ensures Holds(s + ValueThen(Object(members), depth, fmt, "")) && (buffer == old(buffer) || fresh(buffer))
      ensures out == if fmt then depth else |s|
      decreases members, 3
    {
      out := offset;
      ghost var close := IndentThen(fmt, depth, ['}'] + "");
      ghost var total := s + ValueThen(Object(members), depth, fmt, "");
      OpeningPieces(s, members, depth, fmt, close);
      Append((if fmt then 2 else 1) + 1, Opening(fmt), true, s);
      ghost var cur := PrintMembers(members, depth + 1, fmt, s + Opening(fmt), close, total);
      CloseObject(depth, fmt, cur, total);
      if fmt {
        out := depth;
      }
    }

    /** The end of `print_object`. */
    method CloseObject(depth: nat, fmt: bool, ghost cur: string, ghost total: string)
      requires Prefix(cur) && cur + IndentThen(fmt, depth, ['}'] + "") == total && |total| + RESERVE <= limit
      modifies this`buffer, buffer
      ensures Holds(total) && (buffer == old(buffer) || fresh(buffer))
    {
      ClosingText(depth, fmt);
      Write(if fmt then depth + 2 else 2, Closing(depth, fmt), true, cur);
    }

    /** The loop of `print_object`. */
    method PrintMembers(members: seq<Member>, depth: nat, fmt: bool, ghost cur: string, ghost close: string,
                        ghost total: string)
      returns (ghost cur': string)
      requires members != [] && depth >= 1 && Prefix(cur) && WellFormedMembers(members)
      requires cur + MembersThen(members, depth, fmt, close) == total && |total| + RESERVE <= limit
      modifies this, buffer
      ensures Prefix(cur') && (buffer == old(buffer) || fresh(buffer)) && cur' + close == total
      decreases members, 2
    {
      cur' := cur;
      assert members[0..] == members;
      for i := 0 to |members|
        invariant Prefix(cur') && (buffer == old(buffer) || fresh(buffer)) && WellFormedMembers(members[i..])
        invariant cur' + (if i < |members| then MembersThen(members[i..], depth, fmt, close) else close) == total
      {
        cur' := PrintMember(members, i, depth, fmt, cur', close, total);
      }
    }

    /** The body of the loop of `print_object`. */
    method PrintMember(members: seq<Member>, i: nat, depth: nat, fmt: bool, ghost cur: string, ghost close: string,
                       ghost total: string)
      returns (ghost cur': string)
      requires i < |members| && depth >= 1 && Prefix(cur) && WellFormedMembers(members[i..])
      requires cur + MembersThen(members[i..], depth, fmt, close) == total && |total| + RESERVE <= limit
      modifies this, buffer
      ensures Prefix(cur') && (buffer == old(buffer) || fresh(buffer)) && WellFormedMembers(members[i + 1..])
      ensures cur' + (if i + 1 < |members| then MembersThen(members[i + 1..], depth, fmt, close) else close) == total
      decreases members, 1
    {
      var m := members[i];
      assert members[i..][0] == m && members[i..][1..] == members[i + 1..];
      ghost var tail := MembersTail(members[i + 1..], depth, fmt, close);
      TailPieces(members, i, depth, fmt, close);
      MemberPieces(m, depth, fmt, tail);
      cur' := PrintKey(m.key, depth, fmt, cur, ValueThen(m.value, depth, fmt, "") + tail, total);
      Assoc(cur', ValueThen(m.value, depth, fmt, ""), tail);
      var _ := PrintValue(m.value, depth, fmt, cur');
      cur' := cur' + ValueThen(m.value, depth, fmt, "");
      Update(cur');
      ghost var rest := if i + 1 < |members| then MembersThen(members[i + 1..], depth, fmt, close) else close;
      cur' := EndMember(fmt, i + 1 == |members|, cur', rest, total);
    }

    /** The comma and line break behind a member. */
    method EndMember(fmt: bool, last: bool, ghost cur: string, ghost rest: string, ghost total: string)
      returns (ghost cur': string)
      requires Prefix(cur) && |total| + RESERVE <= limit && cur + (LineEnd(fmt, last) + rest) == total
      modifies this, buffer
      ensures Prefix(cur') && (buffer == old(buffer) || fresh(buffer)) && cur' + rest == total
    {
      Assoc(cur, LineEnd(fmt, last), rest);
      Append((if fmt then 1 else 0) + (if last then 0 else 1) + 1, LineEnd(fmt, last), true, cur);
      cur' := cur + LineEnd(fmt, last);
    }

    /** The indentation, key and colon of a member. */
    method PrintKey(key: string, depth: nat, fmt: bool, ghost cur: string, ghost more: string, ghost total: string)
      returns (ghost cur': string)
      requires depth >= 1 && Prefix(cur) && CString(key) && |total| + RESERVE <= limit
      requires cur + (Indentation(fmt, depth) + (StringThen(key, "") + (Colon(fmt) + more))) == total
      modifies this, buffer
      ensures Prefix(cur') && (buffer == old(buffer) || fresh(buffer)) && cur' + more == total
    {
      ghost var indent, str := Indentation(fmt, depth), StringThen(key, "");
      IndentationText(fmt, depth);
      Assoc(cur, indent, str + (Colon(fmt) + more));
      Assoc(cur + indent, str, Colon(fmt) + more);
      Assoc((cur + indent) + str, Colon(fmt), more);
      if fmt {
        Append(depth, Indentation(fmt, depth), false, cur);
      } else {
        assert cur + indent == cur;
      }
      cur' := cur + indent;
      PrintString(key, cur');
      cur' := cur' + str;
      Update(cur');
      Append(if fmt then 2 else 1, Colon(fmt), false, cur');
      cur' := cur' + Colon(fmt);
    }
  }

  function Opening(fmt: bool): string { if fmt then "{\n" else "{" }

  lemma {:induction false} OpeningPieces(s: string, members: seq<Member>, depth: nat, fmt: bool, close: string)
    requires members != [] && close == IndentThen(fmt, depth, ['}'] + "")
    ensures (s + Opening(fmt)) + MembersThen(members, depth + 1, fmt, close)
            == s + ValueThen(Object(members), depth, fmt, "")
  {
    var body := MembersThen(members, depth + 1, fmt, close);
    assert ['{'] + BlankThen(fmt, '\n', body) == Opening(fmt) + body;
    Assoc(s, Opening(fmt), body);
  }

  function Closing(depth: nat, fmt: bool): string { Indentation(fmt, depth) + ['}'] }

  lemma {:induction false} ClosingText(depth: nat, fmt: bool)
    ensures Closing(depth, fmt) == IndentThen(fmt, depth, ['}'] + "")
    ensures NoNul(Closing(depth, fmt)) && |Closing(depth, fmt)| + 1 <= if fmt then depth + 2 else 2
    ensures fmt ==> depth + 1 <= |Closing(depth, fmt)|
  {
    IndentationText(fmt, depth);
    assert "" + ['}'] == ['}'] && ['}'] + "" == ['}'];
    IndentAppend(fmt, depth, "", ['}']);
  }

  function EmptyObject(depth: nat, fmt: bool): string {
    ['{'] + (if fmt then ['\n'] else "") + Indentation(fmt, depth - 1) + ['}']
  }

  lemma {:induction false} EmptyObjectText(depth: nat, fmt: bool)
    ensures EmptyObject(depth, fmt) == ValueThen(Object([]), depth, fmt, "")
    ensures NoNul(EmptyObject(depth, fmt)) && |EmptyObject(depth, fmt)| + 1 <= if fmt then depth + 4 else 3
    ensures fmt ==> depth + 2 <= |EmptyObject(depth, fmt)|
  {
    IndentationText(fmt, depth - 1);
    assert "" + ['}'] == ['}'] && ['}'] + "" == ['}'];
    IndentAppend(fmt, depth - 1, "", ['}']);
  }

  /** `cJSON_PrintBuffered`: whatever the initial size of the buffer, the result points to the very text that
      `cJSON_Print` or `cJSON_PrintUnformatted` returns, followed by a terminator. */
  method PrintBuffered(t: Json, prebuffer: nat, fmt: bool) returns (buffer: array<char>, out: nat)
    requires WellFormed(t) && prebuffer < 0x8000_0000
    requires |Print(t, fmt)| + RESERVE <= MAX_SIZE || |Print(t, fmt)| + RESERVE <= prebuffer
    ensures out == 0 && |Print(t, fmt)| < buffer.Length
    ensures buffer[..|Print(t, fmt)|] == Print(t, fmt) && buffer[|Print(t, fmt)|] == NUL
  {
    var p := new PrintBuffer(prebuffer);
    out := p.PrintValue(t, 0, fmt, "");
    buffer := p.buffer;
    assert "" + Print(t, fmt) == Print(t, fmt);
  }
}
