/** The printers without a buffer: each value is printed into memory of its own, of a length computed before. */
module JsonPlain {
  import opened JsonText
  import opened JsonBuffer

  function Blank(fmt: bool, c: char): string { if fmt then [c] else "" }

  lemma {:induction false} BlankFirst(fmt: bool, c: char, rest: string)
    ensures BlankThen(fmt, c, rest) == Blank(fmt, c) + rest
  {
  }

  /** A value in front of a text. */
  lemma {:induction false} ValueFirst(t: Json, depth: nat, fmt: bool, rest: string)
    ensures ValueThen(t, depth, fmt, rest) == ValueThen(t, depth, fmt, "") + rest
  {
    assert "" + rest == rest;
    ValueAppend(t, depth, fmt, "", rest);
  }

  lemma {:induction false} MemberFirst(m: Member, depth: nat, fmt: bool, rest: string)
    ensures MemberThen(m, depth, fmt, rest) == MemberThen(m, depth, fmt, "") + rest
  {
    assert "" + rest == rest;
    MemberAppend(m, depth, fmt, "", rest);
  }

  /** `print_string_ptr` without a buffer. */
  method PrintString(s: string) returns (out: string, size: nat)
    requires CString(s)
    ensures out == StringThen(s, "") && |out| < size
  {
    var len := EscapedLength(s);
    size := len + 3;
    out := Quoted(s);
    StringAllocated(s);
  }

  lemma {:induction false} StringAllocated(s: string)
    ensures |StringThen(s, "")| == |EscapeThen(s, "")| + 2
  {
    assert "" + ['\"'] == ['\"'] && ['\"'] + "" == ['\"'];
    EscapeAppend(s, "", ['\"']);
  }

  /** `print_value` without a buffer. */
  method PrintValue(t: Json, depth: nat, fmt: bool) returns (out: string)
    requires WellFormed(t)
    ensures out == ValueThen(t, depth, fmt, "")
    decreases t, 1
  {
    assert forall x: string :: x + "" == x;
    match t
    case Null => out := "null";
    case False => out := "false";
    case True => out := "true";
    case Number(n) => out := PrintNumber(n);
    case String(s) => var size; out, size := PrintString(s);
    case Array(items) => var size; out, size := PrintArray(items, depth, fmt);
    case Object(members) => var size; out, size := PrintObject(members, depth, fmt);
  }

  // ---------------------------------------------------------------- arrays

  /** The lengths counted for the elements. */
  ghost function ItemLengths(entries: seq<string>, fmt: bool): nat {
    if entries == [] then 0
    else ItemLengths(entries[..|entries| - 1], fmt) + |entries[|entries| - 1]| + 2 + if fmt then 1 else 0
  }

  ghost predicate Printed(entries: seq<string>, items: seq<Json>, depth: nat, fmt: bool) {
    |entries| <= |items| && forall k :: 0 <= k < |entries| ==> entries[k] == ValueThen(items[k], depth, fmt, "")
  }

  /** What is still to be written from element `i` on. */
  ghost function ItemsLeft(items: seq<Json>, i: nat, depth: nat, fmt: bool): string
    requires i <= |items|
  {
    if i == |items| then "]" else ItemsThen(items[i..], depth, fmt, "]")
  }

  lemma {:induction false} ItemsLeftStep(items: seq<Json>, i: nat, depth: nat, fmt: bool)
    requires i < |items|
    ensures ItemsLeft(items, i, depth, fmt) == ValueThen(items[i], depth, fmt, "") +
            ((if i == |items| - 1 then "" else ",") +
             ((if i == |items| - 1 then "" else Blank(fmt, ' ')) + ItemsLeft(items, i + 1, depth, fmt)))
  {
    assert items[i..][1..] == items[i + 1..];
    var tail := ItemsTail(items[i + 1..], depth, fmt, "]");
    ValueFirst(items[i], depth, fmt, tail);
    if i < |items| - 1 {
      BlankFirst(fmt, ' ', ItemsThen(items[i + 1..], depth, fmt, "]"));
    } else {
      assert "" + ("" + "]") == "]";
    }
  }

  /** The loop that prints the elements and adds up the length to allocate. */
  method PrintEntries(items: seq<Json>, depth: nat, fmt: bool) returns (entries: seq<string>, len: nat)
    requires WellFormedItems(items)
    ensures Printed(entries, items, depth, fmt) && |entries| == |items| && len == 5 + ItemLengths(entries, fmt)
    decreases items, 0
  {
    entries, len := [], 5;
    assert items[0..] == items;
    for i := 0 to |items|
      invariant Printed(entries, items, depth, fmt) && |entries| == i && len == 5 + ItemLengths(entries, fmt)
      invariant WellFormedItems(items[i..])
    {
      assert items[i..][1..] == items[i + 1..];
      var ret := PrintValue(items[i], depth, fmt);
      assert (entries + [ret])[..i] == entries;
      entries := entries + [ret];
      len := len + |ret| + 2 + if fmt then 1 else 0;
    }
  }

  /** The loop that puts the elements together. */
  method ComposeItems(items: seq<Json>, entries: seq<string>, depth: nat, fmt: bool) returns (out: string)
    requires items != [] && |entries| == |items| && Printed(entries, items, depth, fmt)
    ensures out + "]" == ItemsThen(items, depth, fmt, "]") && |out| <= ItemLengths(entries, fmt)
  {
    out := "";
    assert items[0..] == items && entries[..0] == [];
    for i := 0 to |items|
      invariant out + ItemsLeft(items, i, depth, fmt) == ItemsThen(items, depth, fmt, "]")
      invariant |out| <= ItemLengths(entries[..i], fmt)
    {
      ItemsLeftStep(items, i, depth, fmt);
      assert entries[..i + 1][..i] == entries[..i];
      var comma, blank := "", "";
      if i != |items| - 1 {
        comma, blank := ",", Blank(fmt, ' ');
      }
      Regrouped(out, entries[i], comma, blank, ItemsLeft(items, i + 1, depth, fmt));
      out := ((out + entries[i]) + comma) + blank;
    }
    assert entries[..|items|] == entries;
  }

  lemma {:induction false} Regrouped(a: string, b: string, c: string, d: string, e: string)
    ensures a + (b + (c + (d + e))) == (((a + b) + c) + d) + e
    ensures a + (b + (c + e)) == ((a + b) + c) + e
  {
  }

  /** `print_array` without a buffer: the text, which fits with its NUL into what was allocated. */
  method PrintArray(items: seq<Json>, depth: nat, fmt: bool) returns (out: string, size: nat)
    requires WellFormedItems(items)
    ensures out == ValueThen(Array(items), depth, fmt, "") && |out| < size
    decreases items, 1
  {
    if items == [] {
      return "[]", 3;
    }
    var entries;
    entries, size := PrintEntries(items, depth + 1, fmt);
    var body := ComposeItems(items, entries, depth + 1, fmt);
    assert [']'] + "" == "]";
    out := ['['] + (body + "]");
  }

  // ---------------------------------------------------------------- objects

  /** The lengths counted for the members. */
  ghost function MemberLengths(names: seq<string>, entries: seq<string>, depth: nat, fmt: bool): nat
    requires |names| == |entries|
  {
    if names == [] then 0
    else
      var k := |names| - 1;
      MemberLengths(names[..k], entries[..k], depth, fmt) + |entries[k]| + |names[k]| + 2 + if fmt then 2 + depth else 0
  }

  ghost predicate PrintedMembers(names: seq<string>, entries: seq<string>, members: seq<Member>, depth: nat,
                                 fmt: bool) {
    && |names| == |entries| <= |members|
    && forall k :: 0 <= k < |names|
        ==> names[k] == StringThen(members[k].key, "") && entries[k] == ValueThen(members[k].value, depth, fmt, "")
  }

  lemma {:induction false} PairAdded(names: seq<string>, entries: seq<string>, members: seq<Member>, depth: nat,
                                     fmt: bool, str: string, ret: string)
    requires PrintedMembers(names, entries, members, depth, fmt) && |names| < |members|
    requires str == StringThen(members[|names|].key, "") && ret == ValueThen(members[|names|].value, depth, fmt, "")
    ensures PrintedMembers(names + [str], entries + [ret], members, depth, fmt)
    ensures MemberLengths(names + [str], entries + [ret], depth, fmt)
            == MemberLengths(names, entries, depth, fmt) + |ret| + |str| + 2 + if fmt then 2 + depth else 0
  {
  }

  /** The loop that prints names and values and adds up the length to allocate. */
  method PrintPairs(members: seq<Member>, depth: nat, fmt: bool)
    returns (names: seq<string>, entries: seq<string>, len: nat)
    requires WellFormedMembers(members)
    ensures PrintedMembers(names, entries, members, depth, fmt) && |names| == |members|
    ensures len == 7 + (if fmt then depth else 0) + MemberLengths(names, entries, depth, fmt)
    decreases members, 0
  {
    names, entries, len := [], [], 7 + if fmt then depth else 0;
    assert members[0..] == members;
    for i := 0 to |members|
      invariant PrintedMembers(names, entries, members, depth, fmt) && |names| == i
      invariant len == 7 + (if fmt then depth else 0) + MemberLengths(names, entries, depth, fmt)
      invariant WellFormedMembers(members[i..])
    {
      assert members[i..][1..] == members[i + 1..] && members[i..][0] == members[i];
      var str, size := PrintString(members[i].key);
      var ret := PrintValue(members[i].value, depth, fmt);
      PairAdded(names, entries, members, depth, fmt, str, ret);
      names, entries := names + [str], entries + [ret];
      len := len + |ret| + |str| + 2 + if fmt then 2 + depth else 0;
    }
  }

  /** A loop that writes tabs. */
  method Tabs(n: int) returns (out: string)
    ensures out == TabsThen(n, "") && |out| == if n < 0 then 0 else n
  {
    out := "";
    var i := 0;
    while i < n
      invariant 0 <= i && (n >= 0 ==> i <= n) && |out| == i && out + TabsThen(n - i, "") == TabsThen(n, "")
    {
      assert out + (['\t'] + TabsThen(n - i - 1, "")) == (out + ['\t']) + TabsThen(n - i - 1, "");
      out := out + ['\t'];
      i := i + 1;
    }
    assert out + "" == out;
  }

  lemma {:induction false} MemberText(m: Member, depth: nat, fmt: bool)
    ensures MemberThen(m, depth, fmt, "") == (if fmt then TabsThen(depth, "") else "") +
            (StringThen(m.key, "") + ([':'] + (Blank(fmt, '\t') + ValueThen(m.value, depth, fmt, ""))))
  {
    var value := ValueThen(m.value, depth, fmt, "");
    BlankFirst(fmt, '\t', value);
    var behind := [':'] + (Blank(fmt, '\t') + value);
    assert "" + behind == behind;
    StringAppend(m.key, "", behind);
    var text := StringThen(m.key, "") + behind;
    assert "" + text == text;
    TabsAppend(depth, "", text);
  }

  /** A member without the comma and the line end behind it. */
  method WriteMember(ghost m: Member, name: string, entry: string, depth: nat, fmt: bool) returns (out: string)
    requires name == StringThen(m.key, "") && entry == ValueThen(m.value, depth, fmt, "")
    ensures out == MemberThen(m, depth, fmt, "") && |out| == |name| + |entry| + 1 + if fmt then 1 + depth else 0
  {
    out := "";
    if fmt {
      out := Tabs(depth);
    }
    out := out + (name + ([':'] + (Blank(fmt, '\t') + entry)));
    MemberText(m, depth, fmt);
  }

  /** What is still to be written from member `i` on. */
  ghost function MembersLeft(members: seq<Member>, i: nat, depth: nat, fmt: bool, close: string): string
    requires i <= |members|
  {
    if i == |members| then close else MembersThen(members[i..], depth, fmt, close)
  }

  /** What stands behind a member: a comma unless it is the last one, and a line end. */
  function LineEnd(last: bool, fmt: bool): string { (if last then "" else ",") + Blank(fmt, '\n') }

  lemma {:induction false} TailIsLineEnd(tail: seq<Member>, depth: nat, fmt: bool, close: string)
    ensures MembersTail(tail, depth, fmt, close)
            == LineEnd(tail == [], fmt) + if tail == [] then close else MembersThen(tail, depth, fmt, close)
  {
    var left, blank := if tail == [] then close else MembersThen(tail, depth, fmt, close), Blank(fmt, '\n');
    BlankFirst(fmt, '\n', left);
    HeadAppend(',', blank, left);
    assert "" + blank == blank;
  }

  lemma {:induction false} MembersLeftStep(members: seq<Member>, i: nat, depth: nat, fmt: bool, close: string)
    requires i < |members|
    ensures MembersLeft(members, i, depth, fmt, close) ==
            MemberThen(members[i], depth, fmt, "")
              + (LineEnd(i == |members| - 1, fmt) + MembersLeft(members, i + 1, depth, fmt, close))
  {
    assert members[i..][1..] == members[i + 1..];
    MemberFirst(members[i], depth, fmt, MembersTail(members[i + 1..], depth, fmt, close));
    TailIsLineEnd(members[i + 1..], depth, fmt, close);
  }

  lemma {:induction false} LengthsGrow(names: seq<string>, entries: seq<string>, i: nat, depth: nat, fmt: bool)
    requires i < |names| == |entries|
    ensures MemberLengths(names[..i + 1], entries[..i + 1], depth, fmt)
            == MemberLengths(names[..i], entries[..i], depth, fmt) + |entries[i]| + |names[i]| + 2
              + if fmt then 2 + depth else 0
  {
    assert names[..i + 1][..i] == names[..i] && entries[..i + 1][..i] == entries[..i];
  }

  /** The loop that puts the members together. */
  method ComposeMembers(members: seq<Member>, names: seq<string>, entries: seq<string>, depth: nat, fmt: bool,
                        ghost close: string)
    returns (out: string)
    requires members != [] && |names| == |members| && PrintedMembers(names, entries, members, depth, fmt)
    ensures out + close == MembersThen(members, depth, fmt, close) && |out| <= MemberLengths(names, entries, depth, fmt)
  {
    out := "";
    assert members[0..] == members && names[..0] == [] && entries[..0] == [];
    for i := 0 to |members|
      invariant out + MembersLeft(members, i, depth, fmt, close) == MembersThen(members, depth, fmt, close)
      invariant |out| <= MemberLengths(names[..i], entries[..i], depth, fmt)
    {
      MembersLeftStep(members, i, depth, fmt, close);
      LengthsGrow(names, entries, i, depth, fmt);
      var piece := WriteMember(members[i], names[i], entries[i], depth, fmt);
      var end := LineEnd(i == |members| - 1, fmt);
      Regrouped(out, piece, end, "", MembersLeft(members, i + 1, depth, fmt, close));
      out := (out + piece) + end;
    }
    assert names[..|members|] == names && entries[..|members|] == entries;
  }

  lemma {:induction false} Closed(fmt: bool, n: int)
    ensures IndentThen(fmt, n, "}") == (if fmt then TabsThen(n, "") else "") + "}"
  {
    assert "" + "}" == "}";
    TabsAppend(n, "", "}");
  }

  /** `print_object` without a buffer: the text, which fits with its NUL into what was allocated. */
  method PrintObject(members: seq<Member>, depth: nat, fmt: bool) returns (out: string, size: nat)
    requires WellFormedMembers(members)
    ensures out == ValueThen(Object(members), depth, fmt, "") && |out| < size
    decreases members, 1
  {
    ghost var level := if members == [] then depth - 1 else depth;
    Closed(fmt, level);
    ghost var close := IndentThen(fmt, level, "}");
    assert ['}'] + "" == "}";
    BlankFirst(fmt, '\n', BodyThen(members, depth, fmt, "}"));
    var tabs := "";
    if members == [] {
      size := if fmt then depth + 4 else 3;
      if fmt {
        tabs := Tabs(depth - 1);
      }
      out := ['{'] + (Blank(fmt, '\n') + (tabs + "}"));
    } else {
      var names, entries;
      names, entries, size := PrintPairs(members, depth + 1, fmt);
      var body := ComposeMembers(members, names, entries, depth + 1, fmt, close);
      if fmt {
        tabs := Tabs(depth);
      }
      out := ['{'] + (Blank(fmt, '\n') + (body + (tabs + "}")));
    }
  }
}
