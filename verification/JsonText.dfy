/** JSON trees and the text `cJSON_Print` and `cJSON_PrintUnformatted` give for them. */
module JsonText {

  /** A tree of cJSON items, with the child lists as sequences. */
  datatype Json =
    | Null
    | False
    | True
    | Number(n: int)
    | String(s: string)
    | Array(items: seq<Json>)
    | Object(members: seq<Member>)

  datatype Member = Member(key: string, value: Json)

  /** C strings: bytes other than NUL. */
  ghost predicate CString(s: string) {
    forall i :: 0 <= i < |s| ==> 0 < s[i] as int < 256
  }

  predicate Int32(n: int) { -0x8000_0000 <= n <= 0x7FFF_FFFF }

  /** The trees the printer is for: C strings, and numbers on its integer path. */
  ghost predicate WellFormed(t: Json)
    decreases t, 1
  {
    match t
    case Number(n) => Int32(n)
    case String(s) => CString(s)
    case Array(items) => WellFormedItems(items)
    case Object(members) => WellFormedMembers(members)
    case _ => true
  }

  ghost predicate WellFormedItems(items: seq<Json>)
    decreases items, 0
  {
    items == [] || (WellFormed(items[0]) && WellFormedItems(items[1..]))
  }

  ghost predicate WellFormedMembers(members: seq<Member>)
    decreases members, 0
  {
    members == [] || (CString(members[0].key) && WellFormed(members[0].value) && WellFormedMembers(members[1..]))
  }

  // ---------------------------------------------------------------- numbers

  function Digit(d: nat): char
    requires d < 10
  {
    '0' + d as char
  }

  /** Decimal digits without leading zeros. */
  function Decimal(n: nat): string {
    if n < 10 then [Digit(n)] else Decimal(n / 10) + [Digit(n % 10)]
  }

  /** `print_number` on its integer path, "%d". */
  function PrintNumber(n: int): string {
    if n < 0 then "-" + Decimal(-n) else Decimal(n)
  }

  // ---------------------------------------------------------------- strings

  function HexDigit(d: nat): char
    requires d < 16
  {
    if d < 10 then '0' + d as char else 'a' + (d - 10) as char
  }

  /** How `print_string_ptr` writes one character. */
  function EscapeChar(c: char): string {
    if c == '\"' then "\\\""
    else if c == '\\' then "\\\\"
    else if c == 8 as char then "\\b"
    else if c == 12 as char then "\\f"
    else if c == '\n' then "\\n"
    else if c == '\r' then "\\r"
    else if c == '\t' then "\\t"
    else if c < 32 as char then "\\u00" + [HexDigit(c as int / 16), HexDigit(c as int % 16)]
    else [c]
  }

  // The printers' output is defined as the text of a value in front of a text `rest` that follows it; the output
  // itself is the case of an empty `rest`.

  function EscapeThen(s: string, rest: string): string {
    if s == "" then rest else EscapeChar(s[0]) + EscapeThen(s[1..], rest)
  }

  /** `print_string_ptr`. */
  function StringThen(s: string, rest: string): string {
    ['\"'] + EscapeThen(s, ['\"'] + rest)
  }

  // ---------------------------------------------------------------- values

  /** White space that only the formatted layout has. */
  function BlankThen(fmt: bool, c: char, rest: string): string {
    if fmt then [c] + rest else rest
  }

  function TabsThen(n: int, rest: string): string {
    if n <= 0 then rest else ['\t'] + TabsThen(n - 1, rest)
  }

  function IndentThen(fmt: bool, n: int, rest: string): string {
    if fmt then TabsThen(n, rest) else rest
  }

  /** `print_value` at a nesting depth, formatted or not. */
  function ValueThen(t: Json, depth: nat, fmt: bool, rest: string): string
    decreases t, 1
  {
    match t
    case Null => "null" + rest
    case False => "false" + rest
    case True => "true" + rest
    case Number(n) => PrintNumber(n) + rest
    case String(s) => StringThen(s, rest)
    case Array(items) => ['['] + if items == [] then [']'] + rest else ItemsThen(items, depth + 1, fmt, [']'] + rest)
    case Object(members) => ['{'] + BlankThen(fmt, '\n', BodyThen(members, depth, fmt, ['}'] + rest))
  }

  /** The elements of a non-empty array. */
  function ItemsThen(items: seq<Json>, depth: nat, fmt: bool, rest: string): string
    requires items != []
    decreases items, 0
  {
    ValueThen(items[0], depth, fmt, ItemsTail(items[1..], depth, fmt, rest))
  }

  function ItemsTail(items: seq<Json>, depth: nat, fmt: bool, rest: string): string
    decreases items, 1
  {
    if items == [] then rest else [','] + BlankThen(fmt, ' ', ItemsThen(items, depth, fmt, rest))
  }

  /** What stands between the braces of an object, up to the closing brace at the head of `close`; an empty object
      closes one level less deep than others. */
  function BodyThen(members: seq<Member>, depth: nat, fmt: bool, close: string): string
    decreases members, 2
  {
    if members == [] then IndentThen(fmt, depth - 1, close)
    else MembersThen(members, depth + 1, fmt, IndentThen(fmt, depth, close))
  }

  function MembersThen(members: seq<Member>, depth: nat, fmt: bool, rest: string): string
    requires members != []
    decreases members, 0
  {
    MemberThen(members[0], depth, fmt, MembersTail(members[1..], depth, fmt, rest))
  }

  function MembersTail(members: seq<Member>, depth: nat, fmt: bool, rest: string): string
    decreases members, 1
  {
    if members == [] then BlankThen(fmt, '\n', rest)
      else [','] + BlankThen(fmt, '\n', MembersThen(members, depth, fmt, rest))
  }

  function MemberThen(m: Member, depth: nat, fmt: bool, rest: string): string
    decreases m, 1
  {
    IndentThen(fmt, depth, StringThen(m.key, [':'] + BlankThen(fmt, '\t', ValueThen(m.value, depth, fmt, rest))))
  }

  /** `cJSON_Print` and `cJSON_PrintUnformatted`. */
  function Print(t: Json, fmt: bool): string {
    ValueThen(t, 0, fmt, "")
  }

  // ---------------------------------------------------------------- what follows only follows

  lemma {:induction false} TabsAppend(n: int, a: string, b: string)
    ensures TabsThen(n, a + b) == TabsThen(n, a) + b
  {
    if n > 0 { TabsAppend(n - 1, a, b); }
  }

  lemma {:induction false} IndentAppend(fmt: bool, n: int, a: string, b: string)
    ensures IndentThen(fmt, n, a + b) == IndentThen(fmt, n, a) + b
  {
    TabsAppend(n, a, b);
  }

  lemma {:induction false} HeadAppend(c: char, a: string, b: string)
    ensures [c] + (a + b) == ([c] + a) + b
  {
  }

  lemma {:induction false} BlankAppend(fmt: bool, c: char, a: string, b: string)
    ensures BlankThen(fmt, c, a + b) == BlankThen(fmt, c, a) + b
  {
  }

  lemma {:induction false} EscapeAppend(s: string, a: string, b: string)
    ensures EscapeThen(s, a + b) == EscapeThen(s, a) + b
  {
    if s != "" { EscapeAppend(s[1..], a, b); }
  }

  lemma {:induction false} StringAppend(s: string, a: string, b: string)
    ensures StringThen(s, a + b) == StringThen(s, a) + b
  {
    HeadAppend('\"', a, b);
    EscapeAppend(s, ['\"'] + a, b);
    HeadAppend('\"', EscapeThen(s, ['\"'] + a), b);
  }

  /** A value prints the same text whatever follows it. */
  lemma {:induction false} ValueAppend(t: Json, depth: nat, fmt: bool, a: string, b: string)
    ensures ValueThen(t, depth, fmt, a + b) == ValueThen(t, depth, fmt, a) + b
    decreases t, 1
  {
    match t
    case String(s) => StringAppend(s, a, b);
    case Array(items) =>
      HeadAppend(']', a, b);
      if items == [] {
        HeadAppend('[', [']'] + a, b);
      } else {
        ItemsAppend(items, depth + 1, fmt, [']'] + a, b);
        HeadAppend('[', ItemsThen(items, depth + 1, fmt, [']'] + a), b);
      }
    case Object(members) =>
      HeadAppend('}', a, b);
      BodyAppend(members, depth, fmt, ['}'] + a, b);
      BlankAppend(fmt, '\n', BodyThen(members, depth, fmt, ['}'] + a), b);
      HeadAppend('{', BlankThen(fmt, '\n', BodyThen(members, depth, fmt, ['}'] + a)), b);
    case _ =>
  }

  lemma {:induction false} ItemsAppend(items: seq<Json>, depth: nat, fmt: bool, a: string, b: string)
    requires items != []
    ensures ItemsThen(items, depth, fmt, a + b) == ItemsThen(items, depth, fmt, a) + b
    decreases items, 0
  {
    ItemsTailAppend(items[1..], depth, fmt, a, b);
    ValueAppend(items[0], depth, fmt, ItemsTail(items[1..], depth, fmt, a), b);
  }

  lemma {:induction false} ItemsTailAppend(items: seq<Json>, depth: nat, fmt: bool, a: string, b: string)
    ensures ItemsTail(items, depth, fmt, a + b) == ItemsTail(items, depth, fmt, a) + b
    decreases items, 1
  {
    if items != [] {
      ItemsAppend(items, depth, fmt, a, b);
      BlankAppend(fmt, ' ', ItemsThen(items, depth, fmt, a), b);
      HeadAppend(',', BlankThen(fmt, ' ', ItemsThen(items, depth, fmt, a)), b);
    }
  }

  lemma {:induction false} BodyAppend(members: seq<Member>, depth: nat, fmt: bool, a: string, b: string)
    ensures BodyThen(members, depth, fmt, a + b) == BodyThen(members, depth, fmt, a) + b
    decreases members, 2
  {
    IndentAppend(fmt, depth - 1, a, b);
    IndentAppend(fmt, depth, a, b);
    if members != [] { MembersAppend(members, depth + 1, fmt, IndentThen(fmt, depth, a), b); }
  }

  lemma {:induction false} MembersAppend(members: seq<Member>, depth: nat, fmt: bool, a: string, b: string)
    requires members != []
    ensures MembersThen(members, depth, fmt, a + b) == MembersThen(members, depth, fmt, a) + b
    decreases members, 0
  {
    MembersTailAppend(members[1..], depth, fmt, a, b);
    MemberAppend(members[0], depth, fmt, MembersTail(members[1..], depth, fmt, a), b);
  }

  lemma {:induction false} MembersTailAppend(members: seq<Member>, depth: nat, fmt: bool, a: string, b: string)
    ensures MembersTail(members, depth, fmt, a + b) == MembersTail(members, depth, fmt, a) + b
    decreases members, 1
  {
    if members == [] {
      BlankAppend(fmt, '\n', a, b);
    } else {
      MembersAppend(members, depth, fmt, a, b);
      BlankAppend(fmt, '\n', MembersThen(members, depth, fmt, a), b);
      HeadAppend(',', BlankThen(fmt, '\n', MembersThen(members, depth, fmt, a)), b);
    }
  }

  lemma {:induction false} MemberAppend(m: Member, depth: nat, fmt: bool, a: string, b: string)
    ensures MemberThen(m, depth, fmt, a + b) == MemberThen(m, depth, fmt, a) + b
    decreases m, 1
  {
    var value := ValueThen(m.value, depth, fmt, a);
    ValueAppend(m.value, depth, fmt, a, b);
    BlankAppend(fmt, '\t', value, b);
    HeadAppend(':', BlankThen(fmt, '\t', value), b);
    StringAppend(m.key, [':'] + BlankThen(fmt, '\t', value), b);
    IndentAppend(fmt, depth, StringThen(m.key, [':'] + BlankThen(fmt, '\t', value)), b);
  }
}
