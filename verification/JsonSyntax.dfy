/** The texts of RFC 8259 for a tree, with white space wherever its grammar allows it: `cJSON_Parse` reads each of them
    as the tree, and `cJSON_Minify` takes the white space, and comments in its place, out of it. */
module JsonSyntax {
  import opened JsonText
  import opened JsonStrings
  import opened JsonParse
  import M = JsonMinify

  // ---------------------------------------------------------------- reference: texts and what they stand for

  /** White space, or a comment. */
  datatype Space = Blank(c: char) | Line(text: string) | Block(text: string)

  type Gap = seq<Space>

  /** The grammar of RFC 8259, for numbers without fraction and exponent. */
  datatype Syntax =
    | Word(t: Json)
    | Numeral(n: int)
    | MinusZero
    | Literal(ps: seq<Piece>)
    | Brackets(gap: Gap, items: seq<Item>)       // the gap is that of an empty array
    | Braces(gap: Gap, entries: seq<Entry>)      // and that of an empty object

  datatype Item = Item(before: Gap, value: Syntax, behind: Gap)

  datatype Entry = Entry(before: Gap, key: seq<Piece>, between: Gap, item: Item)

  /** White space by section 2 of RFC 8259: space, horizontal tab, line feed or carriage return. */
  ghost predicate White(c: char) { c as int in {0x20, 0x09, 0x0A, 0x0D} }

  /** A line comment ends at its line break; a block comment at the first star in front of a slash, where the star that
      opens it counts. */
  ghost predicate GoodSpace(x: Space, comments: bool) {
    match x
    case Blank(c) => White(c)
    case Line(t) => comments && '\n' !in t
    case Block(t) => comments && Unclosed('*', t)
  }

  /** No slash of the text is behind a star; `c` is the character in front of the text. */
  ghost predicate Unclosed(c: char, t: string)
    decreases |t|
  {
    t == "" || ((c == '*' ==> t[0] != '/') && Unclosed(t[0], t[1..]))
  }

  ghost predicate GoodGap(g: Gap, comments: bool) {
    g == [] || (GoodSpace(g[0], comments) && GoodGap(g[1..], comments))
  }

  /** The text is well formed, with comments or without. */
  ghost predicate Good(x: Syntax, comments: bool)
    decreases x, 1
  {
    match x
    case Word(t) => t.Null? || t.True? || t.False?
    case Numeral(n) => Int32(n)
    case MinusZero => true
    case Literal(ps) => GoodPieces(ps)
    case Brackets(gap, items) => GoodGap(gap, comments) && GoodItems(items, comments)
    case Braces(gap, entries) => GoodGap(gap, comments) && GoodEntries(entries, comments)
  }

  ghost predicate GoodItem(i: Item, comments: bool)
    decreases i, 0
  {
    GoodGap(i.before, comments) && Good(i.value, comments) && GoodGap(i.behind, comments)
  }

  ghost predicate GoodItems(items: seq<Item>, comments: bool)
    decreases items, 0
  {
    items == [] || (GoodItem(items[0], comments) && GoodItems(items[1..], comments))
  }

  ghost predicate GoodEntry(e: Entry, comments: bool)
    decreases e, 0
  {
    GoodGap(e.before, comments) && GoodPieces(e.key) && GoodGap(e.between, comments) && GoodItem(e.item, comments)
  }

  ghost predicate GoodEntries(entries: seq<Entry>, comments: bool)
    decreases entries, 0
  {
    entries == [] || (GoodEntry(entries[0], comments) && GoodEntries(entries[1..], comments))
  }

  /** The tree a text stands for. */
  ghost function Tree(x: Syntax): Json
    decreases x, 1
  {
    match x
    case Word(t) => t
    case Numeral(n) => Number(n)
    case MinusZero => Number(0)
    case Literal(ps) => String(DenotedAll(ps))
    case Brackets(_, items) => Array(Trees(items))
    case Braces(_, entries) => Object(Members(entries))
  }

  ghost function Trees(items: seq<Item>): seq<Json>
    decreases items, 0
  {
    if items == [] then [] else [Tree(items[0].value)] + Trees(items[1..])
  }

  ghost function Members(entries: seq<Entry>): seq<Member>
    decreases entries, 0
  {
    if entries == [] then []
    else [Member(DenotedAll(entries[0].key), Tree(entries[0].item.value))] + Members(entries[1..])
  }

  // The text, in front of a text `rest`.

  ghost function SpaceThen(x: Space, rest: string): string {
    match x
    case Blank(c) => [c] + rest
    case Line(t) => ['/'] + (['/'] + (t + (['\n'] + rest)))
    case Block(t) => ['/'] + (['*'] + (t + (['*', '/'] + rest)))
  }

  ghost function GapThen(g: Gap, rest: string): string {
    if g == [] then rest else SpaceThen(g[0], GapThen(g[1..], rest))
  }

  ghost function WordThen(t: Json, rest: string): string {
    (if t.Null? then "null" else if t.True? then "true" else "false") + rest
  }

  ghost function TextThen(x: Syntax, rest: string): string
    decreases x, 1
  {
    match x
    case Word(t) => WordThen(t, rest)
    case Numeral(n) => PrintNumber(n) + rest
    case MinusZero => "-0" + rest
    case Literal(ps) => LiteralThen(ps, rest)
    case Brackets(gap, items) => ['['] + if items == [] then GapThen(gap, [']'] + rest) else ItemsText(items, rest)
    case Braces(gap, entries) =>
      ['{'] + if entries == [] then GapThen(gap, ['}'] + rest) else EntriesText(entries, rest)
  }

  ghost function ItemThen(i: Item, rest: string): string
    decreases i, 0
  {
    GapThen(i.before, TextThen(i.value, GapThen(i.behind, rest)))
  }

  ghost function ItemsText(items: seq<Item>, rest: string): string
    decreases items, 0
  {
    if items == [] then rest
    else ItemThen(items[0], if |items| == 1 then [']'] + rest else [','] + ItemsText(items[1..], rest))
  }

  ghost function EntryThen(e: Entry, rest: string): string
    decreases e, 0
  {
    GapThen(e.before, LiteralThen(e.key, GapThen(e.between, [':'] + ItemThen(e.item, rest))))
  }

  ghost function EntriesText(entries: seq<Entry>, rest: string): string
    decreases entries, 0
  {
    if entries == [] then rest
    else EntryThen(entries[0], if |entries| == 1 then ['}'] + rest else [','] + EntriesText(entries[1..], rest))
  }

  // ---------------------------------------------------------------- every text is parsed as its tree

  lemma {:induction false} GapSkipped(g: Gap, rest: string)
    requires GoodGap(g, false)
    ensures Skip(GapThen(g, rest)) == Skip(rest)
  {
    if g != [] {
      GapSkipped(g[1..], rest);
      assert GapThen(g, rest)[1..] == GapThen(g[1..], rest);
    }
  }

  /** White space does not continue a number. */
  lemma {:induction false} GapEnds(g: Gap, rest: string)
    requires GoodGap(g, false) && NumberEnds(rest)
    ensures NumberEnds(GapThen(g, rest))
  {
  }

  /** A value starts with something that is not skipped. */
  lemma {:induction false} TextStarts(x: Syntax, rest: string)
    requires Good(x, false)
    ensures var s := TextThen(x, rest); s != "" && s[0] as int > 32 && s[0] != ']' && s[0] != '}' && Skip(s) == s
  {
    if x.Numeral? { NumberRoundTrip(x.n, ""); }
  }

  lemma {:induction false} MinusZeroParsed(rest: string)
    requires NumberEnds(rest)
    ensures ParseValue("-0" + rest) == Ok(Number(0), rest)
  {
    var s := "-0" + rest;
    assert s[0] == '-' && s[1..] == "0" + rest && ("0" + rest)[1..] == rest;
  }

  lemma {:induction false} LiteralValue(ps: seq<Piece>, rest: string)
    requires GoodPieces(ps)
    ensures ParseValue(LiteralThen(ps, rest)) == Ok(String(DenotedAll(ps)), rest)
  {
    LiteralParsed(ps, rest);
    assert LiteralThen(ps, rest)[0] == '\"';
  }

  /** A text in front of anything that does not continue it as a number is read as its tree, and all of it. */
  lemma {:induction false} TextParsed(x: Syntax, rest: string)
    requires Good(x, false) && NumberEnds(rest)
    ensures ParseValue(TextThen(x, rest)) == Ok(Tree(x), rest)
    decreases x, 1
  {
    match x
    case Word(t) => WordRoundTrip(rest);
    case Numeral(n) => NumberParsed(n, rest);
    case MinusZero => MinusZeroParsed(rest);
    case Literal(ps) => LiteralValue(ps, rest);
    case Brackets(gap, items) => BracketsParsed(gap, items, rest);
    case Braces(gap, entries) => BracesParsed(gap, entries, rest);
  }

  lemma {:induction false} BracketsParsed(gap: Gap, items: seq<Item>, rest: string)
    requires GoodGap(gap, false) && GoodItems(items, false)
    ensures ParseValue(TextThen(Brackets(gap, items), rest)) == Ok(Array(Trees(items)), rest)
    decreases items, 3
  {
    if items == [] {
      GapSkipped(gap, [']'] + rest);
      EmptyParsed(GapThen(gap, [']'] + rest), rest);
      assert Trees(items) == [] && TextThen(Brackets(gap, items), rest) == ['['] + GapThen(gap, [']'] + rest);
    } else {
      assert TextThen(Brackets(gap, items), rest) == ['['] + ItemsText(items, rest);
      ItemsParsed(items, rest);
      ItemsStart(items, rest);
      ArrayParsed(ItemsText(items, rest), Trees(items), rest);
    }
  }

  lemma {:induction false} ItemsStart(items: seq<Item>, rest: string)
    requires items != [] && GoodItems(items, false)
    ensures !Starts(Skip(ItemsText(items, rest)), ']')
  {
    ItemStarts(items[0], if |items| == 1 then [']'] + rest else [','] + ItemsText(items[1..], rest));
  }

  /** What is skipped in front of an element. */
  lemma {:induction false} ItemStarts(i: Item, rest: string)
    requires GoodItem(i, false)
    ensures var s := TextThen(i.value, GapThen(i.behind, rest));
            Skip(ItemThen(i, rest)) == s && s != "" && s[0] != ']' && s[0] != '}'
  {
    GapSkipped(i.before, TextThen(i.value, GapThen(i.behind, rest)));
    TextStarts(i.value, GapThen(i.behind, rest));
  }

  lemma {:induction false} ItemParsed(i: Item, rest: string)
    requires GoodItem(i, false) && NumberEnds(rest)
    ensures ParseValue(Skip(ItemThen(i, rest))) == Ok(Tree(i.value), GapThen(i.behind, rest))
    decreases i, 0
  {
    ItemStarts(i, rest);
    GapEnds(i.behind, rest);
    TextParsed(i.value, GapThen(i.behind, rest));
  }

  /** What comes behind an element, with white space in front of it. */
  lemma {:induction false} SpacedItem(item: Json, s: string, t: string)
    requires Skip(s) == Skip(t)
    ensures ItemsAfter(item, s) == ItemsAfter(item, t)
  {
  }

  lemma {:induction false} ItemsParsed(items: seq<Item>, rest: string)
    requires items != [] && GoodItems(items, false)
    ensures ParseItems(ItemsText(items, rest)) == Ok(Trees(items), rest)
    decreases items, 2
  {
    var i, others := items[0], items[1..];
    var tail := if |items| == 1 then [']'] + rest else [','] + ItemsText(others, rest);
    ItemParsed(i, tail);
    GapSkipped(i.behind, tail);
    SpacedItem(Tree(i.value), GapThen(i.behind, tail), tail);
    if |items| == 1 {
      LastItem(Tree(i.value), rest);
      assert Trees(others) == [] && Trees(items) == [Tree(i.value)];
    } else {
      ItemsParsed(others, rest);
      NextItem(Tree(i.value), ItemsText(others, rest), Trees(others), rest);
    }
  }

  lemma {:induction false} BracesParsed(gap: Gap, entries: seq<Entry>, rest: string)
    requires GoodGap(gap, false) && GoodEntries(entries, false)
    ensures ParseValue(TextThen(Braces(gap, entries), rest)) == Ok(Object(Members(entries)), rest)
    decreases entries, 3
  {
    if entries == [] {
      GapSkipped(gap, ['}'] + rest);
      EmptyParsed(GapThen(gap, ['}'] + rest), rest);
      assert Members(entries) == [] && TextThen(Braces(gap, entries), rest) == ['{'] + GapThen(gap, ['}'] + rest);
    } else {
      assert TextThen(Braces(gap, entries), rest) == ['{'] + EntriesText(entries, rest);
      EntriesParsed(entries, rest);
      EntriesStart(entries, rest);
      ObjectParsed(EntriesText(entries, rest), Members(entries), rest);
    }
  }

  lemma {:induction false} EntriesStart(entries: seq<Entry>, rest: string)
    requires entries != [] && GoodEntries(entries, false)
    ensures !Starts(Skip(EntriesText(entries, rest)), '}')
  {
    EntryStarts(entries[0], if |entries| == 1 then ['}'] + rest else [','] + EntriesText(entries[1..], rest));
  }

  lemma {:induction false} EntryStarts(e: Entry, rest: string)
    requires GoodEntry(e, false)
    ensures Skip(EntryThen(e, rest)) == LiteralThen(e.key, GapThen(e.between, [':'] + ItemThen(e.item, rest)))
    ensures !Starts(Skip(EntryThen(e, rest)), '}')
  {
    GapSkipped(e.before, LiteralThen(e.key, GapThen(e.between, [':'] + ItemThen(e.item, rest))));
  }

  lemma {:induction false} SpacedMember(s: string, key: string, colon: string, value: string)
    requires ParseString(Skip(s)) == Ok(key, colon) && Skip(colon) == [':'] + value
    ensures ParseMembers(s) == var p := ParseValue(Skip(value));
                               if p.Fail? then Fail else MembersAfter(Member(key, p.value), p.rest)
  {
    assert ([':'] + value)[1..] == value;
  }

  lemma {:induction false} EntryParsed(e: Entry, rest: string)
    requires GoodEntry(e, false) && NumberEnds(rest)
    ensures ParseMembers(EntryThen(e, rest))
            == MembersAfter(Member(DenotedAll(e.key), Tree(e.item.value)), GapThen(e.item.behind, rest))
    decreases e, 0
  {
    var value := ItemThen(e.item, rest);
    var colon := GapThen(e.between, [':'] + value);
    EntryStarts(e, rest);
    LiteralParsed(e.key, colon);
    GapSkipped(e.between, [':'] + value);
    SpacedMember(EntryThen(e, rest), DenotedAll(e.key), colon, value);
    ItemParsed(e.item, rest);
  }

  lemma {:induction false} SpacedEntry(m: Member, s: string, t: string)
    requires Skip(s) == Skip(t)
    ensures MembersAfter(m, s) == MembersAfter(m, t)
  {
  }

  lemma {:induction false} EntriesParsed(entries: seq<Entry>, rest: string)
    requires entries != [] && GoodEntries(entries, false)
    ensures ParseMembers(EntriesText(entries, rest)) == Ok(Members(entries), rest)
    decreases entries, 2
  {
    var e, others := entries[0], entries[1..];
    var tail := if |entries| == 1 then ['}'] + rest else [','] + EntriesText(others, rest);
    var m := Member(DenotedAll(e.key), Tree(e.item.value));
    assert GoodEntry(e, false) && GoodItem(e.item, false);
    EntryParsed(e, tail);
    GapSkipped(e.item.behind, tail);
    SpacedEntry(m, GapThen(e.item.behind, tail), tail);
    if |entries| == 1 {
      LastMember(m, tail, rest);
      assert Members(others) == [] && Members(entries) == [m];
    } else {
      EntriesParsed(others, rest);
      NextMember(m, EntriesText(others, rest), Members(others), rest);
    }
  }

  /** `cJSON_Parse` reads every text of RFC 8259 as the tree it stands for. */
  lemma {:induction false} EveryTextParses(before: Gap, x: Syntax, behind: Gap)
    requires GoodItem(Item(before, x, behind), false)
    ensures Parse(ItemThen(Item(before, x, behind), "")) == Ok(Tree(x), GapThen(behind, ""))
  {
    ItemParsed(Item(before, x, behind), "");
  }

  // ---------------------------------------------------------------- every text is minified to the same without gaps

  ghost function Stripped(x: Syntax): Syntax
    decreases x, 1
  {
    match x
    case Brackets(_, items) => Brackets([], StrippedItems(items))
    case Braces(_, entries) => Braces([], StrippedEntries(entries))
    case _ => x
  }

  ghost function StrippedItem(i: Item): Item
    decreases i, 0
  {
    Item([], Stripped(i.value), [])
  }

  ghost function StrippedItems(items: seq<Item>): seq<Item>
    decreases items, 0
  {
    if items == [] then [] else [StrippedItem(items[0])] + StrippedItems(items[1..])
  }

  ghost function StrippedEntries(entries: seq<Entry>): seq<Entry>
    decreases entries, 0
  {
    if entries == [] then []
    else [Entry([], entries[0].key, [], StrippedItem(entries[0].item))] + StrippedEntries(entries[1..])
  }

  /** Minifying turns one text into another, and is defined on it if it is on what follows. */
  ghost predicate Minified(s: string, t: string, rest: string) {
    M.Minify(s) == t && (M.Complete(s) <==> M.Complete(rest))
  }

  lemma {:induction false} LineEnds(t: string, rest: string)
    requires '\n' !in t
    ensures M.AfterLine(t + (['\n'] + rest)) == ['\n'] + rest
  {
    if t == "" {
      assert t + (['\n'] + rest) == ['\n'] + rest;
    } else {
      assert (t + (['\n'] + rest))[1..] == t[1..] + (['\n'] + rest);
      LineEnds(t[1..], rest);
    }
  }

  lemma {:induction false} LineDropped(t: string, rest: string)
    requires '\n' !in t
    ensures Minified(SpaceThen(Line(t), rest), M.Minify(rest), rest)
  {
    var s, behind := SpaceThen(Line(t), rest), t + (['\n'] + rest);
    assert "//" <= s && s[1..] == ['/'] + behind && (['/'] + behind)[1..] == behind;
    LineEnds(t, rest);
    M.Dropped('\n', rest);
  }

  /** The end of a block comment is found behind its text. */
  lemma {:induction false} BlockEnds(c: char, t: string, rest: string)
    requires Unclosed(c, t)
    ensures var s := [c] + (t + (['*', '/'] + rest)); M.HasEnd(s) && M.AfterBlock(s) == rest
    decreases |t|
  {
    var e := ['*', '/'] + rest;
    if t == "" {
      assert t + e == e && "*/" <= e && e[2..] == rest;
      NotYetEnded(c, e);
    } else {
      BlockEnds(t[0], t[1..], rest);
      assert t + e == [t[0]] + (t[1..] + e);
      NotYetEnded(c, t + e);
    }
  }

  lemma {:induction false} NotYetEnded(c: char, s: string)
    requires s != "" && (c == '*' ==> s[0] != '/')
    ensures M.HasEnd([c] + s) == M.HasEnd(s) && M.AfterBlock([c] + s) == M.AfterBlock(s)
  {
    var t := [c] + s;
    assert t[1..] == s && t[1] == s[0];
    NotPrefix("*/", t, if c == '*' then 1 else 0);
  }

  lemma {:induction false} NotPrefix(a: string, s: string, i: nat)
    requires i < |a| && i < |s| && a[i] != s[i]
    ensures !(a <= s)
  {
  }

  lemma {:induction false} BlockDropped(t: string, rest: string)
    requires GoodSpace(Block(t), true)
    ensures Minified(SpaceThen(Block(t), rest), M.Minify(rest), rest)
  {
    var s, behind := SpaceThen(Block(t), rest), ['*'] + (t + (['*', '/'] + rest));
    assert s[1] == '*' && "/*" <= s && s[1..] == behind;
    NotPrefix("//", s, 1);
    BlockEnds('*', t, rest);
  }

  lemma {:induction false} GapDropped(g: Gap, rest: string)
    requires GoodGap(g, true)
    ensures Minified(GapThen(g, rest), M.Minify(rest), rest)
  {
    if g != [] {
      var more := GapThen(g[1..], rest);
      GapDropped(g[1..], rest);
      match g[0]
      case Blank(c) => M.Dropped(c, more);
      case Line(t) => LineDropped(t, more);
      case Block(t) => BlockDropped(t, more);
    }
  }

  /** What is copied inside a literal. */
  ghost predicate CopiedAs(s: string, t: string, rest: string) {
    M.MinifyString(s) == t && (M.CompleteString(s) <==> M.CompleteString(rest))
  }

  lemma {:induction false} CodeCopied(n: nat, caps: set<nat>, s: string)
    ensures CopiedAs(CodeThen(Spelled(n, caps), s), CodeThen(Spelled(n, caps), M.MinifyString(s)), s)
  {
    var h := Spelled(n, caps);
    SpellingRead(n / 4096 % 16, 0 in caps);
    SpellingRead(n / 256 % 16, 1 in caps);
    SpellingRead(n / 16 % 16, 2 in caps);
    SpellingRead(n % 16, 3 in caps);
    FourCopied(h[0], h[1], h[2], h[3], s);
    assert h == [h[0], h[1], h[2], h[3]];
  }

  lemma {:induction false} FourCopied(a: char, b: char, c: char, d: char, s: string)
    requires IsHex(a) && IsHex(b) && IsHex(c) && IsHex(d)
    ensures CopiedAs(CodeThen([a, b, c, d], s), CodeThen([a, b, c, d], M.MinifyString(s)), s)
  {
    FourNested(a, b, c, d, s);
    FourNested(a, b, c, d, M.MinifyString(s));
    M.Copied(d, s);
    M.Copied(c, [d] + s);
    M.Copied(b, [c] + ([d] + s));
    M.Copied(a, [b] + ([c] + ([d] + s)));
    M.EscapeCopied('u', [a] + ([b] + ([c] + ([d] + s))));
  }

  lemma {:induction false} FourNested(a: char, b: char, c: char, d: char, s: string)
    ensures CodeThen([a, b, c, d], s) == ['\\', 'u'] + ([a] + ([b] + ([c] + ([d] + s))))
  {
  }

  lemma {:induction false} PieceCopied(p: Piece, s: string)
    requires GoodPiece(p)
    ensures CopiedAs(PieceThen(p, s), PieceThen(p, M.MinifyString(s)), s)
  {
    match p
    case Plain(c) => M.Copied(c, s);
    case Letter(c) => M.EscapeCopied(c, s);
    case Code(n, caps) => CodeCopied(n, caps, s);
    case Pair(n, caps, low, lowCaps) =>
      CodeCopied(low, lowCaps, s);
      CodeCopied(n, caps, CodeThen(Spelled(low, lowCaps), s));
  }

  lemma {:induction false} PiecesCopied(ps: seq<Piece>, rest: string)
    requires GoodPieces(ps)
    ensures M.MinifyString(PiecesThen(ps, "\"" + rest)) == PiecesThen(ps, "\"" + M.Minify(rest))
    ensures M.CompleteString(PiecesThen(ps, "\"" + rest)) <==> M.Complete(rest)
  {
    if ps == [] {
      assert ("\"" + rest)[1..] == rest;
    } else {
      PiecesCopied(ps[1..], rest);
      PieceCopied(ps[0], PiecesThen(ps[1..], "\"" + rest));
    }
  }

  lemma {:induction false} LiteralKept(ps: seq<Piece>, rest: string)
    requires GoodPieces(ps)
    ensures Minified(LiteralThen(ps, rest), LiteralThen(ps, M.Minify(rest)), rest)
  {
    var s := LiteralThen(ps, rest);
    assert s[0] == '\"' && s[1..] == PiecesThen(ps, "\"" + rest);
    PiecesCopied(ps, rest);
  }

  /** A text, whatever follows it, is minified to the same text without its gaps. */
  lemma {:induction false} TextMinified(x: Syntax, rest: string)
    requires Good(x, true)
    ensures Minified(TextThen(x, rest), TextThen(Stripped(x), M.Minify(rest)), rest)
    decreases x, 1
  {
    match x
    case Word(t) => M.WordKept(if t.Null? then "null" else if t.True? then "true" else "false", rest);
    case Numeral(n) => M.NumberKept(n, rest);
    case MinusZero => M.WordKept("-0", rest);
    case Literal(ps) => LiteralKept(ps, rest);
    case Brackets(gap, items) => BracketsMinified(gap, items, rest);
    case Braces(gap, entries) => BracesMinified(gap, entries, rest);
  }

  lemma {:induction false} BracketsMinified(gap: Gap, items: seq<Item>, rest: string)
    requires GoodGap(gap, true) && GoodItems(items, true)
    ensures var x := Brackets(gap, items); Minified(TextThen(x, rest), TextThen(Stripped(x), M.Minify(rest)), rest)
    decreases items, 3
  {
    if items == [] {
      M.Kept(']', rest);
      GapDropped(gap, [']'] + rest);
      M.Kept('[', GapThen(gap, [']'] + rest));
    } else {
      ItemsMinified(items, rest);
      M.Kept('[', ItemsText(items, rest));
    }
  }

  lemma {:induction false} ItemMinified(i: Item, rest: string)
    requires GoodItem(i, true)
    ensures Minified(ItemThen(i, rest), ItemThen(StrippedItem(i), M.Minify(rest)), rest)
    decreases i, 0
  {
    GapDropped(i.behind, rest);
    TextMinified(i.value, GapThen(i.behind, rest));
    GapDropped(i.before, TextThen(i.value, GapThen(i.behind, rest)));
  }

  lemma {:induction false} ItemsMinified(items: seq<Item>, rest: string)
    requires items != [] && GoodItems(items, true)
    ensures Minified(ItemsText(items, rest), ItemsText(StrippedItems(items), M.Minify(rest)), rest)
    decreases items, 2
  {
    var i, others := items[0], items[1..];
    var tail := if |items| == 1 then [']'] + rest else [','] + ItemsText(others, rest);
    ItemMinified(i, tail);
    assert StrippedItems(items)[1..] == StrippedItems(others);
    if |items| == 1 {
      M.Kept(']', rest);
      assert StrippedItems(others) == [];
    } else {
      ItemsMinified(others, rest);
      M.Kept(',', ItemsText(others, rest));
      assert StrippedItems(others) != [];
    }
  }

  lemma {:induction false} BracesMinified(gap: Gap, entries: seq<Entry>, rest: string)
    requires GoodGap(gap, true) && GoodEntries(entries, true)
    ensures var x := Braces(gap, entries); Minified(TextThen(x, rest), TextThen(Stripped(x), M.Minify(rest)), rest)
    decreases entries, 3
  {
    if entries == [] {
      M.Kept('}', rest);
      GapDropped(gap, ['}'] + rest);
      M.Kept('{', GapThen(gap, ['}'] + rest));
    } else {
      EntriesMinified(entries, rest);
      M.Kept('{', EntriesText(entries, rest));
    }
  }

  lemma {:induction false} EntryMinified(e: Entry, rest: string)
    requires GoodEntry(e, true)
    ensures Minified(EntryThen(e, rest), EntryThen(Entry([], e.key, [], StrippedItem(e.item)), M.Minify(rest)), rest)
    decreases e, 0
  {
    var value := ItemThen(e.item, rest);
    var colon := GapThen(e.between, [':'] + value);
    ItemMinified(e.item, rest);
    M.Kept(':', value);
    GapDropped(e.between, [':'] + value);
    LiteralKept(e.key, colon);
    GapDropped(e.before, LiteralThen(e.key, colon));
  }

  lemma {:induction false} EntriesMinified(entries: seq<Entry>, rest: string)
    requires entries != [] && GoodEntries(entries, true)
    ensures Minified(EntriesText(entries, rest), EntriesText(StrippedEntries(entries), M.Minify(rest)), rest)
    decreases entries, 2
  {
    var e, others := entries[0], entries[1..];
    var tail := if |entries| == 1 then ['}'] + rest else [','] + EntriesText(others, rest);
    EntryMinified(e, tail);
    assert StrippedEntries(entries)[1..] == StrippedEntries(others);
    if |entries| == 1 {
      M.Kept('}', rest);
      assert StrippedEntries(others) == [];
    } else {
      EntriesMinified(others, rest);
      M.Kept(',', EntriesText(others, rest));
      assert StrippedEntries(others) != [];
    }
  }

  // The text without gaps stands for the same tree.

  lemma {:induction false} StrippedStands(x: Syntax)
    requires Good(x, true)
    ensures Good(Stripped(x), false) && Tree(Stripped(x)) == Tree(x)
    decreases x, 1
  {
    match x
    case Brackets(_, items) => StrippedItemsStand(items);
    case Braces(_, entries) => StrippedEntriesStand(entries);
    case _ =>
  }

  lemma {:induction false} StrippedItemsStand(items: seq<Item>)
    requires GoodItems(items, true)
    ensures GoodItems(StrippedItems(items), false) && Trees(StrippedItems(items)) == Trees(items)
    decreases items, 0
  {
    if items != [] {
      assert GoodItem(items[0], true);
      StrippedStands(items[0].value);
      StrippedItemsStand(items[1..]);
      ItemInFront(StrippedItem(items[0]), StrippedItems(items[1..]));
    }
  }

  lemma {:induction false} ItemInFront(i: Item, items: seq<Item>)
    requires GoodItem(i, false) && GoodItems(items, false)
    ensures GoodItems([i] + items, false) && Trees([i] + items) == [Tree(i.value)] + Trees(items)
  {
    assert ([i] + items)[1..] == items;
  }

  lemma {:induction false} StrippedEntriesStand(entries: seq<Entry>)
    requires GoodEntries(entries, true)
    ensures GoodEntries(StrippedEntries(entries), false) && Members(StrippedEntries(entries)) == Members(entries)
    decreases entries, 0
  {
    if entries != [] {
      assert GoodEntry(entries[0], true) && GoodItem(entries[0].item, true);
      StrippedStands(entries[0].item.value);
      StrippedEntriesStand(entries[1..]);
      EntryInFront(Entry([], entries[0].key, [], StrippedItem(entries[0].item)), StrippedEntries(entries[1..]));
    }
  }

  lemma {:induction false} EntryInFront(e: Entry, entries: seq<Entry>)
    requires GoodEntry(e, false) && GoodEntries(entries, false)
    ensures GoodEntries([e] + entries, false)
    ensures Members([e] + entries) == [Member(DenotedAll(e.key), Tree(e.item.value))] + Members(entries)
  {
    assert ([e] + entries)[1..] == entries;
  }

  /** `cJSON_Minify` takes the white space and comments, and nothing else, out of every text; what is left is parsed as
      the tree the text stands for. */
  lemma {:induction false} EveryTextMinifies(before: Gap, x: Syntax, behind: Gap)
    requires GoodItem(Item(before, x, behind), true)
    ensures var s := ItemThen(Item(before, x, behind), "");
            M.Complete(s) && M.Minify(s) == TextThen(Stripped(x), "") && Parse(M.Minify(s)) == Ok(Tree(x), "")
  {
    ItemMinified(Item(before, x, behind), "");
    StrippedStands(x);
    TextParsed(Stripped(x), "");
    TextStarts(Stripped(x), "");
  }
}
