/** `cJSON_Minify`, and the proof that it turns the formatted layout into the unformatted one. */
module JsonMinify {
  import opened JsonText
  import opened JsonBuffer

  predicate IsBlank(c: char) { c == ' ' || c == '\t' || c == '\r' || c == '\n' }

  /** Behind a line comment: the next line break, or the end. */
  function AfterLine(s: string): (r: string)
    ensures |r| <= |s|
  {
    if s == "" || s[0] == '\n' then s else AfterLine(s[1..])
  }

  /** Behind a block comment: two characters on from the next star in front of a slash. */
  function AfterBlock(s: string): (r: string)
    ensures |r| <= |s|
  {
    if s == "" then s else if "*/" <= s then s[2..] else AfterBlock(s[1..])
  }

  /** What is left of a text outside a string literal. */
  function Minify(s: string): (r: string)
    ensures |r| <= |s|
    decreases |s|, 0
  {
    if s == "" then ""
    else if IsBlank(s[0]) then Minify(s[1..])
    else if "//" <= s then Minify(AfterLine(s[1..]))
    else if "/*" <= s then Minify(AfterBlock(s[1..]))
    else [s[0]] + if s[0] == '\"' then MinifyString(s[1..]) else Minify(s[1..])
  }

  /** What is left of a text inside a string literal: everything up to the closing quote. */
  function MinifyString(s: string): (r: string)
    ensures |r| <= |s|
    decreases |s|, 1
  {
    if s == "" then ""
    else if s[0] == '\"' then [s[0]] + Minify(s[1..])
    else if s[0] != '\\' then [s[0]] + MinifyString(s[1..])
    else if |s| == 1 then s
    else [s[0], s[1]] + MinifyString(s[2..])
  }

  /** The texts on which the source does not run past the terminator: no comment, literal or escape is cut short. */
  predicate Complete(s: string)
    decreases |s|, 0
  {
    if s == "" then true
    else if IsBlank(s[0]) then Complete(s[1..])
    else if "//" <= s then Complete(AfterLine(s[1..]))
    else if "/*" <= s then HasEnd(s[1..]) && Complete(AfterBlock(s[1..]))
    else if s[0] == '\"' then CompleteString(s[1..])
    else Complete(s[1..])
  }

  predicate CompleteString(s: string)
    decreases |s|, 1
  {
    if s == "" then false
    else if s[0] == '\"' then Complete(s[1..])
    else if s[0] != '\\' then CompleteString(s[1..])
    else |s| > 1 && CompleteString(s[2..])
  }

  predicate HasEnd(s: string) { s != "" && ("*/" <= s || HasEnd(s[1..])) }

  // ---------------------------------------------------------------- minifying commutes with layout

  lemma {:induction false} Kept(c: char, s: string)
    requires !IsBlank(c) && c != '/' && c != '\"'
    ensures Minify([c] + s) == [c] + Minify(s) && (Complete([c] + s) <==> Complete(s))
  {
  }

  lemma {:induction false} Dropped(c: char, s: string)
    requires IsBlank(c)
    ensures Minify([c] + s) == Minify(s) && (Complete([c] + s) <==> Complete(s))
  {
  }

  lemma {:induction false} BlankDropped(c: char, s: string)
    requires IsBlank(c)
    ensures Minify(BlankThen(true, c, s)) == BlankThen(false, c, Minify(s))
            && (Complete(BlankThen(true, c, s)) <==> Complete(s))
  {
  }

  lemma {:induction false} TabsDropped(n: int, s: string)
    ensures Minify(TabsThen(n, s)) == Minify(s) && (Complete(TabsThen(n, s)) <==> Complete(s))
  {
    if n > 0 {
      Dropped('\t', TabsThen(n - 1, s));
      TabsDropped(n - 1, s);
    }
  }

  lemma {:induction false} IndentDropped(n: int, s: string)
    ensures Minify(IndentThen(true, n, s)) == IndentThen(false, n, Minify(s))
            && (Complete(IndentThen(true, n, s)) <==> Complete(s))
  {
    TabsDropped(n, s);
  }

  lemma {:induction false} HeadSplit(w: string, s: string)
    requires w != ""
    ensures w + s == [w[0]] + (w[1..] + s)
  {
  }

  lemma {:induction false} WordKept(w: string, s: string)
    requires forall i :: 0 <= i < |w| ==> !IsBlank(w[i]) && w[i] != '/' && w[i] != '\"'
    ensures Minify(w + s) == w + Minify(s) && (Complete(w + s) <==> Complete(s))
  {
    if w == "" {
      assert w + s == s;
    } else {
      var c, v := w[0], w[1..];
      WordKept(v, s);
      Kept(c, v + s);
      HeadSplit(w, s);
      HeadSplit(w, Minify(s));
    }
  }

  lemma {:induction false} NumberKept(n: int, s: string)
    ensures Minify(PrintNumber(n) + s) == PrintNumber(n) + Minify(s) && (Complete(PrintNumber(n) + s) <==> Complete(s))
  {
    DigitsOnly(if n < 0 then -n else n);
    WordKept(PrintNumber(n), s);
  }

  lemma {:induction false} DigitsOnly(n: nat)
    ensures forall i :: 0 <= i < |Decimal(n)| ==> '0' <= Decimal(n)[i] <= '9'
  {
    if n >= 10 { DigitsOnly(n / 10); }
  }

  /** Inside a literal everything is copied. */
  lemma {:induction false} Copied(c: char, s: string)
    requires c != '\"' && c != '\\'
    ensures MinifyString([c] + s) == [c] + MinifyString(s) && (CompleteString([c] + s) <==> CompleteString(s))
  {
  }

  lemma {:induction false} EscapeCopied(c: char, s: string)
    ensures MinifyString(['\\', c] + s) == ['\\', c] + MinifyString(s)
            && (CompleteString(['\\', c] + s) <==> CompleteString(s))
  {
  }

  lemma {:induction false} CodeNested(x: char, y: char, s: string)
    ensures "\\u00" + [x, y] + s == ['\\', 'u'] + (['0'] + (['0'] + ([x] + ([y] + s))))
  {
  }

  lemma {:induction false} CodeCopied(x: char, y: char, s: string)
    requires x != '\"' && x != '\\' && y != '\"' && y != '\\'
    ensures MinifyString("\\u00" + [x, y] + s) == "\\u00" + [x, y] + MinifyString(s)
    ensures CompleteString("\\u00" + [x, y] + s) <==> CompleteString(s)
  {
    CodeNested(x, y, s);
    CodeNested(x, y, MinifyString(s));
    Copied(y, s);
    Copied(x, [y] + s);
    Copied('0', [x] + ([y] + s));
    Copied('0', ['0'] + ([x] + ([y] + s)));
    EscapeCopied('u', ['0'] + (['0'] + ([x] + ([y] + s))));
  }

  /** The three shapes of a printed character. */
  lemma {:induction false} EscapeShape(c: char) returns (x: char, y: char)
    ensures var e := EscapeChar(c);
            || (e == [c] && c != '\"' && c != '\\')
            || e == ['\\', x]
            || (e == "\\u00" + [x, y] && x != '\"' && x != '\\' && y != '\"' && y != '\\')
  {
    var e := EscapeChar(c);
    if |e| == 2 {
      x, y := e[1], 'u';
    } else if |e| > 2 {
      x, y := e[4], e[5];
    } else {
      x, y := c, c;
    }
  }

  lemma {:induction false} CharCopied(c: char, s: string)
    ensures MinifyString(EscapeChar(c) + s) == EscapeChar(c) + MinifyString(s)
    ensures CompleteString(EscapeChar(c) + s) <==> CompleteString(s)
  {
    var x, y := EscapeShape(c);
    var e := EscapeChar(c);
    if e == [c] && c != '\"' && c != '\\' {
      Copied(c, s);
    } else if e == ['\\', x] {
      EscapeCopied(x, s);
    } else {
      CodeCopied(x, y, s);
    }
  }

  lemma {:induction false} LiteralCopied(s: string, rest: string)
    ensures MinifyString(EscapeThen(s, ['\"'] + rest)) == EscapeThen(s, ['\"'] + Minify(rest))
    ensures CompleteString(EscapeThen(s, ['\"'] + rest)) <==> Complete(rest)
  {
    if s == "" {
      assert (['\"'] + rest)[1..] == rest;
    } else {
      LiteralCopied(s[1..], rest);
      CharCopied(s[0], EscapeThen(s[1..], ['\"'] + rest));
    }
  }

  lemma {:induction false} StringKept(s: string, rest: string)
    ensures Minify(StringThen(s, rest)) == StringThen(s, Minify(rest))
            && (Complete(StringThen(s, rest)) <==> Complete(rest))
  {
    var t := StringThen(s, rest);
    assert t[0] == '\"' && t[1..] == EscapeThen(s, ['\"'] + rest);
    LiteralCopied(s, rest);
  }

  /** Minifying the formatted text of a value, whatever follows it, gives its unformatted text. */
  lemma {:induction false} ValueMinified(t: Json, depth: nat, rest: string)
    ensures Minify(ValueThen(t, depth, true, rest)) == ValueThen(t, depth, false, Minify(rest))
    ensures Complete(ValueThen(t, depth, true, rest)) <==> Complete(rest)
    decreases t, 1
  {
    match t
    case Null => WordKept("null", rest);
    case False => WordKept("false", rest);
    case True => WordKept("true", rest);
    case Number(n) => NumberKept(n, rest);
    case String(s) => StringKept(s, rest);
    case Array(items) =>
      Kept(']', rest);
      if items == [] {
        Kept('[', [']'] + rest);
      } else {
        ItemsMinified(items, depth + 1, [']'] + rest);
        Kept('[', ItemsThen(items, depth + 1, true, [']'] + rest));
      }
    case Object(members) =>
      Kept('}', rest);
      BodyMinified(members, depth, ['}'] + rest);
      BlankDropped('\n', BodyThen(members, depth, true, ['}'] + rest));
      Kept('{', BlankThen(true, '\n', BodyThen(members, depth, true, ['}'] + rest)));
  }

  lemma {:induction false} ItemsMinified(items: seq<Json>, depth: nat, rest: string)
    requires items != []
    ensures Minify(ItemsThen(items, depth, true, rest)) == ItemsThen(items, depth, false, Minify(rest))
    ensures Complete(ItemsThen(items, depth, true, rest)) <==> Complete(rest)
    decreases items, 0
  {
    ItemsTailMinified(items[1..], depth, rest);
    ValueMinified(items[0], depth, ItemsTail(items[1..], depth, true, rest));
  }

  lemma {:induction false} ItemsTailMinified(items: seq<Json>, depth: nat, rest: string)
    ensures Minify(ItemsTail(items, depth, true, rest)) == ItemsTail(items, depth, false, Minify(rest))
    ensures Complete(ItemsTail(items, depth, true, rest)) <==> Complete(rest)
    decreases items, 1
  {
    if items != [] {
      ItemsMinified(items, depth, rest);
      BlankDropped(' ', ItemsThen(items, depth, true, rest));
      Kept(',', BlankThen(true, ' ', ItemsThen(items, depth, true, rest)));
    }
  }

  lemma {:induction false} BodyMinified(members: seq<Member>, depth: nat, close: string)
    ensures Minify(BodyThen(members, depth, true, close)) == BodyThen(members, depth, false, Minify(close))
    ensures Complete(BodyThen(members, depth, true, close)) <==> Complete(close)
    decreases members, 2
  {
    IndentDropped(depth - 1, close);
    IndentDropped(depth, close);
    if members != [] { MembersMinified(members, depth + 1, IndentThen(true, depth, close)); }
  }

  lemma {:induction false} MembersMinified(members: seq<Member>, depth: nat, rest: string)
    requires members != []
    ensures Minify(MembersThen(members, depth, true, rest)) == MembersThen(members, depth, false, Minify(rest))
    ensures Complete(MembersThen(members, depth, true, rest)) <==> Complete(rest)
    decreases members, 0
  {
    MembersTailMinified(members[1..], depth, rest);
    MemberMinified(members[0], depth, MembersTail(members[1..], depth, true, rest));
  }

  lemma {:induction false} MembersTailMinified(members: seq<Member>, depth: nat, rest: string)
    ensures Minify(MembersTail(members, depth, true, rest)) == MembersTail(members, depth, false, Minify(rest))
    ensures Complete(MembersTail(members, depth, true, rest)) <==> Complete(rest)
    decreases members, 1
  {
    if members == [] {
      BlankDropped('\n', rest);
    } else {
      MembersMinified(members, depth, rest);
      BlankDropped('\n', MembersThen(members, depth, true, rest));
      Kept(',', BlankThen(true, '\n', MembersThen(members, depth, true, rest)));
    }
  }

  lemma {:induction false} MemberMinified(m: Member, depth: nat, rest: string)
    ensures Minify(MemberThen(m, depth, true, rest)) == MemberThen(m, depth, false, Minify(rest))
    ensures Complete(MemberThen(m, depth, true, rest)) <==> Complete(rest)
    decreases m, 1
  {
    var value := ValueThen(m.value, depth, true, rest);
    ValueMinified(m.value, depth, rest);
    BlankDropped('\t', value);
    Kept(':', BlankThen(true, '\t', value));
    StringKept(m.key, [':'] + BlankThen(true, '\t', value));
    IndentDropped(depth, StringThen(m.key, [':'] + BlankThen(true, '\t', value)));
  }

  /** Minifying commutes with layout. */
  lemma {:induction false} MinifyOfPrint(t: Json)
    ensures Complete(Print(t, true)) && Minify(Print(t, true)) == Print(t, false)
  {
    ValueMinified(t, 0, "");
  }

  // ---------------------------------------------------------------- in place

  /** The part of the text that is still to be read, with its terminator. */
  ghost predicate Unread(a: array<char>, s: string, json: nat)
    reads a
  {
    json <= |s| < a.Length && NoNul(s) && (forall i :: json <= i < |s| ==> a[i] == s[i]) && a[|s|] == NUL
  }

  /** The write cursor has not passed the read cursor, and what was written and what is still to be read make up
      `result`. */
  ghost predicate Outside(a: array<char>, s: string, into: nat, json: nat, result: string)
    reads a
  {
    Unread(a, s, json) && into <= json && a[..into] + Minify(s[json..]) == result && Complete(s[json..])
  }

  ghost predicate Inside(a: array<char>, s: string, into: nat, json: nat, result: string)
    reads a
  {
    Unread(a, s, json) && into <= json && a[..into] + MinifyString(s[json..]) == result && CompleteString(s[json..])
  }

  /** The loop over a line comment. */
  method SkipLine(a: array<char>, json: nat, ghost s: string) returns (j: nat)
    requires Unread(a, s, json)
    ensures json <= j <= |s| && s[j..] == AfterLine(s[json..])
  {
    j := json;
    while a[j] != NUL && a[j] != '\n'
      invariant json <= j <= |s| && AfterLine(s[j..]) == AfterLine(s[json..])
      decreases |s| - j
    {
      assert s[j..][1..] == s[j + 1..];
      j := j + 1;
    }
  }

  lemma {:induction false} AtPair(s: string, j: nat, c: char, d: char)
    requires j < |s|
    ensures [c, d] <= s[j..] <==> j + 1 < |s| && s[j] == c && s[j + 1] == d
    ensures s[j..][1..] == s[j + 1..]
  {
  }

  /** The loop over a block comment. */
  method SkipBlock(a: array<char>, json: nat, ghost s: string) returns (j: nat)
    requires Unread(a, s, json) && HasEnd(s[json..])
    ensures json <= j <= |s| && s[j..] == AfterBlock(s[json..])
  {
    j := json;
    while a[j] != NUL && !(a[j] == '*' && a[j + 1] == '/')
      invariant json <= j <= |s| && AfterBlock(s[j..]) == AfterBlock(s[json..]) && HasEnd(s[j..])
      decreases |s| - j
    {
      AtPair(s, j, '*', '/');
      j := j + 1;
    }
    AtPair(s, j, '*', '/');
    assert s[j..][2..] == s[j + 2..];
    j := j + 2;
  }

  /** The assignment `*into++ = *json++`. */
  method Move(a: array<char>, into: nat, json: nat, ghost s: string)
    requires Unread(a, s, json) && into <= json < |s|
    modifies a
    ensures Unread(a, s, json + 1) && a[..into + 1] == old(a[..into]) + [s[json]]
  {
    a[into] := a[json];
  }

  /** The body of the loop over a string literal: a character, or a backslash and a character. */
  method CopyChar(a: array<char>, into0: nat, json0: nat, ghost s: string, ghost result: string)
    returns (into: nat, json: nat)
    requires Inside(a, s, into0, json0, result) && json0 < |s| && a[json0] != '\"'
    modifies a
    ensures json0 < json && Inside(a, s, into, json, result)
  {
    ghost var rest, was := s[json0..], a[..into0];
    into, json := into0, json0;
    if a[json0] == '\\' {
      assert rest[2..] == s[json0 + 2..];
      ghost var more := MinifyString(rest[2..]);
      Move(a, into, json, s);
      into, json := into + 1, json + 1;
      assert [rest[0], rest[1]] + more == [rest[0]] + ([rest[1]] + more);
      Assoc(was, [rest[0]], [rest[1]] + more);
      Assoc(was + [rest[0]], [rest[1]], more);
    } else {
      assert rest[1..] == s[json0 + 1..];
      Assoc(was, [rest[0]], MinifyString(rest[1..]));
    }
    Move(a, into, json, s);
    into, json := into + 1, json + 1;
  }

  /** The loop over a string literal, behind its opening quote. */
  method CopyString(a: array<char>, into0: nat, json0: nat, ghost s: string, ghost result: string)
    returns (into: nat, json: nat)
    requires Inside(a, s, into0, json0, result)
    modifies a
    ensures json0 < json && Outside(a, s, into, json, result)
  {
    into, json := into0, json0;
    while a[json] != NUL && a[json] != '\"'
      invariant json0 <= json && Inside(a, s, into, json, result)
      decreases |s| - json
    {
      into, json := CopyChar(a, into, json, s, result);
    }
    CopyQuote(a, into, json, s, result);
    into, json := into + 1, json + 1;
  }

  /** The closing quote of a string literal. */
  method CopyQuote(a: array<char>, into: nat, json: nat, ghost s: string, ghost result: string)
    requires Inside(a, s, into, json, result) && json < |s| && s[json] == '\"'
    modifies a
    ensures Outside(a, s, into + 1, json + 1, result)
  {
    ghost var rest, was := s[json..], a[..into];
    assert rest[1..] == s[json + 1..];
    Assoc(was, [rest[0]], Minify(rest[1..]));
    Move(a, into, json, s);
  }

  /** `cJSON_Minify`. */
  method MinifyInPlace(a: array<char>, ghost s: string)
    requires Unread(a, s, 0) && Complete(s)
    modifies a
    ensures |Minify(s)| < a.Length && a[..|Minify(s)|] == Minify(s) && a[|Minify(s)|] == NUL
  {
    var into: nat, json: nat := 0, 0;
    assert s[0..] == s && a[..0] + Minify(s) == Minify(s);
    while a[json] != NUL
      invariant Outside(a, s, into, json, Minify(s))
      decreases |s| - json
    {
      into, json := MinifyStep(a, into, json, s, Minify(s));
    }
    a[into] := NUL;
  }

  /** What is left of a text, by how it goes on at `j`. */
  lemma {:induction false} StepMeans(s: string, j: nat)
    requires j < |s| && Complete(s[j..])
    ensures var m, more, slash := Minify(s[j..]), s[j + 1..], s[j] == '/' && j + 1 < |s|;
            if IsBlank(s[j]) then m == Minify(more) && Complete(more)
            else if slash && s[j + 1] == '/' then m == Minify(AfterLine(more)) && Complete(AfterLine(more))
            else if slash && s[j + 1] == '*' then m == Minify(AfterBlock(more)) && HasEnd(more)
              && Complete(AfterBlock(more))
            else s[j] != '\"' ==> m == [s[j]] + Minify(more) && Complete(more)
  {
    AtPair(s, j, '/', '/');
    AtPair(s, j, '/', '*');
  }

  /** The body of the loop of `cJSON_Minify`. */
  method MinifyStep(a: array<char>, into0: nat, json0: nat, ghost s: string, ghost result: string)
    returns (into: nat, json: nat)
    requires Outside(a, s, into0, json0, result) && json0 < |s|
    modifies a
    ensures json0 < json && Outside(a, s, into, json, result)
  {
    StepMeans(s, json0);
    into, json := into0, json0 + 1;
    if IsBlank(a[json0]) {
    } else if a[json0] == '/' && a[json0 + 1] == '/' {
      json := SkipLine(a, json0 + 1, s);
    } else if a[json0] == '/' && a[json0 + 1] == '*' {
      json := SkipBlock(a, json0 + 1, s);
    } else if a[json0] == '\"' {
      into, json := MinifyLiteral(a, into0, json0, s, result);
    } else {
      MinifyOther(a, into0, json0, s, result);
      into := into0 + 1;
    }
  }

  /** The branch for any other character. */
  method MinifyOther(a: array<char>, into: nat, json: nat, ghost s: string, ghost result: string)
    requires Outside(a, s, into, json, result) && json < |s| && Minify(s[json..]) == [s[json]] + Minify(s[json + 1..])
    requires Complete(s[json + 1..])
    modifies a
    ensures Outside(a, s, into + 1, json + 1, result)
  {
    ghost var was := a[..into];
    Assoc(was, [s[json]], Minify(s[json + 1..]));
    Move(a, into, json, s);
  }

  /** The branch for a string literal. */
  method MinifyLiteral(a: array<char>, into0: nat, json0: nat, ghost s: string, ghost result: string)
    returns (into: nat, json: nat)
    requires Outside(a, s, into0, json0, result) && json0 < |s| && s[json0] == '\"'
    modifies a
    ensures json0 < json && Outside(a, s, into, json, result)
  {
    ghost var rest, was := s[json0..], a[..into0];
    assert rest[1..] == s[json0 + 1..];
    Assoc(was, [rest[0]], MinifyString(rest[1..]));
    Move(a, into0, json0, s);
    into, json := CopyString(a, into0 + 1, json0 + 1, s, result);
  }
}
