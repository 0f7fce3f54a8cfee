/** Reading the lines of a file from the end, chunk by chunk. */
module ReverseReader {

  /** `str.split('\n')`. */
  function Split(s: string): (lines: seq<string>)
    ensures lines != []
  {
    if s == "" then [""]
    else
      var rest := Split(s[1..]);
      if s[0] == '\n' then [""] + rest else [[s[0]] + rest[0]] + rest[1..]
  }

  /** The lines with a line end between them. */
  ghost function Join(lines: seq<string>): string
    requires lines != []
  {
    if |lines| == 1 then lines[0] else lines[0] + ("\n" + Join(lines[1..]))
  }

  ghost predicate NoLineEnd(line: string) { '\n' !in line }

  /** Splitting gives the lines of a text: put together again they are the text, and none has a line end in it. */
  lemma {:induction false} SplitIsLines(s: string)
    ensures Join(Split(s)) == s && forall i :: 0 <= i < |Split(s)| ==> NoLineEnd(Split(s)[i])
  {
    if s != "" {
      var rest := Split(s[1..]);
      SplitIsLines(s[1..]);
      if s[0] == '\n' {
        assert ([""] + rest)[1..] == rest;
        assert "" + ("\n" + s[1..]) == s;
      } else {
        var lines := [[s[0]] + rest[0]] + rest[1..];
        assert lines[1..] == rest[1..] && NoLineEnd(rest[0]);
        if |rest| > 1 {
          var more := "\n" + Join(rest[1..]);
          assert [s[0]] + (rest[0] + more) == ([s[0]] + rest[0]) + more;
        }
        assert [s[0]] + s[1..] == s;
      }
    }
  }

  /** There is only one way to split a text into lines. */
  lemma {:induction false} LinesAreSplit(lines: seq<string>)
    requires lines != [] && forall i :: 0 <= i < |lines| ==> NoLineEnd(lines[i])
    ensures Split(Join(lines)) == lines
  {
    if |lines| == 1 {
      LineSplit(lines[0], "");
      assert lines[0] + "" == lines[0] && lines == [lines[0]];
    } else {
      LinesAreSplit(lines[1..]);
      LineSplit(lines[0], "\n" + Join(lines[1..]));
      assert ("\n" + Join(lines[1..]))[1..] == Join(lines[1..]) && lines == [lines[0]] + lines[1..];
    }
  }

  lemma {:induction false} LineSplit(line: string, rest: string)
    requires NoLineEnd(line) && (rest == "" || rest[0] == '\n')
    ensures Split(line + rest) == [line] + if rest == "" then [] else Split(rest[1..])
  {
    if line == "" {
      assert line + rest == rest;
      if rest == "" { assert [line] + [] == [""]; }
    } else {
      assert NoLineEnd(line[1..]) && line[0] != '\n';
      LineSplit(line[1..], rest);
      assert line + rest == [line[0]] + (line[1..] + rest);
      LineLonger(line[0], line[1..] + rest, line, if rest == "" then [] else Split(rest[1..]));
    }
  }

  lemma {:induction false} LineLonger(c: char, s: string, line: string, more: seq<string>)
    requires c != '\n' && line != "" && line[0] == c && Split(s) == [line[1..]] + more
    ensures Split([c] + s) == [line] + more
  {
    assert ([c] + s)[1..] == s && ([line[1..]] + more)[1..] == more && [c] + line[1..] == line;
  }

  function NonEmpty(lines: seq<string>): seq<string> {
    if lines == [] then [] else (if lines[0] == "" then [] else [lines[0]]) + NonEmpty(lines[1..])
  }

  function Reversed(lines: seq<string>): seq<string> {
    if lines == [] then [] else Reversed(lines[1..]) + [lines[0]]
  }

  // ---------------------------------------------------------------- the reference functions

  lemma {:induction false} NonEmptyConcat(a: seq<string>, b: seq<string>)
    ensures NonEmpty(a + b) == NonEmpty(a) + NonEmpty(b)
  {
    if a == [] {
      assert a + b == b;
    } else {
      assert (a + b)[1..] == a[1..] + b;
      NonEmptyConcat(a[1..], b);
    }
  }

  lemma {:induction false} ReversedConcat(a: seq<string>, b: seq<string>)
    ensures Reversed(a + b) == Reversed(b) + Reversed(a)
  {
    if a == [] {
      assert a + b == b;
    } else {
      assert (a + b)[1..] == a[1..] + b;
      ReversedConcat(a[1..], b);
    }
  }

  /** Splitting a text in two places a line over the boundary. */
  ghost function Joined(a: seq<string>, b: seq<string>): seq<string>
    requires a != [] && b != []
  {
    a[..|a| - 1] + ([a[|a| - 1] + b[0]] + b[1..])
  }

  lemma {:induction false} SplitConcat(s: string, t: string)
    ensures Split(s + t) == Joined(Split(s), Split(t))
  {
    var b := Split(t);
    if s == "" {
      assert s + t == t;
      JoinedEmpty(b);
    } else {
      SplitConcat(s[1..], t);
      assert (s + t)[1..] == s[1..] + t;
      JoinedHead(s[0], Split(s[1..]), b);
      assert Split(s) == Headed(s[0], Split(s[1..])) && Split(s + t) == Headed(s[0], Split(s[1..] + t));
    }
  }

  lemma {:induction false} JoinedEmpty(b: seq<string>)
    requires b != []
    ensures Joined([""], b) == b
  {
    JoinedOne("", b);
    assert "" + b[0] == b[0];
  }

  ghost function Headed(c: char, lines: seq<string>): seq<string>
    requires lines != []
  {
    if c == '\n' then [""] + lines else [[c] + lines[0]] + lines[1..]
  }

  lemma {:induction false} JoinedHead(c: char, a: seq<string>, b: seq<string>)
    requires a != [] && b != []
    ensures Headed(c, a) != [] && Headed(c, Joined(a, b)) == Joined(Headed(c, a), b)
  {
    if c == '\n' {
      JoinedTail("", a, b);
    } else if |a| == 1 {
      assert a == [a[0]] && Headed(c, a) == [[c] + a[0]];
      JoinedOne(a[0], b);
      JoinedOne([c] + a[0], b);
      assert [c] + (a[0] + b[0]) == ([c] + a[0]) + b[0];
    } else {
      assert a == [a[0]] + a[1..];
      JoinedTail(a[0], a[1..], b);
      JoinedTail([c] + a[0], a[1..], b);
    }
  }

  lemma {:induction false} JoinedOne(x: string, b: seq<string>)
    requires b != []
    ensures Joined([x], b) == [x + b[0]] + b[1..]
  {
  }

  lemma {:induction false} JoinedTail(x: string, a: seq<string>, b: seq<string>)
    requires a != [] && b != []
    ensures Joined([x] + a, b) == [x] + Joined(a, b)
  {
    assert ([x] + a)[..|a|] == [x] + a[..|a| - 1];
  }

  // ---------------------------------------------------------------- the reader

  datatype Segment = None | Some(text: string)

  function Text(s: Segment): string { if s.None? then "" else s.text }

  function Min(a: int, b: int): int { if a < b then a else b }

  /** What has been read and yielded so far, from offset `p` of the file to its end. */
  ghost predicate ReadFrom(content: string, p: nat, segment: Segment, out: seq<string>)
    requires p <= |content|
  {
    var lines := Split(content[p..]);
    && (segment.None? ==> p == |content|)
    && Text(segment) == lines[0]
    && NonEmpty(out) == Reversed(NonEmpty(lines[1..]))
  }

  lemma {:induction false} Yielded(out: seq<string>, line: string)
    ensures NonEmpty(out + [line]) == NonEmpty(out) + (if line == "" then [] else [line])
  {
    NonEmptyConcat(out, [line]);
  }

  /** The loop over the lines of a chunk. */
  method YieldLines(lines: seq<string>, out: seq<string>) returns (out': seq<string>)
    requires lines != []
    ensures NonEmpty(out') == NonEmpty(out) + Reversed(NonEmpty(lines[1..]))
  {
    out' := out;
    var index := |lines| - 1;
    assert lines[index + 1..] == [];
    while index > 0
      invariant 0 <= index < |lines|
      invariant NonEmpty(out') == NonEmpty(out) + Reversed(NonEmpty(lines[index + 1..]))
    {
      assert lines[index..][1..] == lines[index + 1..];
      LineReversed(lines[index], lines[index + 1..]);
      if lines[index] != "" {
        Yielded(out', lines[index]);
        out' := out' + [lines[index]];
      }
      index := index - 1;
    }
  }

  lemma {:induction false} LineReversed(line: string, rest: seq<string>)
    ensures Reversed(NonEmpty([line] + rest)) == Reversed(NonEmpty(rest)) + (if line == "" then [] else [line])
  {
    assert ([line] + rest)[1..] == rest;
    if line != "" {
      ReversedConcat([line], NonEmpty(rest));
    } else {
      assert [] + NonEmpty(rest) == NonEmpty(rest);
    }
  }

  lemma {:induction false} EndsLine(s: string)
    requires s != ""
    ensures s[|s| - 1] == '\n' <==> Split(s)[|Split(s)| - 1] == "" && |Split(s)| > 1
  {
    if |s| > 1 {
      EndsLine(s[1..]);
    } else {
      assert s[1..] == "";
    }
  }

  /** A chunk that ends a line: the segment is a line of its own. */
  lemma {:induction false} SegmentAlone(lines: seq<string>, text: string)
    requires |lines| > 1 && lines[|lines| - 1] == ""
    ensures var j := Joined(lines, [text]);
            j[0] == lines[0] && Reversed(NonEmpty(j[1..]))
              == (if text == "" then [] else [text]) + Reversed(NonEmpty(lines[1..]))
  {
    var middle := lines[1..|lines| - 1];
    assert "" + text == text;
    assert Joined(lines, [text])[1..] == middle + [text] && lines[1..] == middle + [""];
    NonEmptyConcat(middle, [text]);
    NonEmptyConcat(middle, [""]);
    assert [""][1..] == [] && [text][1..] == [];
    assert NonEmpty([""]) == [] && NonEmpty([text]) == if text == "" then [] else [text];
    assert NonEmpty(middle) + [] == NonEmpty(middle);
    if text != "" {
      ReversedConcat(NonEmpty(middle), [text]);
      assert Reversed([text]) == [text];
    }
  }

  lemma {:induction false} JoinedNothing(lines: seq<string>)
    requires lines != []
    ensures Joined(lines, [""]) == lines
  {
    assert lines[|lines| - 1] + "" == lines[|lines| - 1];
  }

  lemma {:induction false} LastLonger(lines: seq<string>, text: string)
    requires lines != []
    ensures Joined(lines, [text]) == lines[..|lines| - 1] + [lines[|lines| - 1] + text]
  {
  }

  /** The segment read before is put behind the last line of a chunk, or yielded. */
  method JoinSegment(buffer: string, segment: Segment, out: seq<string>) returns (lines: seq<string>, out': seq<string>)
    requires buffer != ""
    ensures var j := Joined(Split(buffer), [Text(segment)]);
            && lines != [] && lines[0] == j[0]
            && NonEmpty(out') + Reversed(NonEmpty(lines[1..])) == NonEmpty(out) + Reversed(NonEmpty(j[1..]))
  {
    lines, out' := Split(buffer), out;
    if segment.None? {
      JoinedNothing(lines);
    } else if buffer[|buffer| - 1] != '\n' {
      LastLonger(lines, segment.text);
      lines := lines[..|lines| - 1] + [lines[|lines| - 1] + segment.text];
    } else {
      EndsLine(buffer);
      SegmentAlone(lines, segment.text);
      Yielded(out, segment.text);
      out' := out + [segment.text];
    }
  }

  /** The lines of one chunk, the last one continued by the segment read before. */
  method ReadChunk(buffer: string, segment: Segment, out: seq<string>) returns (segment': Segment, out': seq<string>)
    requires buffer != ""
    ensures var lines := Joined(Split(buffer), [Text(segment)]);
            segment' == Some(lines[0]) && NonEmpty(out') == NonEmpty(out) + Reversed(NonEmpty(lines[1..]))
  {
    var lines;
    lines, out' := JoinSegment(buffer, segment, out);
    out' := YieldLines(lines, out');
    segment' := Some(lines[0]);
  }

  lemma {:induction false} LinesBehind(a: seq<string>, b: seq<string>)
    requires a != [] && b != []
    ensures var lines := Joined(a, [b[0]]);
            Joined(a, b)[0] == lines[0]
            && Reversed(NonEmpty(Joined(a, b)[1..])) == Reversed(NonEmpty(b[1..])) + Reversed(NonEmpty(lines[1..]))
  {
    var lines := Joined(a, [b[0]]);
    assert Joined(a, b) == lines + b[1..];
    assert (lines + b[1..])[1..] == lines[1..] + b[1..];
    NonEmptyConcat(lines[1..], b[1..]);
    ReversedConcat(NonEmpty(lines[1..]), NonEmpty(b[1..]));
  }

  /** What a chunk adds. */
  lemma {:induction false} ChunkRead(content: string, p: nat, q: nat, segment: Segment, out: seq<string>,
                                     out': seq<string>)
    requires p < q <= |content| && ReadFrom(content, q, segment, out)
    requires var lines := Joined(Split(content[p..q]), [Text(segment)]);
             NonEmpty(out') == NonEmpty(out) + Reversed(NonEmpty(lines[1..]))
    ensures ReadFrom(content, p, Some(Joined(Split(content[p..q]), [Text(segment)])[0]), out')
  {
    assert content[p..] == content[p..q] + content[q..];
    SplitConcat(content[p..q], content[q..]);
    LinesBehind(Split(content[p..q]), Split(content[q..]));
  }

  /** One turn of the loop of `reverse_readline`: the chunk of `len` characters at `p`. */
  method ReadAt(content: string, p: nat, len: nat, segment: Segment, out: seq<string>)
    returns (segment': Segment, out': seq<string>)
    requires 0 < len && p + len <= |content| && ReadFrom(content, p + len, segment, out)
    ensures ReadFrom(content, p, segment', out')
  {
    segment', out' := ReadChunk(content[p..p + len], segment, out);
    ChunkRead(content, p, p + len, segment, out, out');
  }

  /** `reverse_readline`: apart from empty strings it yields the lines of the file in reverse order, whatever the chunk
      size. */
  method ReverseReadline(content: string, bufSize: nat) returns (out: seq<string>)
    requires bufSize >= 1
    ensures NonEmpty(out) == Reversed(NonEmpty(Split(content)))
  {
    var segment := None;
    out := [];
    var fileSize, offset := |content|, 0;
    var remainingSize: int := fileSize;
    NothingRead(content);
    while remainingSize > 0
      invariant 0 <= offset <= fileSize && (remainingSize > 0 ==> remainingSize == fileSize - offset)
      invariant remainingSize <= 0 ==> offset == fileSize
      invariant ReadFrom(content, fileSize - offset, segment, out)
      decreases remainingSize
    {
      offset := Min(fileSize, offset + bufSize);
      segment, out := ReadAt(content, fileSize - offset, Min(remainingSize, bufSize), segment, out);
      remainingSize := remainingSize - bufSize;
    }
    WholeFile(content, segment, out);
    if segment.Some? {
      Yielded(out, segment.text);
      out := out + [segment.text];
    }
  }

  lemma {:induction false} NothingRead(content: string)
    ensures ReadFrom(content, |content|, None, [])
  {
    assert content[|content|..] == "" && Split("")[1..] == [];
  }

  lemma {:induction false} WholeFile(content: string, segment: Segment, out: seq<string>)
    requires ReadFrom(content, 0, segment, out)
    ensures NonEmpty(out) + (if Text(segment) == "" then [] else [Text(segment)]) == Reversed(NonEmpty(Split(content)))
  {
    assert content[0..] == content;
    var lines := Split(content);
    assert lines == [lines[0]] + lines[1..];
    LineReversed(lines[0], lines[1..]);
  }
}
