/** `split("\n")` and `join("\n")`. */
module Lines {
  function SplitLines(text: string): (lines: seq<string>)
    ensures |lines| > 0
  {
    if text == [] then [[]]
    else if text[0] == '\n' then [[]] + SplitLines(text[1..])
    else
      var rest := SplitLines(text[1..]);
      [[text[0]] + rest[0]] + rest[1..]
  }

  function JoinLines(lines: seq<string>): string {
    if lines == [] then []
    else if |lines| == 1 then lines[0]
    else lines[0] + "\n" + JoinLines(lines[1..])
  }

  predicate SingleLines(lines: seq<string>) {
    forall i | 0 <= i < |lines| :: '\n' !in lines[i]
  }

  lemma {:induction false} JoinOfSplit(text: string)
    ensures JoinLines(SplitLines(text)) == text
  {
    if text != [] {
      JoinOfSplit(text[1..]);
      var rest := SplitLines(text[1..]);
      if text[0] == '\n' {
        assert SplitLines(text)[1..] == rest;
      } else {
        var lines := SplitLines(text);
        assert lines[1..] == rest[1..];
        assert JoinLines(lines) == [text[0]] + JoinLines(rest);
      }
    }
  }

  lemma {:induction false} SplitLinesAreSingle(text: string)
    ensures SingleLines(SplitLines(text))
  {
    if text != [] {
      SplitLinesAreSingle(text[1..]);
    }
  }

  lemma {:induction false} SplitOfOneLine(line: string)
    requires '\n' !in line
    ensures SplitLines(line) == [line]
  {
    if line != [] {
      SplitOfOneLine(line[1..]);
      assert [line[0]] + line[1..] == line;
    }
  }

  lemma {:induction false} SplitAtNewline(line: string, text: string)
    requires '\n' !in line
    ensures SplitLines(line + "\n" + text) == [line] + SplitLines(text)
  {
    var joined := line + "\n" + text;
    if line == [] {
      assert joined[1..] == text;
    } else {
      SplitAtNewline(line[1..], text);
      assert joined[1..] == line[1..] + "\n" + text;
      assert [line[0]] + line[1..] == line;
    }
  }

  lemma {:induction false} SplitOfJoin(lines: seq<string>)
    requires lines != [] && SingleLines(lines)
    ensures SplitLines(JoinLines(lines)) == lines
  {
    if |lines| == 1 {
      SplitOfOneLine(lines[0]);
    } else {
      SplitOfJoin(lines[1..]);
      SplitAtNewline(lines[0], JoinLines(lines[1..]));
    }
  }
}
