/**
 * The commands handed to the script VM's shell, read back by an independent lexer of the POSIX.1-2017 shell command
 * language: section 2.2 for quoting and section 2.3 for tokens.
 */
module ShellQuoting {
  import opened Options
  import opened JsText

  // ---------------------------------------------------------------- the shell's reader

  /** A character of a word, quoted or not, or the shell's own process id. */
  datatype Part = Char(c: char, quoted: bool) | Pid

  datatype Token = Word(parts: seq<Part>) | Operator(text: string)

  /** No quote open, a single quote open (section 2.2.2), or a double quote open (section 2.2.3). */
  datatype Mode = Bare | Single | Double

  predicate IsBlank(c: char) {
    c == ' ' || c == '\t'
  }

  predicate IsOperatorStart(c: char) {
    c == '&' || c == '|' || c == ';' || c == '<' || c == '>' || c == '(' || c == ')' || c == '\n'
  }

  /** Where an unquoted word ends. */
  predicate AtBoundary(s: string) {
    s == [] || IsBlank(s[0]) || IsOperatorStart(s[0])
  }

  function With(part: Part, read: Option<(seq<Part>, string)>): Option<(seq<Part>, string)> {
    match read
    case None => None
    case Some((parts, rest)) => Some(([part] + parts, rest))
  }

  /**
   * The rest of a word, and what follows it. None is a quote that is not closed, a NUL, a line continuation, or an
   * expansion other than `$$`: what the shell makes of those is not read here.
   */
  function ReadWord(s: string, mode: Mode): Option<(seq<Part>, string)>
    decreases |s|
  {
    if mode.Bare? && AtBoundary(s) then Some(([], s))
    else if s == [] || s[0] == NUL then None
    else match mode
      case Single =>
        if s[0] == '\'' then ReadWord(s[1..], Bare) else With(Char(s[0], true), ReadWord(s[1..], Single))
      case Double =>
        if s[0] == '"' then ReadWord(s[1..], Bare)
        else if s[0] == '$' then
          if |s| >= 2 && s[1] == '$' then With(Pid, ReadWord(s[2..], Double)) else None
        else if s[0] == '`' then None
        else if s[0] == '\\' && |s| >= 2 && s[1] == '\n' then None
        else if s[0] == '\\' && |s| >= 2 && (s[1] == '$' || s[1] == '`' || s[1] == '"' || s[1] == '\\') then
          With(Char(s[1], true), ReadWord(s[2..], Double))
        else With(Char(s[0], true), ReadWord(s[1..], Double))
      case Bare =>
        if s[0] == '\'' then ReadWord(s[1..], Single)
        else if s[0] == '"' then ReadWord(s[1..], Double)
        else if s[0] == '$' || s[0] == '`' then None
        else if s[0] == '\\' then
          if |s| >= 2 && s[1] != NUL && s[1] != '\n' then With(Char(s[1], true), ReadWord(s[2..], Bare)) else None
        else With(Char(s[0], false), ReadWord(s[1..], Bare))
  }

  lemma {:induction false} WordShrinks(s: string, mode: Mode)
    ensures ReadWord(s, mode).Some? ==> |ReadWord(s, mode).value.1| <= |s|
    ensures mode.Bare? && !AtBoundary(s) && ReadWord(s, mode).Some? ==> |ReadWord(s, mode).value.1| < |s|
    decreases |s|
  {
    if s != [] {
      WordShrinks(s[1..], Bare);
      WordShrinks(s[1..], Single);
      WordShrinks(s[1..], Double);
      if |s| >= 2 {
        WordShrinks(s[2..], Bare);
        WordShrinks(s[2..], Double);
      }
    }
  }

  function Followed(token: Token, tokens: Option<seq<Token>>): Option<seq<Token>> {
    match tokens
    case None => None
    case Some(rest) => Some([token] + rest)
  }

  /** The tokens of a line; of the operators, `&&` and `>` are read. */
  function Lex(s: string): Option<seq<Token>>
    decreases |s|
  {
    if s == [] then Some([])
    else if IsBlank(s[0]) then Lex(s[1..])
    else if s[0] == '&' then if |s| >= 2 && s[1] == '&' then Followed(Operator("&&"), Lex(s[2..])) else None
    else if s[0] == '>' then
      if |s| >= 2 && (s[1] == '>' || s[1] == '&' || s[1] == '|') then None else Followed(Operator(">"), Lex(s[1..]))
    else if IsOperatorStart(s[0]) || s[0] == '#' then None
    else
      WordShrinks(s, Bare);
      match ReadWord(s, Bare)
      case None => None
      case Some((parts, rest)) => Followed(Word(parts), Lex(rest))
  }

  // ---------------------------------------------------------------- quoting

  function QuotedBody(value: string): string {
    if value == [] then []
    else (if value[0] == '\'' then "'\\''" else [value[0]]) + QuotedBody(value[1..])
  }

  /** `shellQuote`. */
  function ShellQuote(value: string): string {
    "'" + QuotedBody(value) + "'"
  }

  /** A word every character of which is quoted: nothing in it is expanded, split or matched against files. */
  function Quoted(value: string): (parts: seq<Part>)
    ensures |parts| == |value|
  {
    seq(|value|, i requires 0 <= i < |value| => Char(value[i], true))
  }

  lemma QuoteIsReadBack(tail: string)
    ensures ReadWord("'\\''" + tail, Single) == With(Char('\'', true), ReadWord(tail, Single))
  {
    var s := "'\\''" + tail;
    var t := s[1..];
    assert t[0] == '\\' && t[1] == '\'';
    var u := t[2..];
    assert u[0] == '\'' && u[1..] == tail;
    assert ReadWord(s, Single) == ReadWord(t, Bare);
    assert ReadWord(t, Bare) == With(Char('\'', true), ReadWord(u, Bare));
    assert ReadWord(u, Bare) == ReadWord(u[1..], Single);
  }

  lemma CharacterIsReadBack(c: char, tail: string)
    requires c != '\''
    ensures ReadWord([c] + tail, Single) == if c == NUL then None else With(Char(c, true), ReadWord(tail, Single))
  {
    assert ([c] + tail)[1..] == tail;
  }

  /** The closing quote and what follows it, behind the rest of a quoted body. */
  function Tail(rest: string, after: string): string {
    QuotedBody(rest) + "'" + after
  }

  lemma ClosingQuoteIsReadBack(after: string)
    requires AtBoundary(after)
    ensures ReadWord(Tail("", after), Single) == Some(([], after))
  {
    var s := Tail("", after);
    assert s == "'" + after && s[1..] == after;
    assert ReadWord(s, Single) == ReadWord(after, Bare);
  }

  lemma FirstIsReadBack(c: char, rest: string, after: string)
    ensures ReadWord(Tail([c] + rest, after), Single)
         == if c == NUL then None else With(Char(c, true), ReadWord(Tail(rest, after), Single))
  {
    var tail := Tail(rest, after);
    assert ([c] + rest)[1..] == rest;
    if c == '\'' {
      QuoteIsReadBack(tail);
      assert Tail([c] + rest, after) == "'\\''" + tail;
    } else {
      CharacterIsReadBack(c, tail);
      assert Tail([c] + rest, after) == [c] + tail;
    }
  }

  lemma {:induction false} BodyIsReadBack(value: string, after: string)
    requires AtBoundary(after)
    ensures ReadWord(Tail(value, after), Single) == if NUL in value then None else Some((Quoted(value), after))
  {
    if value == [] {
      ClosingQuoteIsReadBack(after);
    } else {
      assert value == [value[0]] + value[1..];
      FirstIsReadBack(value[0], value[1..], after);
      BodyIsReadBack(value[1..], after);
      assert Quoted(value) == [Char(value[0], true)] + Quoted(value[1..]);
    }
  }

  lemma QuotedWordIsReadBack(value: string, after: string)
    requires AtBoundary(after)
    ensures ReadWord(ShellQuote(value) + after, Bare) == if NUL in value then None else Some((Quoted(value), after))
  {
    var s := ShellQuote(value) + after;
    assert s[0] == '\'' && s[1..] == QuotedBody(value) + "'" + after;
    BodyIsReadBack(value, after);
    assert ReadWord(s, Bare) == ReadWord(s[1..], Single);
  }

  /** The shell reads a quoted value as exactly one word, equal to the value, exactly when the value holds no NUL. */
  lemma ShellQuoteIsOneWord(value: string)
    ensures Lex(ShellQuote(value)) == Some([Word(Quoted(value))]) <==> NUL !in value
  {
    var s := ShellQuote(value);
    assert s + [] == s && s[0] == '\'';
    QuotedWordIsReadBack(value, []);
    if NUL !in value {
      assert Lex([]) == Some([]);
      assert [Word(Quoted(value))] + [] == [Word(Quoted(value))];
    }
  }
}
