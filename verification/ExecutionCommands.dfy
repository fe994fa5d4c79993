/** The command a script is started with: what the shell makes of it, word by word. */
module ExecutionCommands {
  import opened Options
  import opened JsText
  import opened Sequences
  import opened ShellQuoting

  // ---------------------------------------------------------------- building the command

  const PID_DIR := "/tmp/.scriptoria"

  function PidFilePath(runId: string): string {
    PID_DIR + "/" + runId + ".pid"
  }

  /** The file the run's process id is kept in. */
  lemma PidFileInFull(runId: string)
    ensures PidFilePath(runId) == "/tmp/.scriptoria/" + (runId + ".pid")
  {
    assert PID_DIR + "/" == "/tmp/.scriptoria/";
  }

  /** The position of the last full stop, or -1. */
  function LastDot(s: string): (i: int)
    ensures -1 <= i < |s|
  {
    if s == [] then -1 else if s[|s| - 1] == '.' then |s| - 1 else LastDot(s[..|s| - 1])
  }

  /** The interpreters the table names. */
  function NamedInterpreter(extension: string): Option<string> {
    if extension == "py" then Some("python3")
    else if extension == "pl" then Some("perl")
    else if extension == "rb" then Some("ruby")
    else if extension == "ksh" then Some("ksh")
    else if extension == "zsh" then Some("zsh")
    else None
  }

  // In pieces, so that a proof never has to look at the whole text at once.
  const NATIVE := "() { [native code] }"
  const CONSTRUCTOR_TEXT := "function" + " " + ("Object" + NATIVE)
  const PROTOTYPE_TEXT := "[object" + " " + "Object]"

  /** What every object literal answers besides its own keys, of the names written in lower case, as text. */
  function Inherited(extension: string): Option<string> {
    if extension == "constructor" then Some(CONSTRUCTOR_TEXT)
    else if extension == "__proto__" then Some(PROTOTYPE_TEXT)
    else None
  }

  function Extension(fileName: string): Option<string> {
    var dot := LastDot(fileName);
    if dot <= 0 then None else Some(LowerCase(fileName[dot + 1..]))
  }

  /** `interpreterFor`: the table is an object literal, so a lookup also finds what the literal inherits. */
  function InterpreterFor(fileName: string): string {
    match Extension(fileName)
    case None => "bash"
    case Some(extension) =>
      match NamedInterpreter(extension)
      case Some(name) => name
      case None =>
        match Inherited(extension)
        case Some(text) => text
        case None => "bash"
  }

  datatype Input =
    Input(runId: string, absolutePath: string, fileName: string, workingDirectory: string, executable: bool)

  function Target(input: Input): string {
    if input.executable then ShellQuote(input.absolutePath)
    else InterpreterFor(input.fileName) + " " + ShellQuote(input.absolutePath)
  }

  const AND := " && "

  function MakeDirectory(): string {
    "mkdir" + " " + "-p" + " " + ShellQuote(PID_DIR)
  }

  function RecordPid(runId: string): string {
    "printf '%s' \"$$\" > " + ShellQuote(PidFilePath(runId))
  }

  function ChangeDirectory(directory: string): string {
    "cd " + ShellQuote(directory)
  }

  function Exec(target: string): string {
    "exec " + target
  }

  function ExecutionCommand(input: Input): string {
    MakeDirectory() + AND
        + (RecordPid(input.runId) + AND + (ChangeDirectory(input.workingDirectory) + AND + Exec(Target(input))))
  }

  // ---------------------------------------------------------------- what the shell is meant to read

  /** A word written without quotes. */
  function Plain(text: string): (parts: seq<Part>)
    ensures |parts| == |text|
  {
    seq(|text|, i requires 0 <= i < |text| => Char(text[i], false))
  }

  /** The interpreter the table was written to answer with. */
  function MeantInterpreter(fileName: string): string {
    match Extension(fileName)
    case None => "bash"
    case Some(extension) => if NamedInterpreter(extension).Some? then NamedInterpreter(extension).value else "bash"
  }

  function MeantTarget(input: Input): seq<Token> {
    (if input.executable then [] else [Word(Plain(MeantInterpreter(input.fileName)))])
        + [Word(Quoted(input.absolutePath))]
  }

  /**
   * Four commands: make the directory, write the shell's process id to the run's file, change directory, become the
   * script. Every path is one word with every character quoted.
   */
  function Meant(input: Input): seq<Token> {
    Led(input, [Word(Plain("exec"))] + MeantTarget(input))
  }

  /** The tokens of the first three commands in front of the last one's. */
  function Led(input: Input, last: seq<Token>): (tokens: seq<Token>)
    ensures |tokens| == 13 + |last|
  {
    [Word(Plain("mkdir")), Word(Plain("-p")), Word(Quoted(PID_DIR)), Operator("&&")]
    + ([Word(Plain("printf")), Word(Quoted("%s")), Word([Pid]), Operator(">"), Word(Quoted(PidFilePath(input.runId))),
        Operator("&&")]
       + ([Word(Plain("cd")), Word(Quoted(input.workingDirectory)), Operator("&&")] + last))
  }

  // ---------------------------------------------------------------- reading piece by piece

  predicate IsPlain(c: char) {
    IsLetter(c) || IsDigit(c) || c == '-' || c == '%' || c == '[' || c == ']'
  }

  predicate IsPlainWord(text: string) {
    text != [] && forall i | 0 <= i < |text| :: IsPlain(text[i])
  }

  lemma PlainCharacterIsRead(c: char, tail: string)
    requires IsPlain(c)
    ensures ReadWord([c] + tail, Bare) == With(Char(c, false), ReadWord(tail, Bare))
  {
    assert ([c] + tail)[1..] == tail;
  }

  lemma {:induction false} PlainWordIsRead(text: string, after: string)
    requires forall i | 0 <= i < |text| :: IsPlain(text[i])
    requires AtBoundary(after)
    ensures ReadWord(text + after, Bare) == Some((Plain(text), after))
  {
    if text == [] {
      assert text + after == after;
    } else {
      assert forall i | 0 <= i < |text| - 1 :: text[1..][i] == text[i + 1];
      PlainWordIsRead(text[1..], after);
      PlainCharacterIsRead(text[0], text[1..] + after);
      assert text + after == [text[0]] + (text[1..] + after);
      assert Plain(text) == [Char(text[0], false)] + Plain(text[1..]);
    }
  }

  /** A plain word, a blank, and the rest. */
  lemma LexPlain(text: string, rest: string)
    requires IsPlainWord(text)
    ensures Lex(text + " " + rest) == Followed(Word(Plain(text)), Lex(rest))
  {
    var after := " " + rest;
    assert text + " " + rest == text + after && after[1..] == rest;
    PlainWordIsRead(text, after);
    assert IsPlain(text[0]);
  }

  /** A quoted word in front of other tokens; a word with a NUL in it cannot be read. */
  function QuotedThen(value: string, tokens: Option<seq<Token>>): Option<seq<Token>> {
    if NUL in value then None else Followed(Word(Quoted(value)), tokens)
  }

  /** A quoted word and what follows it. */
  lemma LexQuoted(value: string, after: string)
    requires AtBoundary(after)
    ensures Lex(ShellQuote(value) + after) == QuotedThen(value, Lex(after))
  {
    QuotedWordIsReadBack(value, after);
    assert (ShellQuote(value) + after)[0] == '\'';
  }

  lemma LexBlank(rest: string)
    ensures Lex(" " + rest) == Lex(rest)
  {
    assert (" " + rest)[1..] == rest;
  }

  lemma LexAnd(rest: string)
    ensures AtBoundary(AND + rest)
    ensures Lex(AND + rest) == Followed(Operator("&&"), Lex(rest))
  {
    var s := "&& " + rest;
    assert AND + rest == " " + s;
    LexBlank(s);
    assert s[2..] == " " + rest;
    LexBlank(rest);
  }

  lemma LiteralsHoldNoNul()
    ensures NUL !in PID_DIR && NUL !in "%s" && NUL !in ".pid" && NUL !in "/"
  {
  }

  /** Two plain words and a quoted one in front of what follows. */
  lemma LexThree(first: string, second: string, value: string, after: string)
    requires IsPlainWord(first) && IsPlainWord(second) && AtBoundary(after)
    ensures Lex(first + " " + second + " " + ShellQuote(value) + after)
         == Followed(Word(Plain(first)), Followed(Word(Plain(second)), QuotedThen(value, Lex(after))))
  {
    var path := ShellQuote(value) + after;
    LexQuoted(value, after);
    LexPlain(second, path);
    LexPlain(first, second + " " + path);
    assert first + " " + (second + " " + path) == first + " " + second + " " + ShellQuote(value) + after;
  }

  lemma LexMakeDirectory(rest: string)
    ensures Lex(MakeDirectory() + AND + rest)
         == Followed(Word(Plain("mkdir")), Followed(Word(Plain("-p")),
              Followed(Word(Quoted(PID_DIR)), Followed(Operator("&&"), Lex(rest)))))
  {
    LexAnd(rest);
    LiteralsHoldNoNul();
    MkdirIsPlain();
    LexThree("mkdir", "-p", PID_DIR, AND + rest);
    Regroup(MakeDirectory(), AND, rest);
  }

  lemma MkdirIsPlain()
    ensures IsPlainWord("mkdir") && IsPlainWord("-p")
  {
  }

  lemma LexChangeDirectory(directory: string, rest: string)
    ensures Lex(ChangeDirectory(directory) + AND + rest)
         == Followed(Word(Plain("cd")), QuotedThen(directory, Followed(Operator("&&"), Lex(rest))))
  {
    var after := AND + rest;
    LexAnd(rest);
    LexQuoted(directory, after);
    LexPlain("cd", ShellQuote(directory) + after);
    assert ChangeDirectory(directory) + AND + rest == "cd" + " " + (ShellQuote(directory) + after);
  }

  lemma LexPid(rest: string)
    ensures Lex("\"$$\" > " + rest) == Followed(Word([Pid]), Followed(Operator(">"), Lex(rest)))
  {
    var s := "\"$$\" > " + rest;
    var t := s[1..];
    assert t == "$$\" > " + rest && t[2..] == "\" > " + rest;
    var u := t[2..];
    var v := u[1..];
    assert v == " > " + rest;
    assert ReadWord(u, Double) == ReadWord(v, Bare) == Some(([], v));
    assert ReadWord(t, Double) == With(Pid, ReadWord(u, Double));
    assert ReadWord(s, Bare) == ReadWord(t, Double);
    assert [Pid] + [] == [Pid];
    LexRedirect(rest);
  }

  lemma LexRedirect(rest: string)
    ensures Lex(" > " + rest) == Followed(Operator(">"), Lex(rest))
  {
    var w := "> " + rest;
    assert " > " + rest == " " + w;
    LexBlank(w);
    assert w[1..] == " " + rest;
    LexBlank(rest);
  }

  lemma LexRecordPid(runId: string, rest: string)
    ensures Lex(RecordPid(runId) + AND + rest)
         == Followed(Word(Plain("printf")), Followed(Word(Quoted("%s")), Followed(Word([Pid]), Followed(Operator(">"),
              QuotedThen(PidFilePath(runId), Followed(Operator("&&"), Lex(rest)))))))
  {
    var after := AND + rest;
    var file := ShellQuote(PidFilePath(runId)) + after;
    var pid := "\"$$\" > " + file;
    LexAnd(rest);
    LiteralsHoldNoNul();
    LexQuoted(PidFilePath(runId), after);
    LexPid(file);
    LexFormat(pid);
    RecordPidIs(runId, after);
    Regroup(RecordPid(runId), AND, rest);
  }

  lemma RecordPidIs(runId: string, after: string)
    ensures RecordPid(runId) + after
            == "printf" + " " + (ShellQuote("%s") + (" " + ("\"$$\" > " + (ShellQuote(PidFilePath(runId)) + after))))
  {
    FormatIsQuoted();
    assert "printf '%s' \"$$\" > " == "printf" + " " + "'%s'" + " " + "\"$$\" > ";
    Reassociate("printf", " ", "'%s'", " ", "\"$$\" > ", ShellQuote(PidFilePath(runId)), after);
  }

  lemma Reassociate(a: string, b: string, c: string, d: string, e: string, f: string, g: string)
    ensures a + b + c + d + e + f + g == a + b + (c + (d + (e + (f + g))))
  {
  }

  lemma LexFormat(rest: string)
    ensures Lex("printf" + " " + (ShellQuote("%s") + (" " + rest)))
         == Followed(Word(Plain("printf")), Followed(Word(Quoted("%s")), Lex(rest)))
  {
    LiteralsHoldNoNul();
    LexBlank(rest);
    LexQuoted("%s", " " + rest);
    LexPlain("printf", ShellQuote("%s") + (" " + rest));
  }

  lemma FormatIsQuoted()
    ensures ShellQuote("%s") == "'%s'"
  {
    assert "%s"[1..] == "s" && "s"[1..] == "";
    assert QuotedBody("s") == "s";
    assert QuotedBody("%s") == "%s";
  }

  // ---------------------------------------------------------------- the whole command

  lemma ThreeThen(a: Token, b: Token, c: Token, rest: seq<Token>)
    ensures Followed(a, Followed(b, Followed(c, Some(rest)))) == Some([a, b, c] + rest)
  {
    assert [a] + ([b] + ([c] + rest)) == [a, b, c] + rest;
  }

  lemma FourThen(a: Token, b: Token, c: Token, d: Token, rest: seq<Token>)
    ensures Followed(a, Followed(b, Followed(c, Followed(d, Some(rest))))) == Some([a, b, c, d] + rest)
  {
    ThreeThen(b, c, d, rest);
    assert [a] + ([b, c, d] + rest) == [a, b, c, d] + rest;
  }

  lemma SixThen(a: Token, b: Token, c: Token, d: Token, e: Token, f: Token, rest: seq<Token>)
    ensures Followed(a, Followed(b, Followed(c, Followed(d, Followed(e, Followed(f, Some(rest)))))))
         == Some([a, b, c, d, e, f] + rest)
  {
    ThreeThen(d, e, f, rest);
    ThreeThen(a, b, c, [d, e, f] + rest);
    assert [a, b, c] + ([d, e, f] + rest) == [a, b, c, d, e, f] + rest;
  }

  lemma InterpretersArePlain(fileName: string)
    ensures IsPlainWord(MeantInterpreter(fileName))
  {
    assert IsPlainWord("bash") && IsPlainWord("python3") && IsPlainWord("perl") && IsPlainWord("ruby");
    assert IsPlainWord("ksh") && IsPlainWord("zsh");
  }

  /** The interpreter is the one the table was written to answer with. */
  predicate InterpreterIsMeant(input: Input) {
    input.executable || Extension(input.fileName) == None || Inherited(Extension(input.fileName).value) == None
  }

  predicate NulFree(input: Input) {
    NUL !in input.runId && NUL !in input.absolutePath && NUL !in input.workingDirectory
  }

  lemma NamedBeforeInherited(fileName: string)
    requires Extension(fileName) == None || Inherited(Extension(fileName).value) == None
    ensures InterpreterFor(fileName) == MeantInterpreter(fileName)
  {
  }

  lemma LexPath(path: string)
    ensures Lex(ShellQuote(path)) == if NUL in path then None else Some([Word(Quoted(path))])
  {
    LexQuoted(path, []);
    assert ShellQuote(path) + [] == ShellQuote(path);
    assert [Word(Quoted(path))] + [] == [Word(Quoted(path))];
  }

  lemma LexExec(target: string)
    ensures Lex(Exec(target)) == Followed(Word(Plain("exec")), Lex(target))
  {
    LexPlain("exec", target);
    assert "exec " == "exec" + " ";
  }

  lemma LexInterpreted(interpreter: string, path: string)
    requires IsPlainWord(interpreter) && NUL !in path
    ensures Lex(interpreter + " " + ShellQuote(path)) == Some([Word(Plain(interpreter))] + [Word(Quoted(path))])
  {
    LexPath(path);
    LexPlain(interpreter, ShellQuote(path));
  }

  lemma LexTarget(input: Input)
    requires InterpreterIsMeant(input) && NUL !in input.absolutePath
    ensures Lex(Exec(Target(input))) == Some([Word(Plain("exec"))] + MeantTarget(input))
  {
    LexExec(Target(input));
    if input.executable {
      LexPath(input.absolutePath);
      assert [] + [Word(Quoted(input.absolutePath))] == [Word(Quoted(input.absolutePath))];
    } else {
      InterpretersArePlain(input.fileName);
      NamedBeforeInherited(input.fileName);
      LexInterpreted(MeantInterpreter(input.fileName), input.absolutePath);
    }
  }

  /** `[object Object]` is two words, and neither is an interpreter. */
  lemma LexInheritedPrototype(path: string)
    ensures Lex(PROTOTYPE_TEXT + " " + ShellQuote(path))
         == Followed(Word(Plain("[object")), Followed(Word(Plain("Object]")), Lex(ShellQuote(path))))
  {
    LexPlain("Object]", ShellQuote(path));
    LexPlain("[object", "Object]" + " " + ShellQuote(path));
    FiveTogether("[object", " ", "Object]", " ", ShellQuote(path));
  }

  lemma FiveTogether(a: string, b: string, c: string, d: string, e: string)
    ensures a + b + c + d + e == a + b + (c + d + e)
  {
  }

  /** The text of a native function is no word: the shell trips over its parentheses. */
  lemma LexInheritedConstructor(path: string)
    ensures Lex(CONSTRUCTOR_TEXT + " " + ShellQuote(path)) == None
  {
    LexTwoThenParenthesis("function", "Object", NATIVE + " " + ShellQuote(path));
    FiveApart("function" + " ", "Object", NATIVE, " ", ShellQuote(path));
  }

  lemma FiveApart(a: string, b: string, c: string, d: string, e: string)
    ensures a + (b + c) + d + e == a + (b + (c + d + e))
  {
  }

  lemma LexTwoThenParenthesis(first: string, second: string, after: string)
    requires IsPlainWord(first) && IsPlainWord(second) && after != [] && after[0] == '('
    ensures Lex(first + " " + (second + after)) == None
  {
    PlainWordIsRead(second, after);
    assert (second + after)[0] == second[0] && IsPlain(second[0]);
    assert Lex(after) == None;
    LexPlain(first, second + after);
  }

  lemma LexInheritedTarget(input: Input)
    requires !InterpreterIsMeant(input)
    ensures Lex(Exec(Target(input))).Some? ==> |Lex(Exec(Target(input))).value| == 4
  {
    LexPath(input.absolutePath);
    LexExec(Target(input));
    LexInheritedPrototype(input.absolutePath);
    LexInheritedConstructor(input.absolutePath);
    InheritedInterpreter(input.fileName);
  }

  lemma InheritedInterpreter(fileName: string)
    requires Extension(fileName).Some? && Inherited(Extension(fileName).value).Some?
    ensures InterpreterFor(fileName) == Inherited(Extension(fileName).value).value
  {
  }

  lemma PidFileHoldsNul(runId: string)
    ensures NUL in PidFilePath(runId) <==> NUL in runId
  {
    LiteralsHoldNoNul();
  }

  /** The whole command is read as its last part is, behind the three that lead to it. */
  lemma CommandIsLed(input: Input)
    ensures Lex(ExecutionCommand(input))
         == if NUL in input.runId || NUL in input.workingDirectory || Lex(Exec(Target(input))) == None then None
            else Some(Led(input, Lex(Exec(Target(input))).value))
  {
    var exec := Exec(Target(input));
    var change := ChangeDirectory(input.workingDirectory) + AND + exec;
    var record := RecordPid(input.runId) + AND + change;
    PidFileHoldsNul(input.runId);
    LexChangeDirectory(input.workingDirectory, exec);
    LexRecordPid(input.runId, change);
    LexMakeDirectory(record);
    Regroup(ChangeDirectory(input.workingDirectory), AND, exec);
    Regroup(RecordPid(input.runId), AND, change);
    Regroup(MakeDirectory(), AND, record);
    if Lex(exec).Some? {
      LedIs(input, Lex(exec).value);
    }
  }

  lemma LedIs(input: Input, last: seq<Token>)
    ensures Followed(Word(Plain("mkdir")),
            Followed(Word(Plain("-p")), Followed(Word(Quoted(PID_DIR)), Followed(Operator("&&"),
              Followed(Word(Plain("printf")), Followed(Word(Quoted("%s")), Followed(Word([Pid]), Followed(Operator(">"),
                Followed(Word(Quoted(PidFilePath(input.runId))), Followed(Operator("&&"),
                  Followed(Word(Plain("cd")), Followed(Word(Quoted(input.workingDirectory)), Followed(Operator("&&"),
                    Some(last)))))))))))))) == Some(Led(input, last))
  {
    var cd := [Word(Plain("cd")), Word(Quoted(input.workingDirectory)), Operator("&&")] + last;
    ThreeThen(Word(Plain("cd")), Word(Quoted(input.workingDirectory)), Operator("&&"), last);
    SixThen(Word(Plain("printf")), Word(Quoted("%s")), Word([Pid]), Operator(">"),
            Word(Quoted(PidFilePath(input.runId))), Operator("&&"), cd);
    FourThen(Word(Plain("mkdir")), Word(Plain("-p")), Word(Quoted(PID_DIR)), Operator("&&"),
             [Word(Plain("printf")), Word(Quoted("%s")), Word([Pid]), Operator(">"),
              Word(Quoted(PidFilePath(input.runId))), Operator("&&")] + cd);
  }

  /**
   * The shell reads the command as exactly the four that are meant, with exactly the given paths as single words, for
   * every run, path and directory, exactly when none of them holds a NUL and the interpreter is the one that is meant:
   * a file that is not executable and whose extension names something the interpreter table inherits is not started.
   */
  lemma CommandIsReadAsMeantExactlyWhen(input: Input)
    ensures Lex(ExecutionCommand(input)) == Some(Meant(input)) <==> NulFree(input) && InterpreterIsMeant(input)
  {
    CommandIsLed(input);
    if NUL in input.absolutePath {
      NulPathIsNotRead(input);
    } else if InterpreterIsMeant(input) {
      LexTarget(input);
    } else {
      LexInheritedTarget(input);
    }
  }

  lemma NulPathIsNotRead(input: Input)
    requires NUL in input.absolutePath
    ensures Lex(Exec(Target(input))) == None
  {
    LexPath(input.absolutePath);
    LexExec(Target(input));
    if !input.executable {
      if InterpreterIsMeant(input) {
        InterpretersArePlain(input.fileName);
        NamedBeforeInherited(input.fileName);
        LexPlain(MeantInterpreter(input.fileName), ShellQuote(input.absolutePath));
      } else {
        LexInheritedPrototype(input.absolutePath);
        LexInheritedConstructor(input.absolutePath);
        InheritedInterpreter(input.fileName);
      }
    }
  }

  // ---------------------------------------------------------------- file names that are not started as meant

  lemma {:induction false} LastDotOf(stem: string, extension: string)
    requires '.' !in extension
    ensures LastDot(stem + "." + extension) == |stem|
  {
    var s := stem + "." + extension;
    if extension == [] {
      assert s == stem + ".";
    } else {
      var n := |extension| - 1;
      LastDotOf(stem, extension[..n]);
      assert s[..|s| - 1] == stem + "." + extension[..n];
      assert s[|s| - 1] == extension[n];
    }
  }

  lemma ExtensionOf(stem: string, extension: string)
    requires stem != [] && '.' !in extension && NothingToLower(extension)
    ensures Extension(stem + "." + extension) == Some(extension)
  {
    LastDotOf(stem, extension);
    assert (stem + "." + extension)[|stem| + 1..] == extension;
    LowerStaysLower(extension);
  }

  lemma InheritedNamesAreLower(extension: string)
    requires Inherited(extension).Some?
    ensures '.' !in extension && NothingToLower(extension)
  {
  }

  lemma InheritedIsNotMeant(input: Input, stem: string, extension: string)
    requires stem != [] && !input.executable && input.fileName == stem + "." + extension
    requires Inherited(extension).Some? && '.' !in extension && NothingToLower(extension)
    ensures !InterpreterIsMeant(input)
  {
    ExtensionOf(stem, extension);
  }

  /** Every file that is not executable and is called `….constructor` or `….__proto__` is not started as meant. */
  lemma InheritedNamesAreNotMeant(input: Input, stem: string, extension: string)
    requires stem != [] && !input.executable && input.fileName == stem + "." + extension && Inherited(extension).Some?
    ensures Lex(ExecutionCommand(input)) != Some(Meant(input))
  {
    InheritedNamesAreLower(extension);
    InheritedIsNotMeant(input, stem, extension);
    CommandIsReadAsMeantExactlyWhen(input);
  }

  // ---------------------------------------------------------------- which interpreter

  lemma ExtensionInAnyCase(stem: string, extension: string)
    requires stem != [] && '.' !in extension
    ensures Extension(stem + "." + extension) == Some(LowerCase(extension))
  {
    LastDotOf(stem, extension);
    assert (stem + "." + extension)[|stem| + 1..] == extension;
  }

  /** The five extensions with an interpreter of their own, in any case. */
  lemma InterpretersByExtension(stem: string, extension: string)
    requires stem != [] && '.' !in extension
    ensures var name, e := stem + "." + extension, LowerCase(extension);
            && (e == "py" ==> InterpreterFor(name) == "python3")
            && (e == "pl" ==> InterpreterFor(name) == "perl")
            && (e == "rb" ==> InterpreterFor(name) == "ruby")
            && (e == "ksh" ==> InterpreterFor(name) == "ksh")
            && (e == "zsh" ==> InterpreterFor(name) == "zsh")
  {
    ExtensionInAnyCase(stem, extension);
  }

  /** Everything else is for bash: other extensions, none, and a full stop only at the front. */
  lemma TheRestIsForBash(stem: string, extension: string)
    requires '.' !in extension
    ensures '.' !in stem && stem != [] ==> InterpreterFor(stem) == "bash"
    ensures InterpreterFor("." + extension) == "bash"
    ensures var e := LowerCase(extension);
            stem != [] && e != "py" && e != "pl" && e != "rb" && e != "ksh" && e != "zsh"
            && e != "constructor" && e != "__proto__"
            ==> InterpreterFor(stem + "." + extension) == "bash"
  {
    if '.' !in stem {
      NoDot(stem);
    }
    LastDotOf([], extension);
    assert [] + "." + extension == "." + extension;
    if stem != [] {
      ExtensionInAnyCase(stem, extension);
    }
  }

  lemma {:induction false} NoDot(s: string)
    requires '.' !in s
    ensures LastDot(s) == -1
  {
    if s != [] {
      NoDot(s[..|s| - 1]);
    }
  }
}
