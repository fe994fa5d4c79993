/** The parts of ECMAScript's string vocabulary the platform's parsers rest on. */
module JsText {
  import opened Sequences

  const NUL: char := '\0'

  /** ECMAScript WhiteSpace and LineTerminator: what `trim` removes and what `\s` matches. */
  predicate IsSpace(c: char) {
    || c == ' ' || c == '\t' || c == '\n' || c == '\r'
    || c == '\U{000B}' || c == '\U{000C}' || c == '\U{00A0}' || c == '\U{1680}'
    || '\U{2000}' <= c <= '\U{200A}'
    || c == '\U{2028}' || c == '\U{2029}' || c == '\U{202F}' || c == '\U{205F}'
    || c == '\U{3000}' || c == '\U{FEFF}'
  }

  /** What `.` does not match in a regular expression without the `s` flag. */
  predicate IsLineTerminator(c: char) {
    c == '\n' || c == '\r' || c == '\U{2028}' || c == '\U{2029}'
  }

  predicate IsDigit(c: char) {
    '0' <= c <= '9'
  }

  predicate IsLetter(c: char) {
    'A' <= c <= 'Z' || 'a' <= c <= 'z'
  }

  /** `toLowerCase`, as far as it can produce an ASCII letter: the Kelvin sign is the one other way to get one. */
  function Lower(c: char): char {
    if 'A' <= c <= 'Z' then c - 'A' + 'a' else if c == '\U{212A}' then 'k' else c
  }

  function LowerCase(s: string): (r: string)
    ensures |r| == |s|
  {
    if s == [] then [] else [Lower(s[0])] + LowerCase(s[1..])
  }

  predicate NothingToLower(s: string) {
    forall i | 0 <= i < |s| :: Lower(s[i]) == s[i]
  }

  lemma {:induction false} LowerStaysLower(s: string)
    requires NothingToLower(s)
    ensures LowerCase(s) == s
  {
    if s != [] {
      assert forall i | 0 <= i < |s| - 1 :: s[1..][i] == s[i + 1];
      LowerStaysLower(s[1..]);
    }
  }

  function TrimStart(s: string): string {
    if s != [] && IsSpace(s[0]) then TrimStart(s[1..]) else s
  }

  function TrimEnd(s: string): string {
    if s != [] && IsSpace(s[|s| - 1]) then TrimEnd(s[..|s| - 1]) else s
  }

  function Trim(s: string): string {
    TrimEnd(TrimStart(s))
  }

  predicate Solid(s: string) {
    forall i | 0 <= i < |s| :: !IsSpace(s[i])
  }

  /** Neither end is white space. */
  predicate Trimmed(s: string) {
    s != [] ==> !IsSpace(s[0]) && !IsSpace(s[|s| - 1])
  }

  lemma TrimOfTrimmed(s: string)
    requires Trimmed(s)
    ensures Trim(s) == s
  {
  }

  lemma {:induction false} TrimStartCuts(s: string) returns (n: nat)
    ensures n <= |s| && TrimStart(s) == s[n..]
    ensures forall i | 0 <= i < n :: IsSpace(s[i])
    ensures n < |s| ==> !IsSpace(s[n])
  {
    if s != [] && IsSpace(s[0]) {
      var m := TrimStartCuts(s[1..]);
      n := m + 1;
      assert s[1..][m..] == s[n..];
      forall i | 0 <= i < n
        ensures IsSpace(s[i])
      {
        if i > 0 {
          assert s[i] == s[1..][i - 1];
        }
      }
    } else {
      n := 0;
    }
  }

  lemma {:induction false} TrimEndCuts(s: string) returns (n: nat)
    ensures n <= |s| && TrimEnd(s) == s[..n]
    ensures forall i | n <= i < |s| :: IsSpace(s[i])
    ensures n > 0 ==> !IsSpace(s[n - 1])
  {
    if s != [] && IsSpace(s[|s| - 1]) {
      var m := |s| - 1;
      n := TrimEndCuts(s[..m]);
      assert s[..m][..n] == s[..n];
      forall i | n <= i < |s|
        ensures IsSpace(s[i])
      {
        if i < m {
          assert s[i] == s[..m][i];
        }
      }
    } else {
      n := |s|;
    }
  }

  /** `trim` cuts a middle part out, whose ends are not white space, and nothing but white space is lost. */
  lemma TrimCuts(s: string) returns (lo: nat, hi: nat)
    ensures lo <= hi <= |s| && Trim(s) == s[lo..hi]
    ensures Trimmed(Trim(s))
    ensures forall i | 0 <= i < lo || hi <= i < |s| :: IsSpace(s[i])
  {
    lo := TrimStartCuts(s);
    var n := TrimEndCuts(s[lo..]);
    hi := lo + n;
    assert s[lo..][..n] == s[lo..hi];
    forall i | hi <= i < |s|
      ensures IsSpace(s[i])
    {
      assert s[i] == s[lo..][i - lo];
    }
    if n > 0 {
      assert s[lo..][n - 1] == s[hi - 1];
    }
  }

  // ---------------------------------------------------------------- words

  /** The longest prefix without white space. */
  function FirstWord(s: string): (w: string)
    ensures |w| <= |s| && w == s[..|w|]
  {
    if s == [] || IsSpace(s[0]) then [] else [s[0]] + FirstWord(s[1..])
  }

  /** What is left after the first word and the white space that follows it. */
  function AfterWord(s: string): string {
    TrimStart(s[|FirstWord(s)|..])
  }

  lemma {:induction false} AfterWordShrinks(s: string)
    requires s != [] && !IsSpace(s[0])
    ensures |AfterWord(s)| < |s|
  {
    var n := TrimStartCuts(s[|FirstWord(s)|..]);
    assert |FirstWord(s)| >= 1;
  }

  lemma {:induction false} FirstWordIsSolid(s: string)
    ensures Solid(FirstWord(s))
    ensures |FirstWord(s)| < |s| ==> IsSpace(s[|FirstWord(s)|])
  {
    if s != [] && !IsSpace(s[0]) {
      FirstWordIsSolid(s[1..]);
      forall i | 0 <= i < |FirstWord(s)|
        ensures !IsSpace(FirstWord(s)[i])
      {
        if i > 0 {
          assert FirstWord(s)[i] == FirstWord(s[1..])[i - 1];
        }
      }
    }
  }

  /** A solid word, a blank and something that does not start with white space: read back as exactly that. */
  lemma {:induction false} WordThenRest(w: string, rest: string)
    requires Solid(w) && w != []
    requires rest != [] && !IsSpace(rest[0])
    ensures FirstWord(w + " " + rest) == w
    ensures AfterWord(w + " " + rest) == rest
  {
    var after := " " + rest;
    WordIsRead(w, after);
    assert w + " " + rest == w + after;
    assert (w + after)[|w|..] == after;
    assert after[1..] == rest;
    assert TrimStart(rest) == rest;
    assert TrimStart(after) == TrimStart(after[1..]);
  }

  lemma {:induction false} WordIsRead(w: string, rest: string)
    requires Solid(w)
    requires rest == [] || IsSpace(rest[0])
    ensures FirstWord(w + rest) == w
  {
    if w == [] {
      assert w + rest == rest;
    } else {
      assert forall i | 0 <= i < |w| - 1 :: w[1..][i] == w[i + 1];
      WordIsRead(w[1..], rest);
      assert (w + rest)[1..] == w[1..] + rest;
    }
  }

  /** `split(/\s+/)` of a text without white space at either end. */
  function Words(s: string): seq<string>
    requires Trimmed(s)
    decreases |s|
  {
    if s == [] then []
    else
      AfterWordShrinks(s);
      AfterWordIsTrimmed(s);
      [FirstWord(s)] + Words(AfterWord(s))
  }

  lemma AfterWordIsTrimmed(s: string)
    requires Trimmed(s)
    ensures Trimmed(AfterWord(s))
  {
    var k := |FirstWord(s)|;
    var n := TrimStartCuts(s[k..]);
    DropTwice(s, k, n);
  }

  /** `join(" ")`. */
  function JoinWords(words: seq<string>): string {
    if words == [] then []
    else if |words| == 1 then words[0]
    else words[0] + " " + JoinWords(words[1..])
  }

  predicate AreWords(words: seq<string>) {
    forall i | 0 <= i < |words| :: words[i] != [] && Solid(words[i])
  }

  lemma {:induction false} WordsAreWords(s: string)
    requires Trimmed(s)
    ensures AreWords(Words(s))
    ensures s != [] ==> Words(s) != []
    decreases |s|
  {
    if s != [] {
      FirstWordIsSolid(s);
      AfterWordShrinks(s);
      AfterWordIsTrimmed(s);
      WordsAreWords(AfterWord(s));
      forall i | 0 <= i < |Words(s)|
        ensures Words(s)[i] != [] && Solid(Words(s)[i])
      {
        if i > 0 {
          assert Words(s)[i] == Words(AfterWord(s))[i - 1];
        }
      }
    }
  }

  lemma {:induction false} JoinedWordsAreTrimmed(words: seq<string>)
    requires AreWords(words) && words != []
    ensures JoinWords(words) != [] && Trimmed(JoinWords(words))
    ensures JoinWords(words)[0] == words[0][0]
  {
    if |words| > 1 {
      assert AreWords(words[1..]) by {
        assert forall i | 0 <= i < |words| - 1 :: words[1..][i] == words[i + 1];
      }
      JoinedWordsAreTrimmed(words[1..]);
    }
  }

  /** Splitting what was joined gives the words back. */
  lemma {:induction false} WordsOfJoined(words: seq<string>)
    requires AreWords(words) && words != []
    ensures Trimmed(JoinWords(words)) && Words(JoinWords(words)) == words
    decreases |words|
  {
    JoinedWordsAreTrimmed(words);
    var s := JoinWords(words);
    if |words| == 1 {
      WordIsRead(words[0], []);
      assert words[0] + [] == words[0];
      assert s[|FirstWord(s)|..] == [];
    } else {
      var rest := words[1..];
      assert AreWords(rest) by {
        assert forall i | 0 <= i < |rest| :: rest[i] == words[i + 1];
      }
      JoinedWordsAreTrimmed(rest);
      WordThenRest(words[0], JoinWords(rest));
      WordsOfJoined(rest);
    }
  }
}
