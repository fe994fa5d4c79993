/**
 * Values on their way into the directory and out of it: each escaping is undone by an independent reader of the
 * standard's own grammar, and the platform's reader of group names undoes it too.
 */
module DirectoryNames {
  import opened Options
  import opened JsText
  import opened Numerals
  import opened Sequences

  // ---------------------------------------------------------------- distinguished names: the writer

  predicate AlwaysEscaped(c: char) {
    c == '\\' || c == ',' || c == '+' || c == '"' || c == '<' || c == '>' || c == ';' || c == '='
  }

  /** Whether the character at a place is escaped: the first and last place ask for more than the others. */
  predicate NeedsEscape(c: char, first: bool, last: bool) {
    AlwaysEscaped(c) || (first && (c == ' ' || c == '#')) || (last && c == ' ')
  }

  function EscapedFrom(value: string, first: bool): string {
    if value == [] then []
    else Code(value[0], first, |value| == 1) + EscapedFrom(value[1..], false)
  }

  function Code(c: char, first: bool, last: bool): string {
    if NeedsEscape(c, first, last) then ['\\', c] else [c]
  }

  /** What gets a backslash, by its place, and that nothing else is changed. */
  lemma BackslashedExactlyWhen(c: char, first: bool, last: bool)
    ensures Code(c, first, last) == ['\\', c] || Code(c, first, last) == [c]
    ensures Code(c, first, last) == ['\\', c] <==> c in "\\,+\"<>;=" || (first && c in " #") || (last && c in " ")
  {
    assert |[c]| != |['\\', c]|;
  }

  /** `escapeDnValue`. */
  function EscapeDnValue(value: string): string {
    EscapedFrom(value, true)
  }

  // ---------------------------------------------------------------- distinguished names: the platform's reader

  /** The longest run of characters other than comma and backslash, and of pairs of a backslash and a character. */
  function LeadingValue(s: string): string {
    if s == [] || s[0] == ',' then []
    else if s[0] != '\\' then [s[0]] + LeadingValue(s[1..])
    else if |s| >= 2 && !IsLineTerminator(s[1]) then s[..2] + LeadingValue(s[2..])
    else []
  }

  /** `replace(/\\(.)/g, "$1")`. */
  function Unescaped(s: string): string {
    if s == [] then []
    else if s[0] == '\\' && |s| >= 2 && !IsLineTerminator(s[1]) then [s[1]] + Unescaped(s[2..])
    else [s[0]] + Unescaped(s[1..])
  }

  function GroupNameFromDn(value: string): string {
    var trimmed := Trim(value);
    if |trimmed| >= 3 && LowerCase(trimmed[..3]) == "cn=" then Trim(Unescaped(LeadingValue(trimmed[3..])))
    else trimmed
  }

  lemma {:induction false} LeadingValueIsRead(value: string, first: bool, rest: string)
    ensures LeadingValue(EscapedFrom(value, first) + "," + rest) == EscapedFrom(value, first)
    ensures Unescaped(EscapedFrom(value, first)) == value
    decreases |value|
  {
    if value == [] {
      assert EscapedFrom(value, first) + "," + rest == "," + rest;
    } else {
      var c, tail := value[0], EscapedFrom(value[1..], false);
      LeadingValueIsRead(value[1..], false, rest);
      assert value == [c] + value[1..];
      if NeedsEscape(c, first, |value| == 1) {
        PairIsRead(c, tail, rest);
      } else {
        PlainIsRead(c, tail, rest);
      }
    }
  }

  lemma PairIsRead(c: char, tail: string, rest: string)
    requires !IsLineTerminator(c)
    ensures LeadingValue(['\\', c] + tail + "," + rest) == ['\\', c] + LeadingValue(tail + "," + rest)
    ensures Unescaped(['\\', c] + tail) == [c] + Unescaped(tail)
  {
    var s := ['\\', c] + tail + "," + rest;
    assert s[2..] == tail + "," + rest && s[..2] == ['\\', c];
    assert (['\\', c] + tail)[2..] == tail;
  }

  lemma PlainIsRead(c: char, tail: string, rest: string)
    requires c != '\\' && c != ','
    ensures LeadingValue([c] + tail + "," + rest) == [c] + LeadingValue(tail + "," + rest)
    ensures Unescaped([c] + tail) == [c] + Unescaped(tail)
  {
    var s := [c] + tail + "," + rest;
    assert s[1..] == tail + "," + rest;
    assert ([c] + tail)[1..] == tail;
  }

  /** Trimming a text that starts solid keeps everything up to its last solid character. */
  lemma TrimKeepsTheHead(head: string, rest: string)
    requires head != [] && !IsSpace(head[0]) && !IsSpace(head[|head| - 1])
    ensures exists kept :: Trim(head + rest) == head + kept
  {
    var s := head + rest;
    assert s[0] == head[0];
    var n := TrimEndCuts(s);
    assert TrimStart(s) == s;
    assert s[|head| - 1] == head[|head| - 1];
    assert s[..n] == head + s[|head|..n];
  }

  /** The attribute of a name, in any case. */
  predicate IsCn(prefix: string) {
    prefix == "cn=" || prefix == "CN=" || prefix == "Cn=" || prefix == "cN="
  }

  /**
   * For every value and whatever follows it, the platform reads the group name back as the value, trimmed: commas,
   * backslashes, a leading number sign and spaces at the edges never end the name early or join it to what follows.
   */
  lemma GroupNameOfEscaped(prefix: string, value: string, rest: string)
    requires IsCn(prefix)
    ensures GroupNameFromDn(prefix + EscapeDnValue(value) + "," + rest) == Trim(value)
  {
    var escaped := EscapeDnValue(value);
    var head := prefix + escaped + ",";
    HeadIsSolid(prefix, escaped);
    TrimKeepsTheHead(head, rest);
    var kept :| Trim(head + rest) == head + kept;
    RegroupFour(prefix, escaped, ",", kept);
    Halves(prefix, escaped + "," + kept);
    LowerCnExactlyWhen(prefix);
    LeadingValueIsRead(value, true, kept);
  }

  lemma HeadIsSolid(prefix: string, escaped: string)
    requires IsCn(prefix)
    ensures var head := prefix + escaped + ",";
            (head[0] == 'c' || head[0] == 'C') && head[|head| - 1] == ',' && |prefix| == 3
  {
  }

  lemma LowerCnExactlyWhen(s: string)
    requires |s| == 3
    ensures LowerCase(s) == "cn=" <==> IsCn(s)
  {
    LowerCons(s[2], "");
    LowerCons(s[1], [s[2]]);
    LowerCons(s[0], [s[1], s[2]]);
    assert [s[2]] + "" == [s[2]] && [s[1]] + [s[2]] == [s[1], s[2]] && [s[0]] + [s[1], s[2]] == s;
    assert LowerCase(s) == [Lower(s[0]), Lower(s[1]), Lower(s[2])];
    LowerOfCn(s[0], s[1], s[2]);
    ThreeCharacters(LowerCase(s), "cn=");
    ThreeCharacters(s, "cn=");
    ThreeCharacters(s, "CN=");
    ThreeCharacters(s, "Cn=");
    ThreeCharacters(s, "cN=");
  }

  lemma LowerOfCn(c: char, n: char, e: char)
    ensures Lower(c) == 'c' <==> c == 'c' || c == 'C'
    ensures Lower(n) == 'n' <==> n == 'n' || n == 'N'
    ensures Lower(e) == '=' <==> e == '='
  {
  }

  lemma ThreeCharacters(s: string, t: string)
    requires |s| == |t| == 3
    ensures s == t <==> s[0] == t[0] && s[1] == t[1] && s[2] == t[2]
  {
  }

  /** What is no such name to begin with is taken for a bare group name, trimmed. */
  lemma BareGroupNames(value: string)
    requires |Trim(value)| < 3 || !IsCn(Trim(value)[..3])
    ensures GroupNameFromDn(value) == Trim(value)
  {
    if |Trim(value)| >= 3 {
      LowerCnExactlyWhen(Trim(value)[..3]);
    }
  }

  lemma LowerCons(c: char, rest: string)
    ensures LowerCase([c] + rest) == [Lower(c)] + LowerCase(rest)
  {
    assert ([c] + rest)[1..] == rest;
  }

  // ---------------------------------------------------------------- distinguished names: section 3 of RFC 4514

  /** ESC, special: what may follow a backslash, hexadecimal pairs aside. */
  predicate IsSpecial(c: char) {
    || c == '"' || c == '+' || c == ',' || c == ';' || c == '<' || c == '>'
    || c == ' ' || c == '#' || c == '=' || c == '\\'
  }

  /** stringchar: anything but NUL, the escaped characters and ESC. */
  predicate IsStringChar(c: char) {
    c != NUL && c != '"' && c != '+' && c != ',' && c != ';' && c != '<' && c != '>' && c != '\\'
  }

  /** leadchar and trailchar leave out a space, and leadchar a number sign. */
  predicate MayStandAt(c: char, first: bool, last: bool) {
    IsStringChar(c) && (first ==> c != ' ' && c != '#') && (last ==> c != ' ')
  }

  /** Where an attribute value ends: at the end of the text, or before the separator of the next one. */
  predicate AtEnd(s: string) {
    s == [] || s[0] == ',' || s[0] == '+'
  }

  /**
   * One attribute value and what is left; none if the text is not one. A hexadecimal pair outside ASCII is not read.
   */
  function ReadDnValue(s: string, first: bool): Option<(string, string)>
    decreases |s|
  {
    if AtEnd(s) then Some(("", s))
    else if s[0] == '\\' then
      if |s| >= 2 && IsSpecial(s[1]) then Prefixed(s[1], ReadDnValue(s[2..], false))
      else if |s| >= 3 && IsHexDigit(s[1]) && IsHexDigit(s[2]) && HexValue(s[1]) < 8 then
        Prefixed((HexValue(s[1]) * 16 + HexValue(s[2])) as char, ReadDnValue(s[3..], false))
      else None
    else if MayStandAt(s[0], first, AtEnd(s[1..])) then Prefixed(s[0], ReadDnValue(s[1..], false))
    else None
  }

  function HexValue(c: char): (v: nat)
    requires IsHexDigit(c)
    ensures v < 16
  {
    if c <= '9' then (c - '0') as nat else if c <= 'F' then (c - 'A') as nat + 10 else (c - 'a') as nat + 10
  }

  function Prefixed(c: char, read: Option<(string, string)>): Option<(string, string)> {
    match read
    case None => None
    case Some((value, rest)) => Some(([c] + value, rest))
  }

  lemma PairIsReadBack(c: char, tail: string, first: bool)
    requires IsSpecial(c)
    ensures ReadDnValue(['\\', c] + tail, first) == Prefixed(c, ReadDnValue(tail, false))
  {
    assert (['\\', c] + tail)[2..] == tail;
  }

  lemma PlainIsReadBack(c: char, tail: string, first: bool)
    requires c != ',' && c != '+' && c != '\\'
    ensures ReadDnValue([c] + tail, first)
         == if MayStandAt(c, first, AtEnd(tail)) then Prefixed(c, ReadDnValue(tail, false)) else None
  {
    assert ([c] + tail)[1..] == tail;
  }

  /** An escaped value that is not empty does not look like the end of one. */
  lemma EscapedIsNotTheEnd(value: string, first: bool, after: string)
    requires AtEnd(after)
    ensures AtEnd(EscapedFrom(value, first) + after) <==> value == []
  {
    if value == [] {
      assert EscapedFrom(value, first) + after == after;
    }
  }

  lemma {:induction false} DnValueIsReadBack(value: string, first: bool, after: string)
    requires AtEnd(after)
    ensures NUL !in value ==> ReadDnValue(EscapedFrom(value, first) + after, first) == Some((value, after))
    ensures NUL in value ==> ReadDnValue(EscapedFrom(value, first) + after, first) == None
    decreases |value|
  {
    if value == [] {
      assert EscapedFrom(value, first) + after == after;
    } else {
      var c := value[0];
      var tail := EscapedFrom(value[1..], false) + after;
      DnValueIsReadBack(value[1..], false, after);
      EscapedIsNotTheEnd(value[1..], false, after);
      assert value == [c] + value[1..];
      Regroup(Code(c, first, |value| == 1), EscapedFrom(value[1..], false), after);
      CharacterIsReadBack(c, tail, first, |value| == 1);
    }
  }

  /** One character, escaped or not, in front of what follows it: read back, unless it is NUL. */
  lemma CharacterIsReadBack(c: char, tail: string, first: bool, last: bool)
    requires last <==> AtEnd(tail)
    ensures ReadDnValue(Code(c, first, last) + tail, first)
         == if c == NUL then None else Prefixed(c, ReadDnValue(tail, false))
  {
    if NeedsEscape(c, first, last) {
      PairIsReadBack(c, tail, first);
    } else {
      PlainIsReadBack(c, tail, first);
    }
  }

  /**
   * A reader of the standard's grammar reads an escaped value as exactly that one value, up to the comma or plus that
   * follows it or to the end, exactly when the value holds no NUL, which the standard wants as a hexadecimal pair.
   */
  lemma EscapedValueIsOneRdn(value: string, rest: string)
    ensures ReadDnValue(EscapeDnValue(value) + "," + rest, true) == Some((value, "," + rest)) <==> NUL !in value
    ensures ReadDnValue(EscapeDnValue(value), true) == Some((value, "")) <==> NUL !in value
  {
    DnValueIsReadBack(value, true, "," + rest);
    assert EscapeDnValue(value) + "," + rest == EscapeDnValue(value) + ("," + rest);
    DnValueIsReadBack(value, true, "");
    assert EscapeDnValue(value) + "" == EscapeDnValue(value);
  }

  // ---------------------------------------------------------------- templates

  predicate OccursAt(s: string, sub: string, i: nat) {
    i + |sub| <= |s| && s[i..i + |sub|] == sub
  }

  /** Where a text first stands in another, or -1. */
  function FirstOccurrence(s: string, sub: string, from: nat): (i: int)
    requires from <= |s|
    ensures i == -1 || (from <= i && OccursAt(s, sub, i))
    ensures forall k: nat | from <= k < (if i < 0 then |s| + 1 else i) :: !OccursAt(s, sub, k)
    decreases |s| - from
  {
    if OccursAt(s, sub, from) then from
    else if from == |s| then -1
    else FirstOccurrence(s, sub, from + 1)
  }

  /** `template.replace(placeholder, () => value)`: the first occurrence, and the value as it is. */
  function ExpandTemplate(template: string, placeholder: string, value: string): string {
    var i := FirstOccurrence(template, placeholder, 0);
    if i < 0 then template else template[..i] + value + template[i + |placeholder|..]
  }

  /** Whatever the value holds, only the placeholder's place changes. */
  lemma ExpandedInPlace(before: string, placeholder: string, after: string, value: string)
    requires forall k: nat | k < |before| :: !OccursAt(before + placeholder + after, placeholder, k)
    ensures ExpandTemplate(before + placeholder + after, placeholder, value) == before + value + after
  {
    var template := before + placeholder + after;
    assert template[|before|..|before| + |placeholder|] == placeholder;
    assert OccursAt(template, placeholder, |before|);
    assert FirstOccurrence(template, placeholder, 0) == |before|;
    assert template[..|before|] == before && template[|before| + |placeholder|..] == after;
  }

  /**
   * The name a user binds as: with a template whose placeholder is an attribute's value, the standard's reader finds
   * exactly the typed name there, and after it exactly the rest of the template, exactly when the name holds no NUL.
   */
  lemma UserDnHasOneUsername(before: string, placeholder: string, after: string, username: string)
    requires forall k: nat | k < |before| :: !OccursAt(before + placeholder + after, placeholder, k)
    requires AtEnd(after)
    ensures var dn := ExpandTemplate(before + placeholder + after, placeholder, EscapeDnValue(username));
            && before <= dn
            && (ReadDnValue(dn[|before|..], true) == Some((username, after)) <==> NUL !in username)
  {
    ExpandedInPlace(before, placeholder, after, EscapeDnValue(username));
    DnValueIsReadBack(username, true, after);
    assert (before + EscapeDnValue(username) + after)[|before|..] == EscapeDnValue(username) + after;
  }

  // ---------------------------------------------------------------- search filters: RFC 4515

  /** `escapeFilterValue`. */
  function EscapeFilterValue(value: string): string {
    if value == [] then []
    else FilterCode(value[0]) + EscapeFilterValue(value[1..])
  }

  function FilterCode(c: char): string {
    match c
    case '\\' => "\\5c"
    case '*' => "\\2a"
    case '(' => "\\28"
    case ')' => "\\29"
    case '\0' => "\\00"
    case _ => [c]
  }

  /** What is written as a code, and that nothing else is changed. */
  lemma CodedExactlyWhen(c: char)
    ensures FilterCode(c) == [c] <==> c !in "\\*()" && c != NUL
  {
  }

  /** valueencoding of section 3 of RFC 4515: normal characters and escaped bytes, read up to the first other one. */
  function ReadFilterValue(s: string): (string, string)
    decreases |s|
  {
    if s == [] || s[0] == '*' || s[0] == '(' || s[0] == ')' || s[0] == NUL then ("", s)
    else if s[0] == '\\' then
      if |s| >= 3 && IsHexDigit(s[1]) && IsHexDigit(s[2]) && HexValue(s[1]) < 8 then
        var (value, rest) := ReadFilterValue(s[3..]);
        ([(HexValue(s[1]) * 16 + HexValue(s[2])) as char] + value, rest)
      else ("", s)
    else
      var (value, rest) := ReadFilterValue(s[1..]);
      ([s[0]] + value, rest)
  }

  lemma EscapedByteIsRead(high: char, low: char, tail: string)
    requires IsHexDigit(high) && IsHexDigit(low) && HexValue(high) < 8
    ensures ReadFilterValue(['\\', high, low] + tail)
         == ([(16 * HexValue(high) + HexValue(low)) as char] + ReadFilterValue(tail).0, ReadFilterValue(tail).1)
  {
    assert (['\\', high, low] + tail)[3..] == tail;
  }

  lemma OrdinaryCharacterIsRead(c: char, tail: string)
    requires c != '*' && c != '(' && c != ')' && c != NUL && c != '\\'
    ensures ReadFilterValue([c] + tail) == ([c] + ReadFilterValue(tail).0, ReadFilterValue(tail).1)
  {
    assert ([c] + tail)[1..] == tail;
  }

  lemma FilterCodeIsReadBack(c: char, tail: string)
    ensures ReadFilterValue(FilterCode(c) + tail) == ([c] + ReadFilterValue(tail).0, ReadFilterValue(tail).1)
  {
    match c {
      case '\\' => EscapedByteIsRead('5', 'c', tail);
      case '*' => EscapedByteIsRead('2', 'a', tail);
      case '(' => EscapedByteIsRead('2', '8', tail);
      case ')' => EscapedByteIsRead('2', '9', tail);
      case '\0' => EscapedByteIsRead('0', '0', tail);
      case _ => OrdinaryCharacterIsRead(c, tail);
    }
  }

  /** For every value, a filter's reader finds exactly that value, and then exactly what was put behind it. */
  lemma {:induction false} FilterValueIsReadBack(value: string, after: string)
    requires after == [] || after[0] == ')'
    ensures ReadFilterValue(EscapeFilterValue(value) + after) == (value, after)
  {
    if value == [] {
      assert EscapeFilterValue(value) + after == after;
    } else {
      var tail := EscapeFilterValue(value[1..]) + after;
      FilterValueIsReadBack(value[1..], after);
      assert EscapeFilterValue(value) + after == FilterCode(value[0]) + tail;
      FilterCodeIsReadBack(value[0], tail);
      assert value == [value[0]] + value[1..];
    }
  }
}
