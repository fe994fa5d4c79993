/** The grammar of a schedule's field from its other side: what is written, printed, is exactly what is read. */
module CronGrammar {
  import opened Options
  import opened JsText
  import opened Crontab

  // ---------------------------------------------------------------- what is written

  type Digit = d: nat | d < 10

  type Letter = l: nat | l < 26

  const DIGITS := "0123456789"
  const SMALL := "abcdefghijklmnopqrstuvwxyz"
  const LARGE := "ABCDEFGHIJKLMNOPQRSTUVWXYZ"

  datatype Cased = Cased(letter: Letter, large: bool)

  /** A number of one or two digits, or a name of three letters. */
  datatype Value = One(d: Digit) | Two(tens: Digit, units: Digit) | Name(x: Cased, y: Cased, z: Cased)

  datatype Range = Any | Single(value: Value) | Between(low: Value, high: Value)

  datatype Stride = ByOne(d: Digit) | ByTwo(tens: Digit, units: Digit)

  datatype Element = Element(range: Range, stride: Option<Stride>)

  datatype Field = Field(first: Element, more: seq<Element>)

  function PrintDigit(d: Digit): string {
    [DIGITS[d]]
  }

  function PrintCased(c: Cased): string {
    if c.large then [LARGE[c.letter]] else [SMALL[c.letter]]
  }

  function PrintValue(v: Value): string {
    match v
    case One(d) => PrintDigit(d)
    case Two(tens, units) => PrintDigit(tens) + PrintDigit(units)
    case Name(x, y, z) => PrintCased(x) + PrintCased(y) + PrintCased(z)
  }

  function PrintRange(r: Range): string {
    match r
    case Any => "*"
    case Single(value) => PrintValue(value)
    case Between(low, high) => PrintValue(low) + "-" + PrintValue(high)
  }

  function PrintStride(s: Stride): string {
    match s
    case ByOne(d) => PrintDigit(d)
    case ByTwo(tens, units) => PrintDigit(tens) + PrintDigit(units)
  }

  function PrintElement(e: Element): string {
    match e.stride
    case None => PrintRange(e.range)
    case Some(stride) => PrintRange(e.range) + "/" + PrintStride(stride)
  }

  function Print(f: Field): string
    decreases |f.more|
  {
    if f.more == [] then PrintElement(f.first)
    else PrintElement(f.first) + "," + Print(Field(f.more[0], f.more[1..]))
  }

  // ---------------------------------------------------------------- characters

  lemma DigitsInOrder(d: Digit)
    ensures DIGITS[d] == '0' + d as char
  {
    assert DIGITS[0] == '0' && DIGITS[1] == '1' && DIGITS[2] == '2' && DIGITS[3] == '3' && DIGITS[4] == '4';
    assert DIGITS[5] == '5' && DIGITS[6] == '6' && DIGITS[7] == '7' && DIGITS[8] == '8' && DIGITS[9] == '9';
  }

  lemma DigitOf(c: char) returns (d: Digit)
    requires IsDigit(c)
    ensures PrintDigit(d) == [c]
  {
    d := (c - '0') as nat;
    DigitsInOrder(d);
  }

  lemma SmallInOrder(l: Letter)
    ensures SMALL[l] == 'a' + l as char
  {
    if l < 13 {
      assert SMALL[0] == 'a' && SMALL[1] == 'b' && SMALL[2] == 'c' && SMALL[3] == 'd' && SMALL[4] == 'e';
      assert SMALL[5] == 'f' && SMALL[6] == 'g' && SMALL[7] == 'h' && SMALL[8] == 'i' && SMALL[9] == 'j';
      assert SMALL[10] == 'k' && SMALL[11] == 'l' && SMALL[12] == 'm';
    } else {
      assert SMALL[13] == 'n' && SMALL[14] == 'o' && SMALL[15] == 'p' && SMALL[16] == 'q' && SMALL[17] == 'r';
      assert SMALL[18] == 's' && SMALL[19] == 't' && SMALL[20] == 'u' && SMALL[21] == 'v' && SMALL[22] == 'w';
      assert SMALL[23] == 'x' && SMALL[24] == 'y' && SMALL[25] == 'z';
    }
  }

  lemma LargeInOrder(l: Letter)
    ensures LARGE[l] == 'A' + l as char
  {
    if l < 13 {
      assert LARGE[0] == 'A' && LARGE[1] == 'B' && LARGE[2] == 'C' && LARGE[3] == 'D' && LARGE[4] == 'E';
      assert LARGE[5] == 'F' && LARGE[6] == 'G' && LARGE[7] == 'H' && LARGE[8] == 'I' && LARGE[9] == 'J';
      assert LARGE[10] == 'K' && LARGE[11] == 'L' && LARGE[12] == 'M';
    } else {
      assert LARGE[13] == 'N' && LARGE[14] == 'O' && LARGE[15] == 'P' && LARGE[16] == 'Q' && LARGE[17] == 'R';
      assert LARGE[18] == 'S' && LARGE[19] == 'T' && LARGE[20] == 'U' && LARGE[21] == 'V' && LARGE[22] == 'W';
      assert LARGE[23] == 'X' && LARGE[24] == 'Y' && LARGE[25] == 'Z';
    }
  }

  lemma LetterOf(c: char) returns (l: Cased)
    requires IsLetter(c)
    ensures PrintCased(l) == [c]
  {
    if 'a' <= c <= 'z' {
      l := Cased((c - 'a') as nat, false);
      SmallInOrder(l.letter);
    } else {
      l := Cased((c - 'A') as nat, true);
      LargeInOrder(l.letter);
    }
  }

  lemma PrintedDigitIsDigit(d: Digit)
    ensures |PrintDigit(d)| == 1 && IsDigit(PrintDigit(d)[0])
  {
    DigitsInOrder(d);
  }

  lemma PrintedLetterIsLetter(c: Cased)
    ensures |PrintCased(c)| == 1 && IsLetter(PrintCased(c)[0])
  {
    SmallInOrder(c.letter);
    LargeInOrder(c.letter);
  }

  // ---------------------------------------------------------------- values and strides

  lemma PrintedValueIsValue(v: Value)
    ensures IsValue(PrintValue(v))
  {
    match v {
      case One(d) => PrintedDigitIsDigit(d);
      case Two(tens, units) =>
        PrintedDigitIsDigit(tens);
        PrintedDigitIsDigit(units);
      case Name(x, y, z) =>
        PrintedLetterIsLetter(x);
        PrintedLetterIsLetter(y);
        PrintedLetterIsLetter(z);
    }
  }

  lemma ValueOf(s: string) returns (v: Value)
    requires IsValue(s)
    ensures PrintValue(v) == s
  {
    if |s| == 3 {
      var x := LetterOf(s[0]);
      var y := LetterOf(s[1]);
      var z := LetterOf(s[2]);
      v := Name(x, y, z);
      assert s == [s[0]] + [s[1]] + [s[2]];
    } else if |s| == 2 {
      var tens := DigitOf(s[0]);
      var units := DigitOf(s[1]);
      v := Two(tens, units);
      assert s == [s[0]] + [s[1]];
    } else {
      var d := DigitOf(s[0]);
      v := One(d);
      assert s == [s[0]];
    }
  }

  lemma PrintedStrideIsStep(s: Stride)
    ensures IsStep(PrintStride(s))
  {
    match s {
      case ByOne(d) => PrintedDigitIsDigit(d);
      case ByTwo(tens, units) =>
        PrintedDigitIsDigit(tens);
        PrintedDigitIsDigit(units);
    }
  }

  lemma StrideOf(s: string) returns (stride: Stride)
    requires IsStep(s)
    ensures PrintStride(stride) == s
  {
    var d := DigitOf(s[0]);
    if |s| == 2 {
      var units := DigitOf(s[1]);
      stride := ByTwo(d, units);
      assert s == [s[0]] + [s[1]];
    } else {
      stride := ByOne(d);
      assert s == [s[0]];
    }
  }

  // ---------------------------------------------------------------- ranges, elements, fields

  /** Two texts and the character between them. */
  lemma Between3(a: string, c: char, b: string)
    ensures var s := a + [c] + b; |a| < |s| && s[|a|] == c && s[..|a|] == a && s[|a| + 1..] == b
  {
  }

  lemma CutAt(s: string, i: nat)
    requires i < |s|
    ensures s == s[..i] + [s[i]] + s[i + 1..]
  {
  }

  lemma PrintedRangeIsRange(r: Range)
    ensures IsRange(PrintRange(r))
  {
    match r {
      case Any =>
      case Single(value) => PrintedValueIsValue(value);
      case Between(low, high) =>
        PrintedValueIsValue(low);
        PrintedValueIsValue(high);
        Between3(PrintValue(low), '-', PrintValue(high));
    }
  }

  lemma RangeOf(s: string) returns (r: Range)
    requires IsRange(s)
    ensures PrintRange(r) == s
  {
    if s == "*" {
      r := Any;
    } else if IsValue(s) {
      var v := ValueOf(s);
      r := Single(v);
    } else {
      var i :| 0 <= i < |s| && s[i] == '-' && IsValue(s[..i]) && IsValue(s[i + 1..]);
      var low := ValueOf(s[..i]);
      var high := ValueOf(s[i + 1..]);
      r := Between(low, high);
      CutAt(s, i);
    }
  }

  lemma PrintedElementIsElement(e: Element)
    ensures IsElement(PrintElement(e))
  {
    PrintedRangeIsRange(e.range);
    if e.stride.Some? {
      PrintedStrideIsStep(e.stride.value);
      Between3(PrintRange(e.range), '/', PrintStride(e.stride.value));
    }
  }

  lemma ElementOf(s: string) returns (e: Element)
    requires IsElement(s)
    ensures PrintElement(e) == s
  {
    if IsRange(s) {
      var r := RangeOf(s);
      e := Element(r, None);
    } else {
      var i :| 0 <= i < |s| && s[i] == '/' && IsRange(s[..i]) && IsStep(s[i + 1..]);
      var r := RangeOf(s[..i]);
      var stride := StrideOf(s[i + 1..]);
      e := Element(r, Some(stride));
      CutAt(s, i);
    }
  }

  lemma {:induction false} PrintedFieldIsField(f: Field)
    ensures IsCronField(Print(f))
    decreases |f.more|
  {
    PrintedElementIsElement(f.first);
    if f.more != [] {
      var rest := Print(Field(f.more[0], f.more[1..]));
      PrintedFieldIsField(Field(f.more[0], f.more[1..]));
      Between3(PrintElement(f.first), ',', rest);
    }
  }

  lemma {:induction false} FieldOf(s: string) returns (f: Field)
    requires IsCronField(s)
    ensures Print(f) == s
    decreases |s|
  {
    if IsElement(s) {
      var e := ElementOf(s);
      f := Field(e, []);
    } else {
      var i :| 0 <= i < |s| && s[i] == ',' && IsElement(s[..i]) && IsCronField(s[i + 1..]);
      var first := ElementOf(s[..i]);
      var rest := FieldOf(s[i + 1..]);
      f := Field(first, [rest.first] + rest.more);
      assert f.more[1..] == rest.more;
      CutAt(s, i);
    }
  }

  /** The fields that are read are exactly the lists of values, ranges and strides, as they are written. */
  lemma FieldsExactlyWhenPrinted(s: string)
    ensures IsCronField(s) <==> exists f: Field :: Print(f) == s
  {
    if IsCronField(s) {
      var f := FieldOf(s);
    } else {
      forall f: Field
        ensures Print(f) != s
      {
        PrintedFieldIsField(f);
      }
    }
  }
}
