/** The identity of a crontab line: FNV-1a over the code units of its source, command and ordinal. */
module ScheduleIds {
  import opened JsText
  import opened Sequences
  import Numerals

  const OFFSET_BASIS := 0x811c9dc5
  const PRIME := 0x01000193
  const TWO_32 := 0x1_0000_0000

  // ---------------------------------------------------------------- ECMAScript's 32-bit arithmetic

  predicate IsUint32(x: int) {
    0 <= x < TWO_32
  }

  function ToUint32(x: int): (r: int)
    ensures IsUint32(r)
  {
    x % TWO_32
  }

  /** What the bitwise operators and `Math.imul` return: the same bits, read as a signed number. */
  function ToInt32(x: int): int {
    if ToUint32(x) >= 0x8000_0000 then ToUint32(x) - TWO_32 else ToUint32(x)
  }

  /** Exclusive or, digit by binary digit. */
  function XorBits(a: nat, b: nat): nat
    decreases a + b
  {
    if a == 0 && b == 0 then 0 else (a % 2 + b % 2) % 2 + 2 * XorBits(a / 2, b / 2)
  }

  lemma {:induction false} XorFits(a: nat, b: nat, k: nat)
    requires a < Numerals.Pow(2, k) && b < Numerals.Pow(2, k)
    ensures XorBits(a, b) < Numerals.Pow(2, k)
    decreases k
  {
    if k > 0 {
      XorFits(a / 2, b / 2, k - 1);
    }
  }

  /** Taking the same word away again undoes it. */
  lemma {:induction false} XorUndone(a: nat, b: nat)
    ensures XorBits(XorBits(a, b), b) == a
    decreases a + b
  {
    if a != 0 || b != 0 {
      XorUndone(a / 2, b / 2);
      LowAndHigh((a % 2 + b % 2) % 2, XorBits(a / 2, b / 2));
      Parity(a % 2, b % 2);
      Numerals.Division(a, 2);
    }
  }

  lemma LowAndHigh(low: nat, high: nat)
    requires low < 2
    ensures (low + 2 * high) % 2 == low && (low + 2 * high) / 2 == high
  {
  }

  lemma Parity(x: nat, y: nat)
    requires x < 2 && y < 2
    ensures ((x + y) % 2 + y) % 2 == x
    ensures (x + y) % 2 == 0 && y == 0 ==> x == 0
  {
  }

  lemma {:induction false} XorCommutes(a: nat, b: nat)
    ensures XorBits(a, b) == XorBits(b, a)
    decreases a + b
  {
    if a != 0 || b != 0 {
      XorCommutes(a / 2, b / 2);
    }
  }

  lemma WordIs32Bits()
    ensures Numerals.Pow(2, 32) == TWO_32
  {
    assert Numerals.Pow(2, 8) == 256;
    assert Numerals.Pow(2, 16) == 0x1_0000;
    assert Numerals.Pow(2, 24) == 0x100_0000;
  }

  function Xor(a: int, b: int): (r: int)
    requires IsUint32(a) && IsUint32(b)
    ensures IsUint32(r)
  {
    WordIs32Bits();
    XorFits(a, b, 32);
    XorBits(a, b)
  }

  /** `a ^ b`. */
  function BitXor(a: int, b: int): int {
    ToInt32(Xor(ToUint32(a), ToUint32(b)))
  }

  /** `Math.imul(a, b)`. */
  function Imul(a: int, b: int): int {
    ToInt32(ToUint32(a) * ToUint32(b))
  }

  // ---------------------------------------------------------------- the code units of a string

  predicate Units(units: seq<int>) {
    forall i | 0 <= i < |units| :: 0 <= units[i] < 0x10000
  }

  /** The UTF-16 code units of one character. */
  function CodeUnits(c: char): (units: seq<int>)
    ensures Units(units)
  {
    var code := c as int;
    if code < 0x10000 then [code] else [0xD800 + (code - 0x10000) / 0x400, 0xDC00 + (code - 0x10000) % 0x400]
  }

  function Utf16(s: string): (units: seq<int>)
    ensures Units(units)
  {
    if s == [] then [] else CodeUnits(s[0]) + Utf16(s[1..])
  }

  // ---------------------------------------------------------------- the hash

  /** FNV-1a as its authors state it: unsigned words, one multiplication modulo the word size per unit. */
  function Fnv1a(units: seq<int>): (hash: int)
    requires Units(units)
    ensures IsUint32(hash)
  {
    if units == [] then OFFSET_BASIS
    else Xor(Fnv1a(units[..|units| - 1]), units[|units| - 1]) * PRIME % TWO_32
  }

  lemma OneMoreUnit(units: seq<int>, unit: int)
    requires Units(units) && 0 <= unit < 0x10000
    ensures Units(units + [unit])
    ensures Fnv1a(units + [unit]) == Xor(Fnv1a(units), unit) * PRIME % TWO_32
  {
    assert (units + [unit])[..|units|] == units;
  }

  /** The published parameters of the hash for 32 bits: its basis, and its prime at every further unit. */
  lemma PublishedParameters(units: seq<int>, unit: int)
    requires Units(units) && 0 <= unit < 0x10000
    ensures Fnv1a([]) == 2_166_136_261
    ensures Units(units + [unit])
    ensures Fnv1a(units + [unit]) == Xor(Fnv1a(units), unit) * 16_777_619 % 4_294_967_296
  {
    OneMoreUnit(units, unit);
  }

  /** One turn of the loop, in signed arithmetic brought back by `>>> 0`, is one turn of the unsigned hash. */
  lemma SignedStep(hash: int, unit: int)
    requires IsUint32(hash) && 0 <= unit < 0x10000
    ensures ToUint32(Imul(BitXor(hash, unit), PRIME)) == Xor(hash, unit) * PRIME % TWO_32
  {
    Small(hash);
    Small(unit);
    SignedProduct(Xor(hash, unit));
  }

  lemma Small(x: int)
    requires IsUint32(x)
    ensures ToUint32(x) == x
  {
  }

  lemma SignedProduct(word: int)
    requires IsUint32(word)
    ensures ToUint32(Imul(ToInt32(word), PRIME)) == word * PRIME % TWO_32
  {
    Unsigned(word);
    Unsigned(ToUint32(ToInt32(word)) * ToUint32(PRIME));
  }

  /** Reading a word as signed and back loses nothing. */
  lemma Unsigned(x: int)
    ensures ToUint32(ToInt32(x)) == ToUint32(x)
  {
    assert (ToUint32(x) - TWO_32) % TWO_32 == ToUint32(x);
  }

  function Input(sourceId: string, command: string, occurrence: nat): string {
    sourceId + "::" + Trim(command) + "::" + Numerals.Render(occurrence, 10)
  }

  /** The text that is hashed: the command without its edge spaces, between the source and the ordinal. */
  lemma InputIsSpelt(sourceId: string)
    ensures Input(sourceId, " c ", 30) == sourceId + "::c::30"
  {
    assert Trim(" c ") == "c";
    assert Numerals.Render(30, 10) == "30";
    Regroup(sourceId, "::", "c");
    assert "::" + "c" + "::" + "30" == "::c::30";
  }

  function ScheduleIdOf(sourceId: string, command: string, occurrence: nat): string {
    Numerals.PadStart(Numerals.Render(Fnv1a(Utf16(Input(sourceId, command, occurrence))), 16), 8)
  }

  method ScheduleId(sourceId: string, command: string, occurrence: nat) returns (id: string)
    ensures id == ScheduleIdOf(sourceId, command, occurrence)
    ensures IsScheduleId(id)
  {
    var input := Utf16(Input(sourceId, command, occurrence));
    var hash := OFFSET_BASIS;
    for i := 0 to |input|
      invariant hash == Fnv1a(input[..i])
    {
      SignedStep(hash, input[i]);
      hash := BitXor(hash, input[i]);
      hash := ToUint32(Imul(hash, PRIME));
      assert input[..i + 1][..i] == input[..i];
    }
    assert input[..|input|] == input;
    id := Numerals.PadStart(Numerals.Render(hash, 16), 8);
    IdIsTheHash(sourceId, command, occurrence);
  }

  // ---------------------------------------------------------------- the shape the contract demands

  /** `^[0-9a-f]{8}$`. */
  predicate IsScheduleId(id: string) {
    |id| == 8 && forall i | 0 <= i < |id| :: Numerals.IsLowerHexDigit(id[i])
  }

  lemma HexBound()
    ensures Numerals.Pow(16, 8) == TWO_32
  {
    assert Numerals.Pow(16, 2) == 256;
    assert Numerals.Pow(16, 4) == 65536;
    assert Numerals.Pow(16, 6) == 0x100_0000;
  }

  /** Every id is eight lower-case hexadecimal digits, and they are the hash: nothing is cut off or folded. */
  lemma IdIsTheHash(sourceId: string, command: string, occurrence: nat)
    ensures IsScheduleId(ScheduleIdOf(sourceId, command, occurrence))
    ensures Numerals.Value(ScheduleIdOf(sourceId, command, occurrence), 16)
            == Fnv1a(Utf16(Input(sourceId, command, occurrence)))
  {
    var hash := Fnv1a(Utf16(Input(sourceId, command, occurrence)));
    HexBound();
    Numerals.RenderIsShort(hash, 16, 8);
    Numerals.RenderedDigits(hash, 16);
    Numerals.Padded(Numerals.Render(hash, 16), 8, 16);
    Numerals.ValueOfRender(hash, 16);
    assert forall c | Numerals.IsDigitIn(c, 16) :: Numerals.IsLowerHexDigit(c);
  }

  // ---------------------------------------------------------------- two lines share an id only by a collision

  /** A text, two colons and a number can be taken apart from the right. */
  lemma {:induction false} SplitAtLastColons(a: string, m: string, b: string, n: string)
    requires Numerals.Decimal(m) && Numerals.Decimal(n)
    requires a + "::" + m == b + "::" + n
    ensures a == b && m == n
  {
    var s, t := a + "::" + m, b + "::" + n;
    assert |s| == |a| + 2 + |m| && |t| == |b| + 2 + |n|;
    assert s[|a| + 1] == ':' && t[|b| + 1] == ':';
    assert forall i | |a| + 2 <= i < |s| :: '0' <= s[i] <= '9' by {
      assert forall i | |a| + 2 <= i < |s| :: s[i] == m[i - |a| - 2];
    }
    assert forall i | |b| + 2 <= i < |t| :: '0' <= t[i] <= '9' by {
      assert forall i | |b| + 2 <= i < |t| :: t[i] == n[i - |b| - 2];
    }
    assert a == s[..|a|] && b == t[..|b|];
    assert m == s[|a| + 2..] && n == t[|b| + 2..];
  }

  /** Within one source, the hashed text tells any two (command, ordinal) pairs apart. */
  lemma InputIsInjective(sourceId: string, c: string, m: nat, d: string, n: nat)
    requires Trimmed(c) && Trimmed(d)
    requires Input(sourceId, c, m) == Input(sourceId, d, n)
    ensures c == d && m == n
  {
    TrimOfTrimmed(c);
    TrimOfTrimmed(d);
    Numerals.RenderedIsDecimal(m);
    Numerals.RenderedIsDecimal(n);
    var a, b := sourceId + "::" + c, sourceId + "::" + d;
    SplitAtLastColons(a, Numerals.Render(m, 10), b, Numerals.Render(n, 10));
    assert c == a[|sourceId| + 2..] && d == b[|sourceId| + 2..];
    Numerals.RenderIsInjective(m, n, 10);
  }

  // ---------------------------------------------------------------- texts that never collide

  /** What undoes the multiplication by the prime, which is odd. */
  const INVERSE := 0x359c449b

  lemma PrimeIsUndone(x: int, y: int)
    requires IsUint32(x) && IsUint32(y) && x * PRIME % TWO_32 == y * PRIME % TWO_32
    ensures x == y
  {
    var d, e := x - y, x * PRIME / TWO_32 - y * PRIME / TWO_32;
    assert d * PRIME == e * TWO_32;
    assert PRIME * INVERSE == 1 + 3513497 * TWO_32;
    assert d == (e * INVERSE - 3513497 * d) * TWO_32;
  }

  /** One turn of the hash keeps apart two words that meet the same unit, and two units that meet the same word. */
  lemma TurnKeepsApart(h: int, u: int, k: int, v: int)
    requires IsUint32(h) && IsUint32(k) && IsUint32(u) && IsUint32(v)
    requires (h == k) != (u == v)
    ensures Xor(h, u) * PRIME % TWO_32 != Xor(k, v) * PRIME % TWO_32
  {
    if Xor(h, u) * PRIME % TWO_32 == Xor(k, v) * PRIME % TWO_32 {
      PrimeIsUndone(Xor(h, u), Xor(k, v));
      XorUndone(h, u);
      XorUndone(k, v);
      XorCommutes(h, u);
      XorCommutes(k, v);
      XorUndone(u, h);
      XorUndone(v, k);
    }
  }

  /** The same units at every place but one. */
  predicate DifferAt(a: seq<int>, b: seq<int>, i: nat) {
    && |a| == |b| && i < |a| && a[i] != b[i]
    && forall j | 0 <= j < |a| && j != i :: a[j] == b[j]
  }

  lemma {:induction false} OneUnitApartNeverCollides(a: seq<int>, b: seq<int>, i: nat)
    requires Units(a) && Units(b) && DifferAt(a, b, i)
    ensures Fnv1a(a) != Fnv1a(b)
    decreases |a|
  {
    var n := |a| - 1;
    if i < n {
      OneUnitApartNeverCollides(a[..n], b[..n], i);
    } else {
      assert a[..n] == b[..n];
    }
    TurnKeepsApart(Fnv1a(a[..n]), a[n], Fnv1a(b[..n]), b[n]);
  }

  lemma {:induction false} Utf16OfConcat(s: string, t: string)
    ensures Utf16(s + t) == Utf16(s) + Utf16(t)
  {
    if s == [] {
      assert s + t == t;
    } else {
      Utf16OfConcat(s[1..], t);
      assert (s + t)[1..] == s[1..] + t;
      Regroup(CodeUnits(s[0]), Utf16(s[1..]), Utf16(t));
    }
  }

  lemma Utf16OfOne(c: char)
    ensures Utf16([c]) == CodeUnits(c)
  {
    assert [c][1..] == [];
    assert CodeUnits(c) + [] == CodeUnits(c);
  }

  lemma Utf16Around(before: string, c: char, after: string)
    ensures Utf16(before + [c] + after) == Utf16(before) + CodeUnits(c) + Utf16(after)
  {
    Utf16OfConcat(before + [c], after);
    Utf16OfConcat(before, [c]);
    Utf16OfOne(c);
  }

  /** Two lines whose hashed texts differ in one character, of one code unit each, never share an id. */
  lemma OneCharacterApartNeverShares(
      source: string, c: string, m: nat, d: string, n: nat, before: string, x: char, y: char, after: string)
    requires Input(source, c, m) == before + [x] + after && Input(source, d, n) == before + [y] + after
    requires x != y && x as int < 0x10000 && y as int < 0x10000
    ensures ScheduleIdOf(source, c, m) != ScheduleIdOf(source, d, n)
  {
    Utf16Around(before, x, after);
    Utf16Around(before, y, after);
    OneUnitApartNeverCollides(Utf16(Input(source, c, m)), Utf16(Input(source, d, n)), |Utf16(before)|);
    IdIsTheHash(source, c, m);
    IdIsTheHash(source, d, n);
  }

  /** The first ten lines with one command have ten different ids. */
  lemma FirstTenCopiesDiffer(source: string, command: string, m: nat, n: nat)
    requires m < 10 && n < 10 && m != n
    ensures ScheduleIdOf(source, command, m) != ScheduleIdOf(source, command, n)
  {
    var before := source + "::" + Trim(command) + "::";
    assert Input(source, command, m) == before + [Numerals.DigitChar(m)] + "";
    assert Input(source, command, n) == before + [Numerals.DigitChar(n)] + "";
    Numerals.DigitIsReadBack(m);
    Numerals.DigitIsReadBack(n);
    OneCharacterApartNeverShares(
      source, command, m, command, n, before, Numerals.DigitChar(m), Numerals.DigitChar(n), "");
  }
}
