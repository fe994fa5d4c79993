/** Redis stream ids: `<millis>-<sequence>`, two numbers compared in that order, as doubles by the gateway. */
module StreamIds {
  import opened Options
  import Numerals
  import Frames

  datatype StreamId = StreamId(ms: nat, sequence: nat)

  /** Every whole number up to here is a double. */
  const EXACT := 0x20_0000_0000_0000

  /** Both parts are exact as doubles, and the id is not the one before all others. */
  predicate Issued(id: StreamId) {
    id.ms < EXACT && id.sequence < EXACT && id != StreamId(0, 0)
  }

  predicate Before(a: StreamId, b: StreamId) {
    a.ms < b.ms || (a.ms == b.ms && a.sequence < b.sequence)
  }

  function Text(id: StreamId): string {
    Numerals.Render(id.ms, 10) + "-" + Numerals.Render(id.sequence, 10)
  }

  // ---------------------------------------------------------------- taking the text apart

  function BeforeDash(s: string): (part: string)
    ensures |part| <= |s|
  {
    if s == [] || s[0] == '-' then [] else [s[0]] + BeforeDash(s[1..])
  }

  /** `s.split("-")[0]`. */
  function MsPart(s: string): string {
    BeforeDash(s)
  }

  /** `s.split("-")[1]`, or `"0"` where there is no second part. */
  function SequencePart(s: string): string {
    var n := |BeforeDash(s)|;
    if n == |s| then "0" else BeforeDash(s[n + 1..])
  }

  /** What a text of digits says. */
  function DigitsOf(s: string): Option<nat> {
    if Numerals.Decimal(s) then Some(Numerals.Value(s, 10)) else None
  }

  /** How far apart the doubles around `n` are. */
  function Spacing(n: nat): (spacing: nat)
    ensures spacing > 0
  {
    if n < EXACT then 1 else 2 * Spacing(n / 2)
  }

  /** The double nearest to `n`, the even one of two. */
  function AsDouble(n: nat): nat {
    var spacing := Spacing(n);
    var below, off := n / spacing, n % spacing;
    if 2 * off < spacing || (2 * off == spacing && below % 2 == 0) then below * spacing else (below + 1) * spacing
  }

  /** `Number(s)` of a text of digits; none is NaN. What else `Number` reads as a number is not modelled. */
  function NumberOf(s: string): Option<nat> {
    match DigitsOf(s)
    case Some(n) => Some(AsDouble(n))
    case None => None
  }

  function Difference(x: int, y: int): int {
    x - y
  }

  /** None is NaN, which is neither less nor greater than anything. */
  function CompareStreamIds(a: string, b: string): Option<int> {
    match (NumberOf(MsPart(a)), NumberOf(MsPart(b)))
    case (Some(x), Some(y)) =>
      if x != y then Some(Difference(x, y))
      else (match (NumberOf(SequencePart(a)), NumberOf(SequencePart(b)))
            case (Some(m), Some(n)) => Some(Difference(m, n))
            case _ => None)
    case _ => None
  }

  /** The position Redis reads from a cursor; a missing sequence is zero. */
  function PositionOf(cursor: string): Option<StreamId> {
    match (DigitsOf(MsPart(cursor)), DigitsOf(SequencePart(cursor)))
    case (Some(ms), Some(sequence)) => Some(StreamId(ms, sequence))
    case _ => None
  }

  // ---------------------------------------------------------------- what the text says

  lemma {:induction false} PartBeforeDash(digits: string, rest: string)
    requires Numerals.Decimal(digits) && (rest == [] || rest[0] == '-')
    ensures BeforeDash(digits + rest) == digits
  {
    if digits == [] {
      assert digits + rest == rest;
    } else {
      assert (digits + rest)[1..] == digits[1..] + rest;
      PartBeforeDash(digits[1..], rest);
    }
  }

  lemma SplitOfText(m: string, n: string)
    requires Numerals.Decimal(m) && Numerals.Decimal(n)
    ensures MsPart(m + "-" + n) == m && SequencePart(m + "-" + n) == n
  {
    var rest := "-" + n;
    var s := m + "-" + n;
    assert s == m + rest;
    PartBeforeDash(m, rest);
    assert s[|m| + 1..] == n;
    PartBeforeDash(n, []);
    assert n + [] == n;
  }

  lemma RenderedIsRead(n: nat)
    ensures DigitsOf(Numerals.Render(n, 10)) == Some(n)
  {
    Numerals.RenderedIsDecimal(n);
    Numerals.ValueOfRender(n, 10);
  }

  lemma PartsOfText(id: StreamId)
    ensures DigitsOf(MsPart(Text(id))) == Some(id.ms)
    ensures DigitsOf(SequencePart(Text(id))) == Some(id.sequence)
  {
    Numerals.RenderedIsDecimal(id.ms);
    Numerals.RenderedIsDecimal(id.sequence);
    SplitOfText(Numerals.Render(id.ms, 10), Numerals.Render(id.sequence, 10));
    RenderedIsRead(id.ms);
    RenderedIsRead(id.sequence);
  }

  lemma TextIsReadBack(id: StreamId)
    ensures PositionOf(Text(id)) == Some(id)
  {
    PartsOfText(id);
  }

  lemma SmallIsExact(n: nat)
    requires n < EXACT
    ensures AsDouble(n) == n
  {
  }

  /** Where `n` lies, the doubles are the multiples of a power of two that leaves 53 binary digits. */
  lemma {:induction false} SpacingLeaves53Digits(n: nat)
    ensures exists k :: Spacing(n) == Numerals.Pow(2, k)
    ensures n < 0x20_0000_0000_0000 ==> Spacing(n) == 1
    ensures n >= 0x20_0000_0000_0000 ==> 0x10_0000_0000_0000 <= n / Spacing(n) < 0x20_0000_0000_0000
  {
    if n < EXACT {
      assert Spacing(n) == Numerals.Pow(2, 0);
    } else {
      SpacingLeaves53Digits(n / 2);
      var k: nat :| Spacing(n / 2) == Numerals.Pow(2, k);
      assert Spacing(n) == Numerals.Pow(2, k + 1);
      HalfThenRest(n, Spacing(n / 2));
    }
  }

  lemma HalfThenRest(n: nat, m: nat)
    requires m > 0
    ensures n / (2 * m) == n / 2 / m
  {
    var q, r := n / 2 / m, n / 2 % m;
    Numerals.Division(n / 2, m);
    assert n / 2 == q * m + r;
    assert n == q * (2 * m) + (2 * r + n % 2);
    Numerals.QuotientIs(n, 2 * m, q, 2 * r + n % 2);
  }

  /** The double taken for `n` is as near as any, and of two the even one. */
  lemma NearestDouble(n: nat)
    ensures var spacing, taken := Spacing(n), AsDouble(n);
            && taken % spacing == 0
            && 2 * n <= 2 * taken + spacing && 2 * taken <= 2 * n + spacing
            && (2 * n == 2 * taken + spacing || 2 * taken == 2 * n + spacing ==> taken / spacing % 2 == 0)
  {
    var spacing := Spacing(n);
    var below, off := n / spacing, n % spacing;
    Numerals.Division(n, spacing);
    Multiples(below, spacing);
    var product := below * spacing;
    assert AsDouble(n) == if 2 * off < spacing || (2 * off == spacing && below % 2 == 0) then product
                          else product + spacing;
    assert n == product + off;
  }

  lemma Multiples(q: nat, m: nat)
    requires m > 0
    ensures (q + 1) * m == q * m + m
    ensures q * m % m == 0 && q * m / m == q
    ensures (q * m + m) % m == 0 && (q * m + m) / m == q + 1
  {
    Numerals.QuotientIs(q * m, m, q, 0);
    assert (q + 1) * m == q * m + m;
    Numerals.QuotientIs((q + 1) * m, m, q + 1, 0);
  }

  /** The id whose parts are the doubles nearest to those of `id`. */
  function Rounded(id: StreamId): StreamId {
    StreamId(AsDouble(id.ms), AsDouble(id.sequence))
  }

  /** The gateway's comparison of texts is the order of the ids, each part taken to the nearest double. */
  lemma CompareIsTheRoundedOrder(a: StreamId, b: StreamId)
    ensures CompareStreamIds(Text(a), Text(b)).Some?
    ensures CompareStreamIds(Text(a), Text(b)).value > 0 <==> Before(Rounded(b), Rounded(a))
    ensures CompareStreamIds(Text(a), Text(b)).value < 0 <==> Before(Rounded(a), Rounded(b))
    ensures CompareStreamIds(Text(a), Text(b)).value == 0 <==> Rounded(a) == Rounded(b)
  {
    PartsOfText(a);
    PartsOfText(b);
  }

  /** For ids that are exact as doubles it is the order of the ids, and a cursor is read back as the id it shows. */
  lemma CompareIsTheOrder(a: StreamId, b: StreamId)
    requires Issued(a) && Issued(b)
    ensures CompareStreamIds(Text(a), Text(b)).Some?
    ensures CompareStreamIds(Text(a), Text(b)).value > 0 <==> Before(b, a)
    ensures CompareStreamIds(Text(a), Text(b)).value < 0 <==> Before(a, b)
    ensures CompareStreamIds(Text(a), Text(b)).value == 0 <==> a == b
    ensures PositionOf(Text(a)) == Some(a)
    ensures Text(a) == Text(b) ==> a == b
  {
    CompareIsTheRoundedOrder(a, b);
    TextIsReadBack(a);
    TextIsReadBack(b);
    SmallIsExact(a.ms);
    SmallIsExact(a.sequence);
    SmallIsExact(b.ms);
    SmallIsExact(b.sequence);
  }

  lemma JustPastExact(n: nat)
    requires n == EXACT || n == EXACT + 1
    ensures AsDouble(n) == EXACT
  {
    assert n / 2 == EXACT / 2;
    assert Spacing(n / 2) == 1;
    assert Spacing(n) == 2;
    assert n % 2 == n - EXACT;
    assert EXACT / 2 % 2 == 0;
  }

  /** The first two ids that the comparison takes for one. */
  lemma HugeIdsCompareEqual()
    ensures Before(StreamId(EXACT, 0), StreamId(EXACT + 1, 0))
    ensures CompareStreamIds(Text(StreamId(EXACT, 0)), Text(StreamId(EXACT + 1, 0))) == Some(0)
  {
    CompareIsTheRoundedOrder(StreamId(EXACT, 0), StreamId(EXACT + 1, 0));
    JustPastExact(EXACT);
    JustPastExact(EXACT + 1);
  }

  lemma SixteenDigitsAreEnough()
    ensures EXACT <= Numerals.Pow(10, 16)
  {
    assert Numerals.Pow(10, 4) == 10000;
    assert Numerals.Pow(10, 8) == 1_0000_0000;
    assert Numerals.Pow(10, 12) == 1_0000_0000_0000;
  }

  /** An id fits a frame: ASCII, at most thirty-three bytes, and never empty. */
  lemma TextFitsAFrame(id: StreamId)
    requires Issued(id)
    ensures Frames.IsAscii(Text(id)) && 0 < |Text(id)| <= 33
    ensures |Frames.Utf8(Text(id))| == |Text(id)|
    ensures Text(id) != "0"
  {
    Numerals.RenderedIsDecimal(id.ms);
    Numerals.RenderedIsDecimal(id.sequence);
    SixteenDigitsAreEnough();
    Numerals.RenderIsShort(id.ms, 10, 16);
    Numerals.RenderIsShort(id.sequence, 10, 16);
    Frames.Utf8OfAscii(Text(id));
    assert Text(id)[|Numerals.Render(id.ms, 10)|] == '-';
  }
}
