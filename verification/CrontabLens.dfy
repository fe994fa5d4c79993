/**
 * The crontab as a lens over every text: what a write does to the jobs, to the managed entries and to the lines
 * nobody asked the platform to touch. Where a promise does not hold of every text, the texts it holds of are given
 * exactly.
 */
module CrontabLens {
  import opened JsText
  import opened Lines
  import opened Sequences
  import opened Crontab
  import opened CrontabLines
  import opened CrontabLaws

  // ---------------------------------------------------------------- the three pieces of a file

  /** An end delimiter stands before the first begin delimiter. */
  predicate StrayEnd(raws: seq<string>) {
    0 <= FindEnd(raws) < FindBegin(raws)
  }

  /** The begin delimiter is closed by the first end delimiter of the file. */
  predicate Closed(raws: seq<string>) {
    0 <= FindBegin(raws) < FindEnd(raws)
  }

  /** The lines a write replaces. */
  function OldBody(raws: seq<string>): seq<string> {
    var begin, end := FindBegin(raws), FindEnd(raws);
    if begin < 0 then [] else if end > begin then raws[begin + 1..end] else raws[begin + 1..]
  }

  lemma BlankIsNoDelimiter()
    ensures !IsBegin("") && !IsEnd("") && Trim("") == ""
    ensures IsBegin(MANAGED_BEGIN) && !IsEnd(MANAGED_BEGIN) && IsEnd(MANAGED_END) && !IsBegin(MANAGED_END)
  {
    DelimitersDiffer();
    TrimOfTrimmed(MANAGED_BEGIN);
    TrimOfTrimmed(MANAGED_END);
  }

  /** What stands before the begin delimiter of `Head`. */
  function BeforeBegin(raws: seq<string>): seq<string>
    requires raws != []
  {
    var begin := FindBegin(raws);
    if begin >= 0 then raws[..begin] else if raws[|raws| - 1] == [] then raws else raws + [""]
  }

  /** The begin delimiter of `Head`, as the file has it or as it is appended. */
  function BeginLine(raws: seq<string>): string {
    if FindBegin(raws) >= 0 then raws[FindBegin(raws)] else MANAGED_BEGIN
  }

  lemma HeadEndsWithBegin(raws: seq<string>)
    requires raws != []
    ensures NoBegin(BeforeBegin(raws)) && IsBegin(BeginLine(raws))
    ensures Head(raws) == BeforeBegin(raws) + [BeginLine(raws)]
  {
    if FindBegin(raws) < 0 {
      BlankIsNoDelimiter();
      AppendedHead(raws);
    } else {
      FoundHead(raws);
    }
  }

  lemma FoundHead(raws: seq<string>)
    requires raws != [] && FindBegin(raws) >= 0
    ensures Head(raws) == BeforeBegin(raws) + [BeginLine(raws)]
  {
  }

  lemma AppendedHead(raws: seq<string>)
    requires raws != [] && FindBegin(raws) < 0
    ensures Head(raws) == BeforeBegin(raws) + [MANAGED_BEGIN]
  {
    var last := raws[|raws| - 1];
    var cut := if last == [] then raws[..|raws| - 1] else raws;
    assert last == [] ==> cut + [last] == raws;
    AppendTwo(cut, "", MANAGED_BEGIN);
  }

  lemma TailStartsWithEnd(raws: seq<string>)
    requires raws != []
    ensures Tail(raws) != [] && IsEnd(Tail(raws)[0])
    ensures !Closed(raws) ==> Tail(raws) == [MANAGED_END, ""]
  {
    BlankIsNoDelimiter();
  }

  lemma SingleStretch(raws: seq<string>, lo: nat, hi: nat)
    requires SingleLines(raws) && lo <= hi <= |raws|
    ensures SingleLines(raws[lo..hi])
  {
  }

  lemma SingleTogether(a: seq<string>, b: seq<string>)
    requires SingleLines(a) && SingleLines(b)
    ensures SingleLines(a + b)
  {
  }

  lemma DelimitersAreSingle()
    ensures SingleLines(["", MANAGED_BEGIN]) && SingleLines([MANAGED_END, ""])
  {
    DelimitersDiffer();
  }

  lemma HeadIsSingleLines(raws: seq<string>)
    requires raws != [] && SingleLines(raws)
    ensures SingleLines(Head(raws))
  {
    DelimitersAreSingle();
    if FindBegin(raws) >= 0 {
      SingleStretch(raws, 0, FindBegin(raws) + 1);
    } else {
      SingleStretch(raws, 0, |raws| - 1);
      SingleTogether(if raws[|raws| - 1] == [] then raws[..|raws| - 1] else raws, ["", MANAGED_BEGIN]);
    }
  }

  lemma TailIsSingleLines(raws: seq<string>)
    requires raws != [] && SingleLines(raws)
    ensures SingleLines(Tail(raws))
  {
    DelimitersAreSingle();
  }

  lemma PiecesAreSingleLines(text: string)
    ensures SingleLines(Head(SplitLines(text))) && SingleLines(Tail(SplitLines(text)))
  {
    SplitLinesAreSingle(text);
    HeadIsSingleLines(SplitLines(text));
    TailIsSingleLines(SplitLines(text));
  }

  /** The lines of the written file: head, rendered entries, tail. */
  lemma WrittenLines(text: string, entries: seq<Entry>)
    requires SingleLines(RenderEntries(entries))
    ensures var raws := SplitLines(text);
            SplitLines(WriteManagedBlock(text, entries)) == Head(raws) + RenderEntries(entries) + Tail(raws)
  {
    PiecesAreSingleLines(text);
    SplitOfJoin(Head(SplitLines(text)) + RenderEntries(entries) + Tail(SplitLines(text)));
  }

  // ---------------------------------------------------------------- PutPut

  lemma FirstBeginIs(before: seq<string>, begin: string, after: seq<string>)
    requires NoBegin(before) && IsBegin(begin)
    ensures FindBegin(before + [begin] + after) == |before|
  {
    var raws := before + [begin] + after;
    assert raws[|before|] == begin;
    assert forall k | 0 <= k < |before| :: raws[k] == before[k];
  }

  lemma FirstEndIs(before: seq<string>, after: seq<string>)
    requires NoEnd(before) && after != [] && IsEnd(after[0])
    ensures FindEnd(before + after) == |before|
  {
    var raws := before + after;
    assert raws[|before|] == after[0];
    assert forall k | 0 <= k < |before| :: raws[k] == before[k];
  }

  lemma EarlyEndIs(before: seq<string>, after: seq<string>)
    requires !NoEnd(before)
    ensures 0 <= FindEnd(before + after) < |before|
  {
    var k :| 0 <= k < |before| && IsEnd(before[k]);
    assert (before + after)[k] == before[k];
  }

  /** A write leaves the head and the tail of the file as they are, so the next write finds the same ones. */
  lemma PiecesSurvive(raws: seq<string>, body: seq<string>)
    requires raws != [] && NoEnd(body)
    ensures Head(Head(raws) + body + Tail(raws)) == Head(raws)
    ensures Tail(Head(raws) + body + Tail(raws)) == Tail(raws)
  {
    var head, tail := Head(raws), Tail(raws);
    var written := head + body + tail;
    HeadEndsWithBegin(raws);
    TailStartsWithEnd(raws);
    FirstBeginIs(BeforeBegin(raws), BeginLine(raws), body + tail);
    Regroup(head, body, tail);
    assert Head(written) == head;
    if Closed(raws) {
      ClosedHeadHasNoEnd(raws);
    }
    if NoEnd(head) {
      FirstEndIs(head + body, tail);
      assert written[|head + body|..] == tail;
    } else {
      EarlyEndIs(head, body + tail);
    }
  }

  lemma ClosedHeadHasNoEnd(raws: seq<string>)
    requires raws != [] && Closed(raws)
    ensures NoEnd(Head(raws))
  {
    assert Head(raws) == raws[..FindBegin(raws) + 1];
    assert forall k | 0 <= k < |Head(raws)| :: Head(raws)[k] == raws[k];
  }

  /**
   * PutPut: a second write makes the first one as if it had not been, on every text: without a block, with a closed
   * one, with an unclosed one and with a stray end delimiter. The first write's entries must render to lines that do
   * not close the block.
   */
  lemma PutPut(text: string, first: seq<Entry>, second: seq<Entry>)
    requires SingleLines(RenderEntries(first)) && NoEnd(RenderEntries(first))
    ensures WriteManagedBlock(WriteManagedBlock(text, first), second) == WriteManagedBlock(text, second)
  {
    WrittenLines(text, first);
    PiecesSurvive(SplitLines(text), RenderEntries(first));
  }

  /** Writing back what a file holds settles after one write: the second write of the same entries changes nothing. */
  lemma WritingBackSettles(text: string)
    ensures var entries := ManagedJobs(Parsed(text));
            WriteManagedBlock(WriteManagedBlock(text, entries), entries) == WriteManagedBlock(text, entries)
  {
    var entries := ManagedJobs(Parsed(text));
    EntriesReadAreShaped(text);
    RenderedBody(entries);
    PutPut(text, entries, entries);
  }

  lemma EntriesReadAreShaped(text: string)
    ensures AllShaped(ManagedJobs(Parsed(text)))
  {
    ManagedJobsAreEntries(Parsed(text));
    JobsOfParsed(SplitLines(text), false);
    ParsedEntriesAreShaped(SplitLines(text), false);
  }

  // ---------------------------------------------------------------- the jobs before and after a write

  lemma NoJobIn(raw: string, m: bool)
    requires IsBegin(raw) || IsEnd(raw) || Trim(raw) == []
    ensures JobsIn([raw], m) == []
  {
    JobsInCons(raw, [], m);
    assert [raw] + [] == [raw];
  }

  /** Nothing in the head is managed, and the block is open after it. */
  lemma HeadIsForeign(raws: seq<string>)
    requires raws != []
    ensures NoneManaged(JobsIn(Head(raws), false)) && BlockAfterAll(Head(raws), false)
    ensures JobsIn(Head(raws), false) == JobsIn(BeforeBegin(raws), false)
  {
    HeadEndsWithBegin(raws);
    var begin := BeginLine(raws);
    OutsideTheBlock(BeforeBegin(raws));
    JobsInConcat(BeforeBegin(raws), [begin], false);
    JobsInCons(begin, [], false);
    assert [begin] + [] == [begin];
  }

  lemma FreshTailHasNoJobs()
    ensures JobsIn([MANAGED_END, ""], true) == []
  {
    BlankIsNoDelimiter();
    NoJobIn(MANAGED_END, true);
    JobsInConcat([MANAGED_END], [""], true);
    NoJobIn("", BlockAfterAll([MANAGED_END], true));
  }

  /** The jobs of the lines as they stand: those of the head, of what a write replaces, and of the tail. */
  predicate JobsInPieces(raws: seq<string>)
    requires raws != []
  {
    JobsIn(raws, false) == JobsIn(Head(raws), false) + JobsIn(OldBody(raws), true) + JobsIn(Tail(raws), true)
  }

  /** How the lines make up the pieces. */
  lemma PiecesOf(raws: seq<string>)
    requires raws != []
    ensures Closed(raws) ==> raws == Head(raws) + OldBody(raws) + Tail(raws)
    ensures !Closed(raws) ==> Tail(raws) == [MANAGED_END, ""]
    ensures FindBegin(raws) >= 0 && !Closed(raws) ==> raws == Head(raws) + OldBody(raws)
    ensures FindBegin(raws) < 0
            ==> OldBody(raws) == [] && (BeforeBegin(raws) == raws || BeforeBegin(raws) == raws + [""])
  {
    if Closed(raws) {
      CutInThree(raws, FindBegin(raws) + 1, FindEnd(raws));
    } else if FindBegin(raws) >= 0 {
      CutInThree(raws, FindBegin(raws) + 1, |raws|);
    }
  }

  lemma BlankAddsNoJobs(raws: seq<string>)
    ensures JobsIn(raws + [""], false) == JobsIn(raws, false)
  {
    JobsInConcat(raws, [""], false);
    BlankIsNoDelimiter();
    NoJobIn("", BlockAfterAll(raws, false));
  }

  lemma JobsOfClosed(head: seq<string>, body: seq<string>, tail: seq<string>)
    requires BlockAfterAll(head, false) && NoEnd(body)
    ensures JobsIn(head + body + tail, false) == JobsIn(head, false) + JobsIn(body, true) + JobsIn(tail, true)
  {
    JobsOfThree(head, body, tail);
    InsideTheBlock(body);
  }

  lemma JobsOfOpen(head: seq<string>, body: seq<string>)
    requires BlockAfterAll(head, false)
    ensures JobsIn(head + body, false) == JobsIn(head, false) + JobsIn(body, true) + []
  {
    JobsInConcat(head, body, false);
  }

  lemma JobsBefore(text: string)
    ensures Jobs(Parsed(text)) == JobsIn(SplitLines(text), false) && JobsInPieces(SplitLines(text))
  {
    var raws := SplitLines(text);
    JobsOfParsed(raws, false);
    JobsOfLines(raws);
  }

  lemma JobsWithoutBlock(raws: seq<string>)
    requires raws != [] && FindBegin(raws) < 0
    ensures JobsIn(raws, false) == JobsIn(Head(raws), false)
  {
    PiecesOf(raws);
    HeadIsForeign(raws);
    BlankAddsNoJobs(raws);
  }

  lemma JobsWithClosedBlock(raws: seq<string>)
    requires raws != [] && Closed(raws)
    ensures JobsInPieces(raws)
  {
    PiecesOf(raws);
    HeadIsForeign(raws);
    OldBodyIsOpen(raws);
    JobsOfClosed(Head(raws), OldBody(raws), Tail(raws));
  }

  lemma JobsWithOpenBlock(raws: seq<string>)
    requires raws != [] && FindBegin(raws) >= 0 && !Closed(raws)
    ensures JobsIn(raws, false) == JobsIn(Head(raws), false) + JobsIn(OldBody(raws), true) + []
  {
    PiecesOf(raws);
    HeadIsForeign(raws);
    JobsOfOpen(Head(raws), OldBody(raws));
  }

  lemma JobsOfLines(raws: seq<string>)
    requires raws != []
    ensures JobsInPieces(raws)
  {
    FreshTailHasNoJobs();
    if FindBegin(raws) < 0 {
      JobsWithoutBlock(raws);
    } else if Closed(raws) {
      JobsWithClosedBlock(raws);
    } else {
      JobsWithOpenBlock(raws);
    }
  }

  lemma JobsOfThree(head: seq<string>, body: seq<string>, tail: seq<string>)
    requires BlockAfterAll(head, false)
    ensures JobsIn(head + body + tail, false)
         == JobsIn(head, false) + JobsIn(body, true) + JobsIn(tail, BlockAfterAll(body, true))
  {
    JobsInConcat(head + body, tail, false);
    JobsInConcat(head, body, false);
  }

  /** What a closed block holds is all managed, and so is what a block holds that no end delimiter precedes. */
  lemma OldBodyIsOpen(raws: seq<string>)
    requires !StrayEnd(raws)
    ensures NoEnd(OldBody(raws))
    ensures AllManaged(JobsIn(OldBody(raws), true)) && BlockAfterAll(OldBody(raws), true)
  {
    InsideTheBlock(OldBody(raws));
  }

  /** The jobs of the file as it is written: those of the head, the entries, those of the tail. */
  lemma JobsAfter(text: string, entries: seq<Entry>)
    requires AllShaped(entries)
    ensures Jobs(Parsed(WriteManagedBlock(text, entries)))
         == JobsIn(Head(SplitLines(text)), false) + ManagedFrom(entries) + JobsIn(Tail(SplitLines(text)), true)
  {
    var raws := SplitLines(text);
    var body := RenderEntries(entries);
    RenderedBody(entries);
    WrittenLines(text, entries);
    JobsOfParsed(Head(raws) + body + Tail(raws), false);
    HeadIsForeign(raws);
    InsideTheBlock(body);
    JobsOfThree(Head(raws), body, Tail(raws));
    BodyIsReadBack(entries);
  }

  lemma EntriesOfThree(head: seq<Job>, body: seq<Job>, tail: seq<Job>)
    requires NoneManaged(head)
    ensures EntriesOf(head + body + tail) == EntriesOf(body) + EntriesOf(tail)
  {
    EntriesOfNone(head);
    EntriesOfConcat(head + body, tail);
    EntriesOfConcat(head, body);
  }

  lemma EntriesBefore(text: string)
    ensures var raws := SplitLines(text);
            ManagedJobs(Parsed(text)) == EntriesOf(JobsIn(OldBody(raws), true)) + EntriesOf(JobsIn(Tail(raws), true))
  {
    var raws := SplitLines(text);
    ManagedJobsAreEntries(Parsed(text));
    JobsBefore(text);
    HeadIsForeign(raws);
    EntriesOfThree(JobsIn(Head(raws), false), JobsIn(OldBody(raws), true), JobsIn(Tail(raws), true));
  }

  // ---------------------------------------------------------------- PutGet

  /** What a read finds after any write: the entries written, and then what a second block after the tail holds. */
  lemma GetOfPut(text: string, entries: seq<Entry>)
    requires AllShaped(entries)
    ensures ManagedJobs(Parsed(WriteManagedBlock(text, entries)))
            == entries + EntriesOf(JobsIn(Tail(SplitLines(text)), true))
  {
    var raws := SplitLines(text);
    ManagedJobsAreEntries(Parsed(WriteManagedBlock(text, entries)));
    JobsAfter(text, entries);
    HeadIsForeign(raws);
    EntriesOfThree(JobsIn(Head(raws), false), ManagedFrom(entries), JobsIn(Tail(raws), true));
    EntriesOfManaged(entries);
  }

  /** PutGet holds of a text exactly when no managed job stands after its block. */
  lemma PutGetExactlyWhen(text: string, entries: seq<Entry>)
    requires AllShaped(entries)
    ensures ManagedJobs(Parsed(WriteManagedBlock(text, entries))) == entries
       <==> NoneManaged(JobsIn(Tail(SplitLines(text)), true))
  {
    var after := JobsIn(Tail(SplitLines(text)), true);
    GetOfPut(text, entries);
    NoneManagedExactlyWhen(after);
    assert |entries + EntriesOf(after)| == |entries| + |EntriesOf(after)|;
    if EntriesOf(after) == [] {
      assert entries + EntriesOf(after) == entries;
    }
  }

  lemma {:induction false} NoneManagedExactlyWhen(jobs: seq<Job>)
    ensures NoneManaged(jobs) <==> EntriesOf(jobs) == []
  {
    if NoneManaged(jobs) {
      EntriesOfNone(jobs);
    } else {
      var k :| 0 <= k < |jobs| && jobs[k].managed;
      if k == 0 {
        assert |EntryOf(jobs[0])| == 1;
      } else {
        assert jobs[1..][k - 1] == jobs[k];
        NoneManagedExactlyWhen(jobs[1..]);
      }
    }
  }

  /** The tail's first line closes the block, so without another begin delimiter nothing in it is managed. */
  lemma TailIsForeign(raws: seq<string>)
    requires raws != [] && NoBegin(Tail(raws))
    ensures NoneManaged(JobsIn(Tail(raws), true))
  {
    var tail := Tail(raws);
    TailStartsWithEnd(raws);
    assert tail == [tail[0]] + tail[1..];
    assert forall i | 0 <= i < |tail| - 1 :: tail[1..][i] == tail[i + 1];
    JobsInCons(tail[0], tail[1..], true);
    OutsideTheBlock(tail[1..]);
  }

  /** PutGet, for every text without a begin delimiter after its block. */
  lemma PutGet(text: string, entries: seq<Entry>)
    requires AllShaped(entries) && NoBegin(Tail(SplitLines(text)))
    ensures ManagedJobs(Parsed(WriteManagedBlock(text, entries))) == entries
  {
    TailIsForeign(SplitLines(text));
    PutGetExactlyWhen(text, entries);
  }

  // ---------------------------------------------------------------- the frame

  /** The lines outside the block, blank ones included, delimiters aside. */
  function Foreign(raws: seq<string>, m: bool): seq<string> {
    if raws == [] then [] else ForeignLine(raws[0], m) + Foreign(raws[1..], BlockAfter(raws[0], m))
  }

  function ForeignLine(raw: string, m: bool): seq<string> {
    if m || IsBegin(raw) || IsEnd(raw) then [] else [raw]
  }

  lemma ForeignCons(raw: string, rest: seq<string>, m: bool)
    ensures Foreign([raw] + rest, m) == ForeignLine(raw, m) + Foreign(rest, BlockAfter(raw, m))
  {
    assert ([raw] + rest)[1..] == rest;
  }

  lemma ForeignOfOne(raw: string, m: bool)
    ensures Foreign([raw], m) == ForeignLine(raw, m)
  {
    ForeignCons(raw, [], m);
    assert [raw] + [] == [raw];
  }

  lemma {:induction false} ForeignConcat(a: seq<string>, b: seq<string>, m: bool)
    ensures Foreign(a + b, m) == Foreign(a, m) + Foreign(b, BlockAfterAll(a, m))
  {
    if a == [] {
      assert a + b == b;
    } else {
      var next := BlockAfter(a[0], m);
      ForeignConcat(a[1..], b, next);
      assert a == [a[0]] + a[1..];
      Regroup([a[0]], a[1..], b);
      ForeignCons(a[0], a[1..] + b, m);
      Regroup(ForeignLine(a[0], m), Foreign(a[1..], next), Foreign(b, BlockAfterAll(a[1..], next)));
    }
  }

  lemma {:induction false} NothingForeignInside(raws: seq<string>)
    requires NoEnd(raws)
    ensures Foreign(raws, true) == []
  {
    if raws != [] {
      assert forall i | 0 <= i < |raws| - 1 :: raws[1..][i] == raws[i + 1];
      NothingForeignInside(raws[1..]);
    }
  }

  lemma ForeignOfThree(head: seq<string>, body: seq<string>, tail: seq<string>)
    requires BlockAfterAll(head, false)
    ensures Foreign(head + body + tail, false)
         == Foreign(head, false) + Foreign(body, true) + Foreign(tail, BlockAfterAll(body, true))
  {
    ForeignConcat(head + body, tail, false);
    ForeignConcat(head, body, false);
    JobsInConcat(head, body, false);
  }

  /** The empty lines a write appends: around a block that was not there, or behind one that was not closed. */
  function Added(raws: seq<string>): seq<string>
    requires raws != []
  {
    if Closed(raws) then [] else if FindBegin(raws) >= 0 || raws[|raws| - 1] == [] then [""] else ["", ""]
  }

  lemma FreshTailIsOneBlank()
    ensures Foreign([MANAGED_END, ""], true) == [""]
  {
    BlankIsNoDelimiter();
    ForeignCons(MANAGED_END, [""], true);
    assert [MANAGED_END] + [""] == [MANAGED_END, ""];
    ForeignOfOne("", false);
  }

  predicate ForeignInPieces(raws: seq<string>)
    requires raws != []
  {
    Foreign(raws, false) + Added(raws)
        == Foreign(Head(raws), false) + Foreign(OldBody(raws), true) + Foreign(Tail(raws), true)
  }

  lemma BlankIsForeign(raws: seq<string>)
    requires NoBegin(raws)
    ensures Foreign(raws + [""], false) == Foreign(raws, false) + [""]
  {
    BlankIsNoDelimiter();
    OutsideTheBlock(raws);
    ForeignConcat(raws, [""], false);
    ForeignOfOne("", false);
  }

  lemma BeginAddsNothingForeign(before: seq<string>, begin: string)
    requires IsBegin(begin)
    ensures Foreign(before + [begin], false) == Foreign(before, false)
  {
    ForeignConcat(before, [begin], false);
    ForeignOfOne(begin, BlockAfterAll(before, false));
  }

  lemma ForeignOfClosed(head: seq<string>, body: seq<string>, tail: seq<string>)
    requires BlockAfterAll(head, false) && NoEnd(body)
    ensures Foreign(head + body + tail, false) == Foreign(head, false) + Foreign(body, true) + Foreign(tail, true)
  {
    ForeignOfThree(head, body, tail);
    InsideTheBlock(body);
  }

  lemma ForeignOfOpen(head: seq<string>, body: seq<string>)
    requires BlockAfterAll(head, false)
    ensures Foreign(head + body, false) == Foreign(head, false) + Foreign(body, true) + []
  {
    ForeignConcat(head, body, false);
  }

  lemma ForeignWithoutBlock(raws: seq<string>)
    requires raws != [] && FindBegin(raws) < 0
    ensures Foreign(raws, false) + Added(raws) == Foreign(Head(raws), false) + [""]
  {
    HeadEndsWithBegin(raws);
    BeginAddsNothingForeign(BeforeBegin(raws), BeginLine(raws));
    if raws[|raws| - 1] != [] {
      BlankIsForeign(raws);
      AppendTwo(Foreign(raws, false), "", "");
    }
  }

  lemma ForeignWithClosedBlock(raws: seq<string>)
    requires raws != [] && Closed(raws)
    ensures Foreign(raws, false)
            == Foreign(Head(raws), false) + Foreign(OldBody(raws), true) + Foreign(Tail(raws), true)
  {
    PiecesOf(raws);
    HeadIsForeign(raws);
    OldBodyIsOpen(raws);
    ForeignOfClosed(Head(raws), OldBody(raws), Tail(raws));
  }

  lemma ForeignWithOpenBlock(raws: seq<string>)
    requires raws != [] && FindBegin(raws) >= 0 && !Closed(raws)
    ensures Foreign(raws, false) == Foreign(Head(raws), false) + Foreign(OldBody(raws), true)
  {
    PiecesOf(raws);
    HeadIsForeign(raws);
    ForeignOfOpen(Head(raws), OldBody(raws));
  }

  lemma ForeignBefore(raws: seq<string>)
    requires raws != []
    ensures ForeignInPieces(raws)
  {
    if Closed(raws) {
      ForeignWithClosedBlock(raws);
      assert Foreign(raws, false) + [] == Foreign(raws, false);
    } else {
      FreshTailIsOneBlank();
      if FindBegin(raws) < 0 {
        ForeignWithoutBlock(raws);
      } else {
        ForeignWithOpenBlock(raws);
      }
    }
  }

  lemma ForeignAfter(text: string, entries: seq<Entry>)
    requires AllShaped(entries)
    ensures var raws := SplitLines(text);
            Foreign(SplitLines(WriteManagedBlock(text, entries)), false)
                == Foreign(Head(raws), false) + [] + Foreign(Tail(raws), true)
  {
    var raws := SplitLines(text);
    var body := RenderEntries(entries);
    RenderedBody(entries);
    WrittenLines(text, entries);
    HeadIsForeign(raws);
    InsideTheBlock(body);
    NothingForeignInside(body);
    ForeignOfThree(Head(raws), body, Tail(raws));
  }

  /**
   * The lines outside the block come back byte for byte and in order, blank ones included, followed by nothing but the
   * blank lines a write appends, exactly when nothing the write replaces is outside the block.
   */
  lemma ForeignLinesSurviveExactlyWhen(text: string, entries: seq<Entry>)
    requires AllShaped(entries)
    ensures var raws := SplitLines(text);
            Foreign(SplitLines(WriteManagedBlock(text, entries)), false) == Foreign(raws, false) + Added(raws)
            <==> Foreign(OldBody(raws), true) == []
  {
    var raws := SplitLines(text);
    ForeignAfter(text, entries);
    ForeignBefore(raws);
    SameWithoutMiddle(Foreign(Head(raws), false), Foreign(OldBody(raws), true), Foreign(Tail(raws), true));
  }

  lemma SameWithoutMiddle<T>(a: seq<T>, b: seq<T>, c: seq<T>)
    ensures a + [] + c == a + b + c <==> b == []
  {
    assert |a + [] + c| == |a| + |c| && |a + b + c| == |a| + |b| + |c|;
  }

  /** Without an end delimiter before the first begin delimiter, no foreign line is ever lost. */
  lemma ForeignLinesSurvive(text: string, entries: seq<Entry>)
    requires AllShaped(entries) && !StrayEnd(SplitLines(text))
    ensures Foreign(SplitLines(WriteManagedBlock(text, entries)), false)
            == Foreign(SplitLines(text), false) + Added(SplitLines(text))
  {
    OldBodyIsOpen(SplitLines(text));
    NothingForeignInside(OldBody(SplitLines(text)));
    ForeignLinesSurviveExactlyWhen(text, entries);
  }

  /** A line the write loses: it stands after a block that an end delimiter precedes. */
  lemma StrayEndLosesALine(line: string, entries: seq<Entry>)
    requires '\n' !in line && !IsBegin(line) && !IsEnd(line) && AllShaped(entries)
    ensures var text := JoinLines([MANAGED_END, MANAGED_BEGIN, MANAGED_END, line]);
            && Foreign(SplitLines(text), false) == [line]
            && Foreign(SplitLines(WriteManagedBlock(text, entries)), false) == [""]
  {
    var raws := [MANAGED_END, MANAGED_BEGIN, MANAGED_END, line];
    DelimitersDiffer();
    SplitOfJoin(raws);
    ForeignAfter(JoinLines(raws), entries);
    StrayEndPieces(line);
    StrayEndForeign(line);
    FreshTailIsOneBlank();
  }

  lemma StrayEndPieces(line: string)
    requires !IsBegin(line) && !IsEnd(line)
    ensures var raws := [MANAGED_END, MANAGED_BEGIN, MANAGED_END, line];
            Head(raws) == [MANAGED_END, MANAGED_BEGIN] && Tail(raws) == [MANAGED_END, ""]
  {
    var raws := [MANAGED_END, MANAGED_BEGIN, MANAGED_END, line];
    BlankIsNoDelimiter();
    FirstBeginIs([MANAGED_END], MANAGED_BEGIN, [MANAGED_END, line]);
    assert [MANAGED_END] + [MANAGED_BEGIN] + [MANAGED_END, line] == raws;
    FirstEndIs([], raws);
    assert [] + raws == raws;
    assert raws[..2] == [MANAGED_END, MANAGED_BEGIN];
  }

  /** A delimiter contributes nothing, and opens or closes the block. */
  lemma DelimiterThen(delimiter: string, rest: seq<string>, m: bool)
    requires IsBegin(delimiter) || IsEnd(delimiter)
    ensures Foreign([delimiter] + rest, m) == Foreign(rest, IsBegin(delimiter))
  {
    ForeignCons(delimiter, rest, m);
  }

  lemma StrayEndForeign(line: string)
    requires !IsBegin(line) && !IsEnd(line)
    ensures Foreign([MANAGED_END, MANAGED_BEGIN, MANAGED_END, line], false) == [line]
    ensures Foreign([MANAGED_END, MANAGED_BEGIN], false) == []
  {
    var e, b := MANAGED_END, MANAGED_BEGIN;
    BlankIsNoDelimiter();
    ForeignOfOne(line, false);
    DelimiterThen(e, [line], true);
    DelimiterThen(b, [e] + [line], false);
    DelimiterThen(e, [b] + ([e] + [line]), false);
    assert [e] + ([b] + ([e] + [line])) == [e, b, e, line];
    DelimiterThen(b, [], false);
    DelimiterThen(e, [b] + [], false);
    assert [e] + ([b] + []) == [e, b];
  }

  // ---------------------------------------------------------------- a second block

  function SecondBlock(extra: Entry): seq<string> {
    [MANAGED_BEGIN] + ([MANAGED_END] + ([MANAGED_BEGIN] + ([RenderEntry(extra)] + [MANAGED_END])))
  }

  function JobFor(entry: Entry): Job {
    Job(entry.expression, entry.command, entry.enabled, true)
  }

  /** A text with an entry in a second block: every write is read back with that entry too, so PutGet fails on it. */
  lemma SecondBlockIsReadToo(extra: Entry, entries: seq<Entry>)
    requires EntryShaped(extra) && AllShaped(entries)
    ensures ManagedJobs(Parsed(WriteManagedBlock(JoinLines(SecondBlock(extra)), entries))) == entries + [extra]
  {
    var raws := SecondBlock(extra);
    SecondBlockLines(extra);
    GetOfPut(JoinLines(raws), entries);
    SecondBlockTail(extra);
    BlankIsNoDelimiter();
    SecondBlockJobs(MANAGED_END, MANAGED_BEGIN, extra);
    EntryOfJobFor(extra);
  }

  lemma SecondBlockLines(extra: Entry)
    requires EntryShaped(extra)
    ensures SplitLines(JoinLines(SecondBlock(extra))) == SecondBlock(extra)
  {
    EntryIsReadBack(extra, true);
    DelimitersDiffer();
    var e, b, raw := MANAGED_END, MANAGED_BEGIN, RenderEntry(extra);
    SingleTogether([raw], [e]);
    SingleTogether([b], [raw] + [e]);
    SingleTogether([e], [b] + ([raw] + [e]));
    SingleTogether([b], [e] + ([b] + ([raw] + [e])));
    SplitOfJoin(SecondBlock(extra));
  }

  lemma EntryOfJobFor(entry: Entry)
    ensures EntriesOf([JobFor(entry)]) == [entry]
  {
    EntriesOfCons(JobFor(entry), []);
    assert [JobFor(entry)] + [] == [JobFor(entry)];
  }

  /** A file that begins with the begin delimiter, and whose next line is the end delimiter. */
  lemma TailBehindEmptyBlock(begin: string, rest: seq<string>)
    requires IsBegin(begin) && !IsEnd(begin) && rest != [] && IsEnd(rest[0])
    ensures Tail([begin] + rest) == rest
  {
    FirstBeginIs([], begin, rest);
    assert [] + [begin] + rest == [begin] + rest;
    FirstEndIs([begin], rest);
  }

  lemma SecondBlockTail(extra: Entry)
    ensures Tail(SecondBlock(extra)) == [MANAGED_END] + ([MANAGED_BEGIN] + ([RenderEntry(extra)] + [MANAGED_END]))
  {
    BlankIsNoDelimiter();
    TailBehindEmptyBlock(MANAGED_BEGIN, [MANAGED_END] + ([MANAGED_BEGIN] + ([RenderEntry(extra)] + [MANAGED_END])));
  }

  lemma SecondBlockJobs(end: string, begin: string, extra: Entry)
    requires EntryShaped(extra) && IsEnd(end) && !IsBegin(end) && IsBegin(begin)
    ensures JobsIn([end] + ([begin] + ([RenderEntry(extra)] + [end])), true) == [JobFor(extra)]
  {
    NoJobIn(end, true);
    BodyLineIsReadBack(extra, [end]);
    JobsInCons(begin, [RenderEntry(extra)] + [end], false);
    JobsInCons(end, [begin] + ([RenderEntry(extra)] + [end]), true);
  }

  /** A text without a block is a prefix of what is written: nothing of it changes, blank lines included. */
  lemma AppendedBlockKeepsTheText(text: string, entries: seq<Entry>)
    requires FindBegin(SplitLines(text)) < 0
    ensures text <= WriteManagedBlock(text, entries)
  {
    var raws := SplitLines(text);
    JoinOfSplit(text);
    PiecesOf(raws);
    HeadEndsWithBegin(raws);
    PrefixOf(raws, Head(raws), RenderEntries(entries), Tail(raws));
  }

  lemma PrefixOf(raws: seq<string>, head: seq<string>, body: seq<string>, tail: seq<string>)
    requires raws != [] && raws <= head
    ensures JoinLines(raws) <= JoinLines(head + body + tail)
  {
    var added := head[|raws|..] + body + tail;
    assert head + body + tail == raws + added;
    JoinOfPrefix(raws, added);
  }

  lemma {:induction false} JoinOfPrefix(a: seq<string>, b: seq<string>)
    requires a != []
    ensures JoinLines(a) <= JoinLines(a + b)
  {
    if |a| == 1 {
      if b == [] {
        assert a + b == a;
      } else {
        assert JoinLines(a + b) == a[0] + "\n" + JoinLines((a + b)[1..]);
      }
    } else {
      JoinOfPrefix(a[1..], b);
      assert (a + b)[1..] == a[1..] + b;
    }
  }
}
