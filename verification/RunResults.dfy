/** What a run left behind: the entries of the listing afterwards that the listing before does not have as they are. */
module RunResults {
  import opened Options
  import opened DirectoryWalk
  import Numerals

  // ---------------------------------------------------------------- the paths of a listing are distinct

  predicate IsFileName(name: string) {
    name != "" && '/' !in name
  }

  /** Names a file system can hold: no separator in a name, no two items of a directory with the same name. */
  predicate WellNamed(items: seq<Item>, depth: nat, options: ListOptions)
    decreases options.maxDepth - depth
  {
    && (forall i | 0 <= i < |items| :: IsFileName(items[i].filename))
    && (forall i, j | 0 <= i < j < |items| :: items[i].filename != items[j].filename)
    && (depth < options.maxDepth ==>
          forall i | 0 <= i < |items| :: WellNamed(Below(items[i], depth, options), depth + 1, options))
  }

  /** The path is that of the item or of something below it. */
  predicate Under(path: string, item: string) {
    item <= path && (|path| == |item| || path[|item|] == '/')
  }

  predicate AllUnder(entries: seq<DirectoryEntry>, item: string) {
    forall i | 0 <= i < |entries| :: Under(entries[i].path, item)
  }

  predicate DistinctPaths(entries: seq<DirectoryEntry>) {
    forall i, j | 0 <= i < j < |entries| :: entries[i].path != entries[j].path
  }

  lemma ChildIsUnder(path: string, relative: string, name: string)
    requires relative != "" && Under(path, ChildPath(relative, name))
    ensures Under(path, relative)
  {
    assert path[..|relative| + 1] == relative + "/";
    assert path[|relative|] == '/';
    assert path[..|relative|] == relative;
  }

  /** Nothing is under two siblings of different names. */
  lemma SiblingsAreApart(path: string, relative: string, a: string, b: string)
    requires IsFileName(a) && IsFileName(b)
    requires Under(path, ChildPath(relative, a)) && Under(path, ChildPath(relative, b))
    ensures a == b
  {
    var base := if relative == "" then "" else relative + "/";
    var tail := path[|base|..];
    assert ChildPath(relative, a) == base + a && ChildPath(relative, b) == base + b;
    PrefixOfTail(path, base, a);
    PrefixOfTail(path, base, b);
    NoSeparatorIn(tail, a);
    NoSeparatorIn(tail, b);
    assert a == tail[..|a|] && b == tail[..|b|];
  }

  lemma NoSeparatorIn(tail: string, name: string)
    requires name <= tail && '/' !in name
    ensures forall k | 0 <= k < |name| :: tail[k] != '/'
  {
    assert forall k | 0 <= k < |name| :: name[k] == tail[k];
  }

  lemma PrefixOfTail(path: string, base: string, name: string)
    requires Under(path, base + name)
    ensures |base| <= |path| && name <= path[|base|..]
    ensures |path[|base|..]| == |name| || path[|base|..][|name|] == '/'
  {
    assert path[|base|..][..|name|] == name by {
      assert path[..|base + name|] == base + name;
    }
  }

  function Entries(items: seq<Item>, relative: string, depth: nat, options: ListOptions): seq<DirectoryEntry> {
    Found(Visits(items, relative, depth, options))
  }

  /** What one item contributes: its own entry, or those below it. */
  function EntriesOfItem(item: Item, relative: string, depth: nat, options: ListOptions): seq<DirectoryEntry> {
    Found([FileEntry(item, relative, options)]) + Found(VisitsBelow(item, relative, depth, options))
  }

  lemma EntriesOfFirst(items: seq<Item>, relative: string, depth: nat, options: ListOptions)
    requires items != []
    ensures Entries(items, relative, depth, options)
         == EntriesOfItem(items[0], relative, depth, options) + Entries(items[1..], relative, depth, options)
  {
    var own := [FileEntry(items[0], relative, options)];
    var below := VisitsBelow(items[0], relative, depth, options);
    FoundConcat(own + below, Visits(items[1..], relative, depth, options));
    FoundConcat(own, below);
  }

  lemma OwnEntry(item: Item, relative: string, options: ListOptions)
    ensures AllUnder(Found([FileEntry(item, relative, options)]), ChildPath(relative, item.filename))
    ensures |Found([FileEntry(item, relative, options)])| <= 1
  {
    FoundCons(FileEntry(item, relative, options), []);
    assert [FileEntry(item, relative, options)] + [] == [FileEntry(item, relative, options)];
  }

  lemma OwnEntryOfDirectory(item: Item, relative: string, options: ListOptions)
    requires !item.node.File?
    ensures Found([FileEntry(item, relative, options)]) == []
  {
    FoundCons(FileEntry(item, relative, options), []);
    assert [FileEntry(item, relative, options)] + [] == [FileEntry(item, relative, options)];
  }

  lemma WellNamedRest(items: seq<Item>, depth: nat, options: ListOptions)
    requires items != [] && WellNamed(items, depth, options)
    ensures WellNamed(items[1..], depth, options)
  {
    assert forall i | 0 <= i < |items| - 1 :: items[1..][i] == items[i + 1];
  }

  predicate UnderSome(path: string, items: seq<Item>, relative: string) {
    exists k | 0 <= k < |items| :: Under(path, ChildPath(relative, items[k].filename))
  }

  predicate AllUnderSome(entries: seq<DirectoryEntry>, items: seq<Item>, relative: string) {
    forall e | 0 <= e < |entries| :: UnderSome(entries[e].path, items, relative)
  }

  lemma UnderOneOfTheRest(path: string, items: seq<Item>, relative: string)
    requires items != [] && UnderSome(path, items[1..], relative)
    ensures UnderSome(path, items, relative)
  {
    var k :| 0 <= k < |items[1..]| && Under(path, ChildPath(relative, items[1..][k].filename));
    assert items[1..][k] == items[k + 1];
  }

  /** Everything listed is under one of the items: under the first one, or under one of the others. */
  lemma {:induction false} EntriesAreUnder(items: seq<Item>, relative: string, depth: nat, options: ListOptions)
    requires WellNamed(items, depth, options)
    ensures AllUnderSome(Entries(items, relative, depth, options), items, relative)
    decreases options.maxDepth - depth, |items|, 1
  {
    if items != [] {
      var first, rest := EntriesOfItem(items[0], relative, depth, options),
          Entries(items[1..], relative, depth, options);
      EntriesOfFirst(items, relative, depth, options);
      ItemIsUnder(items, relative, depth, options);
      WellNamedRest(items, depth, options);
      EntriesAreUnder(items[1..], relative, depth, options);
      var all: seq<DirectoryEntry> := first + rest;
      forall e | 0 <= e < |all|
        ensures UnderSome(all[e].path, items, relative)
      {
        if e < |first| {
          assert Under(first[e].path, ChildPath(relative, items[0].filename));
        } else {
          UnderOneOfTheRest(rest[e - |first|].path, items, relative);
        }
      }
    }
  }

  lemma {:induction false} ItemIsUnder(items: seq<Item>, relative: string, depth: nat, options: ListOptions)
    requires items != [] && WellNamed(items, depth, options)
    ensures AllUnder(EntriesOfItem(items[0], relative, depth, options), ChildPath(relative, items[0].filename))
    decreases options.maxDepth - depth, |items|, 0
  {
    var item := items[0];
    var child := ChildPath(relative, item.filename);
    OwnEntry(item, relative, options);
    if depth < options.maxDepth {
      var below := Entries(Below(item, depth, options), child, depth + 1, options);
      EntriesAreUnder(Below(item, depth, options), child, depth + 1, options);
      forall e | 0 <= e < |below|
        ensures Under(below[e].path, child)
      {
        assert UnderSome(below[e].path, Below(item, depth, options), child);
        var k :| 0 <= k < |Below(item, depth, options)|
               && Under(below[e].path, ChildPath(child, Below(item, depth, options)[k].filename));
        ChildIsUnder(below[e].path, child, Below(item, depth, options)[k].filename);
      }
    }
  }

  lemma DistinctConcat(a: seq<DirectoryEntry>, b: seq<DirectoryEntry>)
    requires DistinctPaths(a) && DistinctPaths(b)
    requires forall i, j | 0 <= i < |a| && 0 <= j < |b| :: a[i].path != b[j].path
    ensures DistinctPaths(a + b)
  {
  }

  lemma FirstIsApart(items: seq<Item>, depth: nat, relative: string, options: ListOptions, a: string, b: string)
    requires items != [] && WellNamed(items, depth, options)
    requires Under(a, ChildPath(relative, items[0].filename)) && UnderSome(b, items[1..], relative)
    ensures a != b
  {
    var k :| 0 <= k < |items[1..]| && Under(b, ChildPath(relative, items[1..][k].filename));
    assert items[1..][k] == items[k + 1];
    if a == b {
      SiblingsAreApart(a, relative, items[0].filename, items[k + 1].filename);
    }
  }

  /** No two entries of a listing of a well-named tree have the same path. */
  lemma {:induction false} PathsAreDistinct(items: seq<Item>, relative: string, depth: nat, options: ListOptions)
    requires WellNamed(items, depth, options)
    ensures DistinctPaths(Entries(items, relative, depth, options))
    decreases options.maxDepth - depth, |items|
  {
    if items != [] {
      var first, rest := EntriesOfItem(items[0], relative, depth, options),
          Entries(items[1..], relative, depth, options);
      EntriesOfFirst(items, relative, depth, options);
      WellNamedRest(items, depth, options);
      PathsAreDistinct(items[1..], relative, depth, options);
      ItemPathsAreDistinct(items[0], relative, depth, options);
      ItemIsUnder(items, relative, depth, options);
      EntriesAreUnder(items[1..], relative, depth, options);
      forall i, j | 0 <= i < |first| && 0 <= j < |rest|
        ensures first[i].path != rest[j].path
      {
        assert UnderSome(rest[j].path, items[1..], relative);
        FirstIsApart(items, depth, relative, options, first[i].path, rest[j].path);
      }
      DistinctConcat(first, rest);
    }
  }

  /** An item is a file or has something below it, never both. */
  lemma {:induction false} ItemPathsAreDistinct(item: Item, relative: string, depth: nat, options: ListOptions)
    requires depth < options.maxDepth ==> WellNamed(Below(item, depth, options), depth + 1, options)
    ensures DistinctPaths(EntriesOfItem(item, relative, depth, options))
    decreases options.maxDepth - depth, 0
  {
    if depth < options.maxDepth && item.node.Directory? {
      OwnEntryOfDirectory(item, relative, options);
      PathsAreDistinct(Below(item, depth, options), ChildPath(relative, item.filename), depth + 1, options);
      NothingBefore(Found(VisitsBelow(item, relative, depth, options)));
    } else {
      OwnEntry(item, relative, options);
      NothingBelow(item, relative, depth, options);
    }
  }

  lemma NothingBefore(entries: seq<DirectoryEntry>)
    ensures [] + entries == entries
  {
  }

  lemma NothingBelow(item: Item, relative: string, depth: nat, options: ListOptions)
    requires depth >= options.maxDepth || !item.node.Directory?
    ensures EntriesOfItem(item, relative, depth, options) == Found([FileEntry(item, relative, options)])
  {
    assert VisitsBelow(item, relative, depth, options) == [];
  }

  // ---------------------------------------------------------------- the snapshot and the comparison

  /** `${sizeBytes}:${modifiedAt.getTime()}`. */
  function Fingerprint(entry: DirectoryEntry): string {
    Numerals.Render(entry.sizeBytes, 10) + ":" + Numerals.Render(entry.modifiedAt, 10)
  }

  predicate SameFile(a: DirectoryEntry, b: DirectoryEntry) {
    a.path == b.path && a.sizeBytes == b.sizeBytes && a.modifiedAt == b.modifiedAt
  }

  lemma SplitAtColon(a: string, m: string, b: string, n: string)
    requires Numerals.Decimal(a) && Numerals.Decimal(b) && a + ":" + m == b + ":" + n
    ensures a == b && m == n
  {
    var s, t := a + ":" + m, b + ":" + n;
    assert s[|a|] == ':' && t[|b|] == ':';
    assert forall i | 0 <= i < |a| :: s[i] == a[i];
    assert forall i | 0 <= i < |b| :: t[i] == b[i];
    assert a == s[..|a|] && b == t[..|b|];
    assert m == s[|a| + 1..] && n == t[|b| + 1..];
  }

  /** Two fingerprints agree exactly when size and modification time do. */
  lemma FingerprintIsFaithful(a: DirectoryEntry, b: DirectoryEntry)
    ensures Fingerprint(a) == Fingerprint(b) <==> a.sizeBytes == b.sizeBytes && a.modifiedAt == b.modifiedAt
  {
    if Fingerprint(a) == Fingerprint(b) {
      Numerals.RenderedIsDecimal(a.sizeBytes);
      Numerals.RenderedIsDecimal(b.sizeBytes);
      SplitAtColon(Numerals.Render(a.sizeBytes, 10), Numerals.Render(a.modifiedAt, 10),
                   Numerals.Render(b.sizeBytes, 10), Numerals.Render(b.modifiedAt, 10));
      Numerals.RenderIsInjective(a.sizeBytes, b.sizeBytes, 10);
      Numerals.RenderIsInjective(a.modifiedAt, b.modifiedAt, 10);
    }
  }

  /** `new Map(entries.map(...))`: a later entry takes the place of an earlier one with its path. */
  function MapOf(entries: seq<DirectoryEntry>): map<string, string> {
    if entries == [] then map[]
    else
      var n := |entries| - 1;
      MapOf(entries[..n])[entries[n].path := Fingerprint(entries[n])]
  }

  /** The export directory not being there yet is an empty snapshot. */
  function SnapshotOf(listing: ListResult): map<string, string> {
    match listing
    case Ok(entries, _) => MapOf(entries)
    case Unreadable => map[]
  }

  /** `entries.filter((entry) => before.get(entry.path) !== fingerprint(entry))`. */
  function Produced(before: map<string, string>, entries: seq<DirectoryEntry>): seq<DirectoryEntry> {
    if entries == [] then []
    else
      (if entries[0].path in before && before[entries[0].path] == Fingerprint(entries[0]) then [] else [entries[0]])
      + Produced(before, entries[1..])
  }

  lemma {:induction false} MapHolds(entries: seq<DirectoryEntry>, path: string)
    requires DistinctPaths(entries)
    ensures path in MapOf(entries) <==> exists k | 0 <= k < |entries| :: entries[k].path == path
    ensures forall k | 0 <= k < |entries| && entries[k].path == path :: MapOf(entries)[path] == Fingerprint(entries[k])
  {
    if entries != [] {
      var n := |entries| - 1;
      MapHolds(entries[..n], path);
      assert forall k | 0 <= k < n :: entries[..n][k] == entries[k];
    }
  }

  /** The listing before has this very file: same path, same size, same modification time. */
  predicate Unchanged(entry: DirectoryEntry, before: seq<DirectoryEntry>) {
    exists k | 0 <= k < |before| :: SameFile(before[k], entry)
  }

  lemma MapTellsUnchanged(before: seq<DirectoryEntry>, entry: DirectoryEntry)
    requires DistinctPaths(before)
    ensures Unchanged(entry, before)
       <==> entry.path in MapOf(before) && MapOf(before)[entry.path] == Fingerprint(entry)
  {
    MapHolds(before, entry.path);
    forall k | 0 <= k < |before| && before[k].path == entry.path
      ensures Fingerprint(before[k]) == Fingerprint(entry) <==> SameFile(before[k], entry)
    {
      FingerprintIsFaithful(before[k], entry);
    }
  }

  /** The entries that are new or changed, in the order they were listed. */
  function Changed(before: seq<DirectoryEntry>, after: seq<DirectoryEntry>): seq<DirectoryEntry> {
    if after == [] then []
    else (if Unchanged(after[0], before) then [] else [after[0]]) + Changed(before, after[1..])
  }

  lemma {:induction false} ProducedIsChanged(before: seq<DirectoryEntry>, after: seq<DirectoryEntry>)
    requires DistinctPaths(before)
    ensures Produced(MapOf(before), after) == Changed(before, after)
  {
    if after != [] {
      MapTellsUnchanged(before, after[0]);
      ProducedIsChanged(before, after[1..]);
    }
  }

  /**
   * What a collection records, for well-named trees and listings that were not cut short: of the files there are
   * afterwards exactly those that were not there before, or were there with another size or modification time. Where
   * the directory could not be read before, everything is new.
   */
  lemma CollectionIsExact(before: Option<seq<Item>>, after: seq<Item>, options: ListOptions)
    requires before.Some? ==> WellNamed(before.value, 0, options)
    requires before.Some? ==> !Listed(before, options).truncated
    requires !Listed(Some(after), options).truncated
    ensures Produced(SnapshotOf(Listed(before, options)), Listed(Some(after), options).entries)
         == Changed(if before.Some? then Files(before.value, options) else [], Files(after, options))
  {
    TruncationIsHonest(after, options);
    match before
    case None =>
      ProducedIsChanged([], Files(after, options));
    case Some(items) =>
      TruncationIsHonest(items, options);
      PathsAreDistinct(items, "", 0, options);
      ProducedIsChanged(Files(items, options), Files(after, options));
  }
}
