/**
 * The bounded walk over a remote directory, against the plain depth-first listing it stands for, and what a run is
 * found to have left behind by comparing two such listings.
 */
module DirectoryWalk {
  import opened Options
  import opened Sequences

  // ---------------------------------------------------------------- the remote tree

  datatype Node =
    | File(sizeBytes: nat, mtime: nat, mode: nat)
    | Directory(items: Option<seq<Item>>)
    | Other

  /** A directory entry; a directory whose items are absent is one the server would not read. */
  datatype Item = Item(filename: string, node: Node)

  datatype DirectoryEntry =
    DirectoryEntry(path: string, name: string, sizeBytes: nat, modifiedAt: nat, executable: bool)

  datatype ListOptions = ListOptions(maxEntries: nat, maxDepth: nat, since: Option<nat>)

  datatype ListResult = Ok(entries: seq<DirectoryEntry>, truncated: bool) | Unreadable

  /** Any of the three execute bits. */
  predicate Executable(mode: nat) {
    mode % 2 == 1 || mode / 8 % 2 == 1 || mode / 64 % 2 == 1
  }

  function ChildPath(relative: string, filename: string): string {
    if relative == "" then filename else relative + "/" + filename
  }

  /** The entry of a file, unless it was last modified before `since`. */
  function FileEntry(item: Item, relative: string, options: ListOptions): Option<DirectoryEntry> {
    if !item.node.File? then None
    else
      var modifiedAt := item.node.mtime * 1000;
      if options.since.Some? && modifiedAt < options.since.value then None
      else
        Some(DirectoryEntry(ChildPath(relative, item.filename), item.filename,
                            item.node.sizeBytes, modifiedAt, Executable(item.node.mode)))
  }

  /** The items the walk descends into: those of a readable directory above the depth limit. */
  function Below(item: Item, depth: nat, options: ListOptions): seq<Item> {
    if item.node.Directory? && depth < options.maxDepth && item.node.items.Some? then item.node.items.value else []
  }

  // ---------------------------------------------------------------- the simple listing

  /** Every item in depth-first order, each with the entry it contributes, if any. */
  function Visits(items: seq<Item>, relative: string, depth: nat, options: ListOptions): seq<Option<DirectoryEntry>>
    decreases options.maxDepth - depth, |items|
  {
    if items == [] then []
    else
      [FileEntry(items[0], relative, options)]
      + VisitsBelow(items[0], relative, depth, options)
      + Visits(items[1..], relative, depth, options)
  }

  function VisitsBelow(item: Item, relative: string, depth: nat, options: ListOptions): seq<Option<DirectoryEntry>>
    decreases options.maxDepth - depth, 0
  {
    if depth >= options.maxDepth then []
    else Visits(Below(item, depth, options), ChildPath(relative, item.filename), depth + 1, options)
  }

  function Found(visits: seq<Option<DirectoryEntry>>): seq<DirectoryEntry> {
    if visits == [] then []
    else (if visits[0].Some? then [visits[0].value] else []) + Found(visits[1..])
  }

  /** The depth-limited, since-filtered depth-first listing, without a bound on its length. */
  function Files(items: seq<Item>, options: ListOptions): seq<DirectoryEntry> {
    Found(Visits(items, "", 0, options))
  }

  // ---------------------------------------------------------------- the bounded walk

  /** What has been collected, and whether the walk stopped early. */
  datatype Progress = Progress(entries: seq<DirectoryEntry>, truncated: bool)

  function With(p: Progress, visit: Option<DirectoryEntry>): Progress {
    if visit.Some? then Progress(p.entries + [visit.value], p.truncated) else p
  }

  /** The walk over a sequence of visits: it stops at the first visit after the bound is reached. */
  function Taken(p: Progress, visits: seq<Option<DirectoryEntry>>, maxEntries: nat): Progress
    decreases |visits|
  {
    if p.truncated || visits == [] then p
    else if |p.entries| >= maxEntries then Progress(p.entries, true)
    else Taken(With(p, visits[0]), visits[1..], maxEntries)
  }

  lemma TakenCons(p: Progress, visit: Option<DirectoryEntry>, rest: seq<Option<DirectoryEntry>>, maxEntries: nat)
    requires !p.truncated
    ensures Taken(p, [visit] + rest, maxEntries)
         == if |p.entries| >= maxEntries then Progress(p.entries, true)
            else Taken(With(p, visit), rest, maxEntries)
  {
    var visits := [visit] + rest;
    assert visits[1..] == rest;
  }

  lemma {:induction false} TakenConcat(
      p: Progress, a: seq<Option<DirectoryEntry>>, b: seq<Option<DirectoryEntry>>, maxEntries: nat)
    ensures Taken(p, a + b, maxEntries) == Taken(Taken(p, a, maxEntries), b, maxEntries)
    decreases |a|
  {
    if a == [] || p.truncated {
      assert a == [] ==> a + b == b;
    } else {
      assert a == [a[0]] + a[1..];
      Regroup([a[0]], a[1..], b);
      TakenCons(p, a[0], a[1..], maxEntries);
      TakenCons(p, a[0], a[1..] + b, maxEntries);
      if |p.entries| < maxEntries {
        TakenConcat(With(p, a[0]), a[1..], b, maxEntries);
      }
    }
  }

  /** One turn of the walk's loop: the item itself, then everything below it, then the items after it. */
  lemma OneItem(p: Progress, items: seq<Item>, i: nat, relative: string, depth: nat, options: ListOptions)
    requires i < |items|
    ensures Taken(p, Visits(items[i..], relative, depth, options), options.maxEntries)
         == if p.truncated then p
            else if |p.entries| >= options.maxEntries then Progress(p.entries, true)
            else Taken(
              Taken(With(p, FileEntry(items[i], relative, options)),
                    VisitsBelow(items[i], relative, depth, options), options.maxEntries),
              Visits(items[i + 1..], relative, depth, options), options.maxEntries)
  {
    var entry := FileEntry(items[i], relative, options);
    var rest := Visits(items[i + 1..], relative, depth, options);
    var below := VisitsBelow(items[i], relative, depth, options);
    assert items[i..][1..] == items[i + 1..];
    Regroup([entry], below, rest);
    if !p.truncated {
      TakenCons(p, entry, below + rest, options.maxEntries);
      TakenConcat(With(p, entry), below, rest, options.maxEntries);
    }
  }

  lemma {:induction false} TakenIsFullWhenTruncated(p: Progress, visits: seq<Option<DirectoryEntry>>, maxEntries: nat)
    requires p.truncated ==> |p.entries| >= maxEntries
    ensures Taken(p, visits, maxEntries).truncated ==> |Taken(p, visits, maxEntries).entries| >= maxEntries
    decreases |visits|
  {
    if !p.truncated && visits != [] && |p.entries| < maxEntries {
      TakenIsFullWhenTruncated(With(p, visits[0]), visits[1..], maxEntries);
    }
  }

  class Walk {
    var entries: seq<DirectoryEntry>
    var truncated: bool
    const options: ListOptions

    constructor (options: ListOptions)
      ensures entries == [] && !truncated && this.options == options
    {
      entries, truncated, this.options := [], false, options;
    }

    function Now(): Progress
      reads this
    {
      Progress(entries, truncated)
    }

    /** Answers whether the directory could be read; one that is not read any more counts as read. */
    method Descend(directory: Option<seq<Item>>, relative: string, depth: nat) returns (read: bool)
      modifies this
      ensures read == (old(truncated) || directory.Some?)
      ensures Now() == if directory.None? then old(Now())
                       else Taken(old(Now()), Visits(directory.value, relative, depth, options), options.maxEntries)
      decreases options.maxDepth - depth
    {
      if truncated {
        return true;
      }
      if directory.None? {
        return false;
      }
      var listed := directory.value;
      read := true;
      ghost var visits := Visits(listed, relative, depth, options);
      for i := 0 to |listed|
        invariant Taken(Now(), Visits(listed[i..], relative, depth, options), options.maxEntries)
               == Taken(old(Now()), visits, options.maxEntries)
        invariant truncated ==> |entries| >= options.maxEntries
      {
        OneItem(Now(), listed, i, relative, depth, options);
        if |entries| >= options.maxEntries {
          truncated := true;
          return;
        }
        var item := listed[i];
        var childRelative := ChildPath(relative, item.filename);
        if item.node.Directory? {
          if depth < options.maxDepth {
            TakenIsFullWhenTruncated(
              Now(), VisitsBelow(item, relative, depth, options), options.maxEntries);
            var childRead := Descend(item.node.items, childRelative, depth + 1);
          }
        } else if item.node.File? {
          var entry := FileEntry(item, relative, options);
          if entry.Some? {
            entries := entries + [entry.value];
          }
        }
      }
    }
  }

  method List(directory: Option<seq<Item>>, options: ListOptions) returns (result: ListResult)
    ensures result == Listed(directory, options)
  {
    var walk := new Walk(options);
    var read := walk.Descend(directory, "", 0);
    if !read {
      return Unreadable;
    }
    TakenFromTheStart(Visits(directory.value, "", 0, options), options.maxEntries);
    result := Ok(walk.entries, walk.truncated);
  }

  /** The first `maxEntries` files of the simple listing; a listing fails exactly when its root cannot be read. */
  function Listed(directory: Option<seq<Item>>, options: ListOptions): ListResult {
    match directory
    case None => Unreadable
    case Some(items) => Ok(FirstFiles(Files(items, options), options.maxEntries), StopsEarly(items, options))
  }

  function FirstFiles(entries: seq<DirectoryEntry>, n: nat): (first: seq<DirectoryEntry>)
    ensures first <= entries && |first| <= n
  {
    if |entries| <= n then entries else entries[..n]
  }

  /** Something is visited after the bound is reached, be it a file, a directory or neither. */
  predicate StopsEarly(items: seq<Item>, options: ListOptions) {
    var visits := Visits(items, "", 0, options);
    visits != [] && |Found(visits[..|visits| - 1])| >= options.maxEntries
  }

  // ---------------------------------------------------------------- the walk refines the simple listing

  lemma FoundCons(visit: Option<DirectoryEntry>, rest: seq<Option<DirectoryEntry>>)
    ensures Found([visit] + rest) == (if visit.Some? then [visit.value] else []) + Found(rest)
  {
    assert ([visit] + rest)[1..] == rest;
  }

  lemma {:induction false} FoundConcat(a: seq<Option<DirectoryEntry>>, b: seq<Option<DirectoryEntry>>)
    ensures Found(a + b) == Found(a) + Found(b)
  {
    if a == [] {
      assert a + b == b;
    } else {
      FoundConcat(a[1..], b);
      assert a == [a[0]] + a[1..];
      Regroup([a[0]], a[1..], b);
      FoundCons(a[0], a[1..]);
      FoundCons(a[0], a[1..] + b);
    }
  }

  lemma {:induction false} TakenIs(p: Progress, visits: seq<Option<DirectoryEntry>>, maxEntries: nat)
    requires !p.truncated && |p.entries| <= maxEntries
    ensures Taken(p, visits, maxEntries).entries == FirstFiles(p.entries + Found(visits), maxEntries)
    ensures Taken(p, visits, maxEntries).truncated
       <==> visits != [] && |p.entries| + |Found(visits[..|visits| - 1])| >= maxEntries
    decreases |visits|
  {
    if visits == [] {
      assert p.entries + [] == p.entries;
    } else {
      var visit, rest := visits[0], visits[1..];
      assert visits == [visit] + rest;
      TakenCons(p, visit, rest, maxEntries);
      FoundCons(visit, rest);
      if rest == [] {
        assert visits[..|visits| - 1] == [];
      } else {
        assert visits[..|visits| - 1] == [visit] + rest[..|rest| - 1];
        FoundCons(visit, rest[..|rest| - 1]);
      }
      if |p.entries| < maxEntries {
        TakenIs(With(p, visit), rest, maxEntries);
        assert With(p, visit).entries + Found(rest) == p.entries + Found(visits);
      }
    }
  }

  lemma TakenFromTheStart(visits: seq<Option<DirectoryEntry>>, maxEntries: nat)
    ensures Taken(Progress([], false), visits, maxEntries)
         == Progress(FirstFiles(Found(visits), maxEntries),
                     visits != [] && |Found(visits[..|visits| - 1])| >= maxEntries)
  {
    TakenIs(Progress([], false), visits, maxEntries);
    assert [] + Found(visits) == Found(visits);
  }

  lemma FoundButTheLast(visits: seq<Option<DirectoryEntry>>)
    requires visits != []
    ensures |Found(visits)| - 1 <= |Found(visits[..|visits| - 1])| <= |Found(visits)|
  {
    var n := |visits| - 1;
    assert visits == visits[..n] + [visits[n]];
    FoundConcat(visits[..n], [visits[n]]);
    FoundCons(visits[n], []);
    assert [visits[n]] + [] == [visits[n]];
  }

  /** Not truncated means complete; truncated means full; incomplete means truncated. */
  lemma TruncationIsHonest(items: seq<Item>, options: ListOptions)
    ensures var listed := Listed(Some(items), options);
            && (!listed.truncated ==> listed.entries == Files(items, options))
            && (listed.truncated ==> |listed.entries| == options.maxEntries)
            && (listed.entries != Files(items, options) ==> listed.truncated)
  {
    var visits := Visits(items, "", 0, options);
    if visits != [] {
      FoundButTheLast(visits);
    }
  }
}
