/** Listings and collections against the remote tree itself: what is at the end of a path, looked up name by name. */
module TreeListing {
  import opened Options
  import opened DirectoryWalk
  import opened RunResults

  // ---------------------------------------------------------------- the tree, looked up

  /** Following these names from directory to readable directory leads to the node. */
  predicate LeadsTo(items: seq<Item>, names: seq<string>, node: Node)
    decreases |names|
  {
    && names != []
    && exists i | 0 <= i < |items| :: LeadsOnFrom(items[i], names, node)
  }

  predicate LeadsOnFrom(item: Item, names: seq<string>, node: Node)
    requires names != []
    decreases |names|, 0
  {
    && item.filename == names[0]
    && if |names| == 1 then item.node == node
       else item.node.Directory? && item.node.items.Some? && LeadsTo(item.node.items.value, names[1..], node)
  }

  function JoinPath(names: seq<string>): string
    requires names != []
  {
    if |names| == 1 then names[0] else names[0] + "/" + JoinPath(names[1..])
  }

  /** Modified no earlier than the listing asks for. */
  predicate Recent(file: Node, options: ListOptions)
    requires file.File?
  {
    options.since.Some? ==> options.since.value <= 1000 * file.mtime
  }

  /** The entry says what is so of the file: where it is, its name, size, time in milliseconds, and execute bits. */
  predicate Tells(entry: DirectoryEntry, path: string, name: string, file: Node)
    requires file.File?
  {
    && entry.path == path
    && entry.name == name
    && entry.sizeBytes == file.sizeBytes
    && entry.modifiedAt == 1000 * file.mtime
    && (entry.executable <==> file.mode % 2 == 1 || file.mode / 8 % 2 == 1 || file.mode / 64 % 2 == 1)
  }

  /** A path below a directory. */
  function Beneath(relative: string, path: string): string {
    if relative == "" then path else relative + "/" + path
  }

  // ---------------------------------------------------------------- every entry is a file

  lemma LeadsFromTheRest(items: seq<Item>, names: seq<string>, node: Node)
    requires items != [] && LeadsTo(items[1..], names, node)
    ensures LeadsTo(items, names, node)
  {
    var i :| 0 <= i < |items[1..]| && LeadsOnFrom(items[1..][i], names, node);
    assert items[i + 1] == items[1..][i];
  }

  lemma OwnFile(item: Item, relative: string, options: ListOptions, k: nat)
    requires k < |Found([FileEntry(item, relative, options)])|
    ensures item.node.File? && Recent(item.node, options)
    ensures Tells(
      Found([FileEntry(item, relative, options)])[k], Beneath(relative, item.filename), item.filename, item.node)
  {
    FoundCons(FileEntry(item, relative, options), []);
    assert [FileEntry(item, relative, options)] + [] == [FileEntry(item, relative, options)];
  }

  lemma PathBelow(relative: string, first: string, names: seq<string>)
    requires first != "" && names != []
    ensures Beneath(ChildPath(relative, first), JoinPath(names)) == Beneath(relative, JoinPath([first] + names))
  {
    assert ([first] + names)[1..] == names;
    if relative != "" {
      assert relative + "/" + first + "/" + JoinPath(names) == relative + "/" + (first + "/" + JoinPath(names));
    }
  }

  lemma LastName(first: string, names: seq<string>)
    requires names != []
    ensures ([first] + names)[|names|] == names[|names| - 1]
  {
  }

  /** The entry is that of a file which these names lead to, no deeper than the listing goes. */
  predicate IsEntryOf(
      entry: DirectoryEntry, items: seq<Item>, relative: string, depth: nat, options: ListOptions,
      names: seq<string>, file: Node)
  {
    && file.File? && names != [] && LeadsTo(items, names, file) && Recent(file, options)
    && depth + |names| <= options.maxDepth + 1
    && Tells(entry, Beneath(relative, JoinPath(names)), names[|names| - 1], file)
  }

  lemma {:induction false} EntryIsAFile(items: seq<Item>, relative: string, depth: nat, options: ListOptions, k: nat)
    returns (names: seq<string>, file: Node)
    requires WellNamed(items, depth, options) && depth <= options.maxDepth
    requires k < |Entries(items, relative, depth, options)|
    ensures IsEntryOf(Entries(items, relative, depth, options)[k], items, relative, depth, options, names, file)
    decreases options.maxDepth - depth, |items|
  {
    var first := EntriesOfItem(items[0], relative, depth, options);
    var own := Found([FileEntry(items[0], relative, options)]);
    EntriesOfFirst(items, relative, depth, options);
    if k < |own| {
      OwnFile(items[0], relative, options, k);
      names, file := [items[0].filename], items[0].node;
      assert LeadsOnFrom(items[0], names, file);
    } else if k < |first| {
      assert depth < options.maxDepth;
      var below;
      below, file := EntryIsAFile(
        Below(items[0], depth, options), ChildPath(relative, items[0].filename), depth + 1, options, k - |own|);
      names := [items[0].filename] + below;
      LeadsDown(items, below, file);
      PathBelow(relative, items[0].filename, below);
      LastName(items[0].filename, below);
    } else {
      WellNamedRest(items, depth, options);
      names, file := EntryIsAFile(items[1..], relative, depth, options, k - |first|);
      LeadsFromTheRest(items, names, file);
    }
  }

  lemma LeadsDown(items: seq<Item>, below: seq<string>, node: Node)
    requires items != [] && items[0].node.Directory? && items[0].node.items.Some?
    requires LeadsTo(items[0].node.items.value, below, node)
    ensures LeadsTo(items, [items[0].filename] + below, node)
  {
    var names := [items[0].filename] + below;
    assert names[1..] == below;
    assert LeadsOnFrom(items[0], names, node);
  }

  // ---------------------------------------------------------------- every file has an entry

  lemma OwnEntryOfFile(item: Item, relative: string, options: ListOptions)
    requires item.node.File? && Recent(item.node, options)
    ensures |Found([FileEntry(item, relative, options)])| == 1
    ensures Tells(
      Found([FileEntry(item, relative, options)])[0], Beneath(relative, item.filename), item.filename, item.node)
  {
    FoundCons(FileEntry(item, relative, options), []);
    assert [FileEntry(item, relative, options)] + [] == [FileEntry(item, relative, options)];
  }

  /** Some entry of these tells of the file. */
  predicate Told(entries: seq<DirectoryEntry>, path: string, name: string, file: Node)
    requires file.File?
  {
    exists k | 0 <= k < |entries| :: Tells(entries[k], path, name, file)
  }

  lemma ToldByEither(a: seq<DirectoryEntry>, b: seq<DirectoryEntry>, path: string, name: string, file: Node)
    requires file.File? && (Told(a, path, name, file) || Told(b, path, name, file))
    ensures Told(a + b, path, name, file)
  {
    if Told(a, path, name, file) {
      var k :| 0 <= k < |a| && Tells(a[k], path, name, file);
      assert (a + b)[k] == a[k];
    } else {
      var k :| 0 <= k < |b| && Tells(b[k], path, name, file);
      assert (a + b)[|a| + k] == b[k];
    }
  }

  lemma LeadsFromFirstOrRest(items: seq<Item>, names: seq<string>, node: Node)
    requires LeadsTo(items, names, node)
    ensures LeadsOnFrom(items[0], names, node) || LeadsTo(items[1..], names, node)
  {
    var i :| 0 <= i < |items| && LeadsOnFrom(items[i], names, node);
    if i > 0 {
      assert items[1..][i - 1] == items[i];
    }
  }

  lemma {:induction false} FileIsTold(
      items: seq<Item>, relative: string, depth: nat, options: ListOptions, names: seq<string>, file: Node)
    requires WellNamed(items, depth, options) && file.File? && Recent(file, options)
    requires LeadsTo(items, names, file) && depth + |names| <= options.maxDepth + 1
    ensures Told(Entries(items, relative, depth, options), Beneath(relative, JoinPath(names)), names[|names| - 1], file)
    decreases options.maxDepth + 1 - depth, |items|, 1
  {
    EntriesOfFirst(items, relative, depth, options);
    LeadsFromFirstOrRest(items, names, file);
    if LeadsOnFrom(items[0], names, file) {
      ItemIsTold(items, relative, depth, options, names, file);
    } else {
      WellNamedRest(items, depth, options);
      FileIsTold(items[1..], relative, depth, options, names, file);
    }
    ToldByEither(EntriesOfItem(items[0], relative, depth, options), Entries(items[1..], relative, depth, options),
                 Beneath(relative, JoinPath(names)), names[|names| - 1], file);
  }

  lemma {:induction false} ItemIsTold(
      items: seq<Item>, relative: string, depth: nat, options: ListOptions, names: seq<string>, file: Node)
    requires items != [] && WellNamed(items, depth, options) && file.File? && Recent(file, options)
    requires names != [] && LeadsOnFrom(items[0], names, file) && depth + |names| <= options.maxDepth + 1
    ensures Told(EntriesOfItem(items[0], relative, depth, options),
                 Beneath(relative, JoinPath(names)), names[|names| - 1], file)
    decreases options.maxDepth + 1 - depth, |items|, 0
  {
    if |names| == 1 {
      OwnEntryOfFile(items[0], relative, options);
    } else {
      FileIsTold(Below(items[0], depth, options), ChildPath(relative, names[0]), depth + 1, options, names[1..], file);
      assert names == [names[0]] + names[1..];
      PathBelow(relative, names[0], names[1..]);
      LastName(names[0], names[1..]);
    }
    ToldByEither(Found([FileEntry(items[0], relative, options)]),
                 Found(VisitsBelow(items[0], relative, depth, options)),
                 Beneath(relative, JoinPath(names)), names[|names| - 1], file);
  }

  // ---------------------------------------------------------------- the listing tells the tree

  /** At this path, no deeper than the listing goes and no older than it asks for, stands such a file. */
  ghost predicate FileAt(items: seq<Item>, options: ListOptions, path: string, name: string, file: Node) {
    file.File? && Recent(file, options)
    && exists names: seq<string> ::
         && names != [] && |names| <= options.maxDepth + 1 && LeadsTo(items, names, file)
         && JoinPath(names) == path && names[|names| - 1] == name
  }

  /** Every entry of a listing says what is so of a file in the tree. */
  lemma EntriesTellTheTree(items: seq<Item>, options: ListOptions, k: nat) returns (file: Node)
    requires WellNamed(items, 0, options) && k < |Files(items, options)|
    ensures var entry := Files(items, options)[k];
            && FileAt(items, options, entry.path, entry.name, file)
            && Tells(entry, entry.path, entry.name, file)
  {
    var names;
    names, file := EntryIsAFile(items, "", 0, options, k);
  }

  /** And every file, as deep and as recent as the listing asks for, is in it. */
  lemma FilesAreListed(items: seq<Item>, options: ListOptions, path: string, name: string, file: Node) returns (k: nat)
    requires WellNamed(items, 0, options) && FileAt(items, options, path, name, file)
    ensures k < |Files(items, options)| && Tells(Files(items, options)[k], path, name, file)
  {
    var names: seq<string> :|
      && names != [] && |names| <= options.maxDepth + 1 && LeadsTo(items, names, file)
      && JoinPath(names) == path && names[|names| - 1] == name;
    FileIsTold(items, "", 0, options, names, file);
    k :| 0 <= k < |Files(items, options)| && Tells(Files(items, options)[k], path, name, file);
  }

  // ---------------------------------------------------------------- the collection tells two trees apart

  /** Before or after: a file of this size and modification time stands at the path. */
  ghost predicate HasFile(tree: Option<seq<Item>>, options: ListOptions, path: string, size: nat, mtime: nat) {
    tree.Some?
    && exists name: string, mode: nat :: FileAt(tree.value, options, path, name, File(size, mtime, mode))
  }

  /** A listing that was not cut short has an entry of this path, size and time. */
  predicate ListsFile(entries: seq<DirectoryEntry>, path: string, size: nat, mtime: nat) {
    exists k | 0 <= k < |entries| ::
      entries[k].path == path && entries[k].sizeBytes == size && entries[k].modifiedAt == 1000 * mtime
  }

  lemma ListedExactlyWhenThere(items: seq<Item>, options: ListOptions, path: string, size: nat, mtime: nat)
    requires WellNamed(items, 0, options)
    ensures ListsFile(Files(items, options), path, size, mtime) <==> HasFile(Some(items), options, path, size, mtime)
  {
    if ListsFile(Files(items, options), path, size, mtime) {
      var k :| 0 <= k < |Files(items, options)|
             && Files(items, options)[k].path == path && Files(items, options)[k].sizeBytes == size
             && Files(items, options)[k].modifiedAt == 1000 * mtime;
      var file := EntriesTellTheTree(items, options, k);
      assert file == File(size, mtime, file.mode);
    }
    if HasFile(Some(items), options, path, size, mtime) {
      var name: string, mode: nat :| FileAt(items, options, path, name, File(size, mtime, mode));
      var k := FilesAreListed(items, options, path, name, File(size, mtime, mode));
    }
  }

  lemma {:induction false} ChangedHolds(before: seq<DirectoryEntry>, after: seq<DirectoryEntry>, entry: DirectoryEntry)
    ensures entry in Changed(before, after) <==> entry in after && !Unchanged(entry, before)
  {
    if after != [] {
      ChangedHolds(before, after[1..], entry);
      assert after == [after[0]] + after[1..];
    }
  }

  lemma UnchangedIsListed(before: seq<DirectoryEntry>, entry: DirectoryEntry, mtime: nat)
    requires entry.modifiedAt == 1000 * mtime
    ensures Unchanged(entry, before) <==> ListsFile(before, entry.path, entry.sizeBytes, mtime)
  {
    if Unchanged(entry, before) {
      var k :| 0 <= k < |before| && SameFile(before[k], entry);
    }
    if ListsFile(before, entry.path, entry.sizeBytes, mtime) {
      var k :| 0 <= k < |before| && before[k].path == entry.path && before[k].sizeBytes == entry.sizeBytes
             && before[k].modifiedAt == 1000 * mtime;
      assert SameFile(before[k], entry);
    }
  }

  lemma ChangedExactlyWhen(before: seq<DirectoryEntry>, after: seq<DirectoryEntry>, path: string, size: nat, mtime: nat)
    ensures ListsFile(Changed(before, after), path, size, mtime)
       <==> ListsFile(after, path, size, mtime) && !ListsFile(before, path, size, mtime)
  {
    var changed := Changed(before, after);
    if ListsFile(changed, path, size, mtime) {
      var k :| 0 <= k < |changed| && changed[k].path == path && changed[k].sizeBytes == size
             && changed[k].modifiedAt == 1000 * mtime;
      ChangedHolds(before, after, changed[k]);
      UnchangedIsListed(before, changed[k], mtime);
      var j :| 0 <= j < |after| && after[j] == changed[k];
    }
    if ListsFile(after, path, size, mtime) && !ListsFile(before, path, size, mtime) {
      var k :| 0 <= k < |after| && after[k].path == path && after[k].sizeBytes == size
             && after[k].modifiedAt == 1000 * mtime;
      ChangedHolds(before, after, after[k]);
      UnchangedIsListed(before, after[k], mtime);
      var j :| 0 <= j < |changed| && changed[j] == after[k];
    }
  }

  /**
   * A collection records a file of some size and time at a path exactly when one stands there afterwards and none of
   * that size and time stood there before; on well-named trees and listings that were not cut short.
   */
  lemma RecordedExactlyWhenNewOrChanged(
      before: Option<seq<Item>>, after: seq<Item>, options: ListOptions, path: string, size: nat, mtime: nat)
    requires WellNamed(after, 0, options) && (before.Some? ==> WellNamed(before.value, 0, options))
    requires before.Some? ==> !Listed(before, options).truncated
    requires !Listed(Some(after), options).truncated
    ensures ListsFile(
              Produced(SnapshotOf(Listed(before, options)), Listed(Some(after), options).entries), path, size, mtime)
       <==> HasFile(Some(after), options, path, size, mtime) && !HasFile(before, options, path, size, mtime)
  {
    CollectionIsExact(before, after, options);
    ListedExactlyWhenThere(after, options, path, size, mtime);
    ChangedExactlyWhen(
      if before.Some? then Files(before.value, options) else [], Files(after, options), path, size, mtime);
    if before.Some? {
      ListedExactlyWhenThere(before.value, options, path, size, mtime);
    }
  }
}
