/** The `FileOrganizer` engine: the category table it owns, the copy of it that
    it hands out, folder provisioning, the organize pipeline and the summary count. */
module Organizer {
  import opened Classifier
  import opened Results
  import opened FileSystem

  // ---------------------------------------------------------------------------
  // The handed-out copy of the table

  /** `d[key] = exts` on an ordered dictionary: an existing key keeps its place
      and gets the new list, a new key is added at the end. */
  function SetItem(t: Table, key: string, exts: seq<string>): Table {
    if key in Keys(t) then
      seq(|t|, i requires 0 <= i < |t| => if t[i].category == key then Rule(key, exts) else t[i])
    else t + [Rule(key, exts)]
  }

  /** After `d[key] = exts` the key is present with the new list, every other
      rule is kept where it was, an existing key keeps its place and a new key
      goes at the end. */
  lemma SetItemPuts(t: Table, key: string, exts: seq<string>)
    ensures var r := SetItem(t, key, exts);
            key in Keys(r) &&
            (forall i :: 0 <= i < |r| && r[i].category == key ==> r[i].extensions == exts) &&
            (forall k :: k != key ==> (k in Keys(r) <==> k in Keys(t))) &&
            |t| <= |r| &&
            (forall i :: 0 <= i < |t| && t[i].category != key ==> r[i] == t[i]) &&
            (key in Keys(t) ==> |r| == |t| && Keys(r) == Keys(t)) &&
            (key !in Keys(t) ==> r == t + [Rule(key, exts)])
  {
    if key in Keys(t) {
      SetItemReplaces(t, key, exts);
    } else {
      SetItemAppends(t, key, exts);
    }
  }

  /** Assigning an existing key keeps the key order, gives every rule of that
      key the new list and leaves every other rule as it was. */
  lemma SetItemReplaces(t: Table, key: string, exts: seq<string>)
    requires key in Keys(t)
    ensures var r := SetItem(t, key, exts);
            |r| == |t| && Keys(r) == Keys(t) &&
            (forall i :: 0 <= i < |t| && t[i].category == key ==> r[i] == Rule(key, exts)) &&
            (forall i :: 0 <= i < |t| && t[i].category != key ==> r[i] == t[i])
  {
    var r := SetItem(t, key, exts);
    assert forall i :: 0 <= i < |t| ==> r[i].category == t[i].category;
    assert Keys(r) == Keys(t);
  }

  /** Assigning a new key keeps every rule and adds the key, with its list, at the end. */
  lemma SetItemAppends(t: Table, key: string, exts: seq<string>)
    requires key !in Keys(t)
    ensures var r := SetItem(t, key, exts);
            r == t + [Rule(key, exts)] && Keys(r) == Keys(t) + [key]
  {
    var r := SetItem(t, key, exts);
    var kr, kt := Keys(r), Keys(t);
    assert kr == kt + [key] by {
      assert forall i :: 0 <= i < |t| ==> kr[i] == kt[i];
    }
  }

  /** A dictionary of extension lists with a life of its own, as returned by the
      `file_extensions` property. */
  class ExtensionMap {
    var items: Table

    constructor (items: Table)
      ensures this.items == items
    {
      this.items := items;
    }

    /** `d[key] = exts`. */
    method Put(key: string, exts: seq<string>)
      modifies this
      ensures items == SetItem(old(items), key, exts)
    {
      items := SetItem(items, key, exts);
    }
  }

  // ---------------------------------------------------------------------------
  // What one run sees and does

  /** `categorize_file` under the table `t`, as a function value. */
  function Categorizer(t: Table): string -> string {
    n => Categorize(t, n)
  }

  /** How `iterdir` lists the children: each child exactly once, in some order. */
  predicate IsListing(listing: seq<string>, e: Entries) {
    Distinct(listing) && (forall n :: n in listing ==> n in e) && (forall n :: n in e ==> n in listing)
  }

  /** `[f for f in iterdir() if f.is_file()]`: the regular files in listing order. */
  function RegularFiles(listing: seq<string>, e: Entries): (files: seq<string>)
    ensures forall n :: n in files <==> n in listing && IsFile(e, n)
    ensures Distinct(listing) ==> Distinct(files)
  {
    if listing == [] then []
    else
      var front := listing[..|listing| - 1];
      var last := listing[|listing| - 1];
      assert forall n :: n in listing <==> n in front || n == last;
      RegularFiles(front, e) + (if IsFile(e, last) then [last] else [])
  }

  /** The files whose move succeeds, in processing order. */
  function Kept(files: seq<string>, failing: set<string>): (kept: seq<string>)
    ensures forall n :: n in kept <==> n in files && n !in failing
  {
    if files == [] then []
    else
      var front := files[..|files| - 1];
      var last := files[|files| - 1];
      assert forall n :: n in files <==> n in front || n == last;
      Kept(front, failing) + (if last !in failing then [last] else [])
  }

  /** The kept files as a set. */
  ghost function Survivors(files: seq<string>, failing: set<string>): set<string> {
    set n | n in Kept(files, failing)
  }

  /** The files a run records: all of them in a dry run, the moved ones in a live run. */
  function Recorded(dryRun: bool, files: seq<string>, failing: set<string>): seq<string> {
    if dryRun then files else Kept(files, failing)
  }

  /** The children a run leaves: untouched by a dry run, after the moves of a live run. */
  ghost function Placed(dryRun: bool, e: Entries, classify: string -> string, files: seq<string>,
                        failing: set<string>): Entries {
    if dryRun then e else AfterMoves(e, classify, Survivors(files, failing))
  }

  /** The names among `moved` that arrive in the folder `k`. */
  ghost function Arrivals(classify: string -> string, moved: set<string>, k: string): set<string> {
    set n | n in moved && classify(n) == k
  }

  /** The children after every file in `moved` has gone into the folder of its category. */
  ghost function AfterMoves(e: Entries, classify: string -> string, moved: set<string>): Entries {
    map k | k in e.Keys - moved ::
      if e[k].Folder? then Folder(e[k].names + Arrivals(classify, moved, k)) else e[k]
  }

  /** Moving nothing changes nothing. */
  lemma AfterMovesNone(e: Entries, classify: string -> string)
    ensures AfterMoves(e, classify, {}) == e
  {
    var after := AfterMoves(e, classify, {});
    forall k | k in e ensures k in after && after[k] == e[k] {
      assert Arrivals(classify, {}, k) == {};
    }
    assert after.Keys == e.Keys;
  }

  /** One more successful move extends the moved set by that file. */
  lemma AfterMovesStep(e: Entries, classify: string -> string, moved: set<string>, x: string)
    requires forall n :: n in moved ==> IsFile(e, n)
    requires IsFile(e, x) && x !in moved && IsFolder(e, classify(x))
    ensures IsFile(AfterMoves(e, classify, moved), x)
    ensures IsFolder(AfterMoves(e, classify, moved), classify(x))
    ensures MoveInto(AfterMoves(e, classify, moved), x, classify(x)) == AfterMoves(e, classify, moved + {x})
  {
    var c := classify(x);
    var before := AfterMoves(e, classify, moved);
    var after := AfterMoves(e, classify, moved + {x});
    var stepped := MoveInto(before, x, c);
    assert Arrivals(classify, moved + {x}, c) == Arrivals(classify, moved, c) + {x};
    forall k | k in after
      ensures k in stepped && stepped[k] == after[k]
    {
      if k != c && e[k].Folder? {
        assert Arrivals(classify, moved + {x}, k) == Arrivals(classify, moved, k);
      }
    }
    assert stepped.Keys == after.Keys;
  }

  /** A file that is in its category folder after a live run has been moved
      there, a file that failed is still in place, and no child is lost or
      duplicated: the state a live run leaves, file by file. */
  lemma LiveRunPlacement(e: Entries, classify: string -> string, moved: set<string>, f: string)
    requires forall n :: n in moved ==> IsFile(e, n) && IsFolder(e, classify(n))
    requires IsFile(e, f)
    ensures f in moved ==> f !in AfterMoves(e, classify, moved) &&
                           IsFolder(AfterMoves(e, classify, moved), classify(f)) &&
                           f in AfterMoves(e, classify, moved)[classify(f)].names
    ensures f !in moved ==> IsFile(AfterMoves(e, classify, moved), f)
  {
    if f in moved {
      assert classify(f) !in moved;
      assert f in Arrivals(classify, moved, classify(f));
    }
  }

  /** A folder whose name is no category (a subdirectory the user made) is left as it was. */
  lemma SubfoldersUntouched(e: Entries, cats: seq<string>, classify: string -> string, moved: set<string>, k: string)
    requires forall n :: n in moved ==> IsFile(e, n) && classify(n) in cats
    requires IsFolder(e, k) && k !in cats
    ensures k in AfterMoves(e, classify, moved) && AfterMoves(e, classify, moved)[k] == e[k]
  {
    assert Arrivals(classify, moved, k) == {};
  }

  /** A category folder keeps what it held and gains exactly the moved files of its category. */
  lemma CategoryFolderContents(e: Entries, classify: string -> string, moved: set<string>, k: string, n: string)
    requires forall m :: m in moved ==> IsFile(e, m)
    requires IsFolder(e, k)
    ensures IsFolder(AfterMoves(e, classify, moved), k)
    ensures n in AfterMoves(e, classify, moved)[k].names <==>
              n in e[k].names || (n in moved && classify(n) == k)
  {
  }

  // ---------------------------------------------------------------------------
  // The organizer

  class FileOrganizer {
    /** The directory this organizer works on. */
    const directory: Directory
    /** `_file_extensions`: fixed when the organizer is built and never changed. */
    const table: Table

    constructor (directory: Directory)
      ensures this.directory == directory && table == DefaultTable
    {
      this.directory := directory;
      table := DefaultTable;
    }

    /** The `file_extensions` property: a new dictionary holding the table. */
    method FileExtensions() returns (copy: ExtensionMap)
      ensures fresh(copy) && copy.items == table
    {
      copy := new ExtensionMap(table);
    }

    /** `create_category_folders`: `mkdir(exist_ok=True)` for every table key,
        then `Other`, stopping at the first call that raises. */
    method CreateCategoryFolders() returns (res: Outcome)
      modifies directory
      ensures directory.present == old(directory.present)
      // the first mkdir already fails on a missing directory
      ensures !old(directory.present) ==>
                res == Fail(DirectoryNotFound) && directory.entries == old(directory.entries) &&
                directory.mkdirCalls == old(directory.mkdirCalls) + [Categories(table)[0]]
      // a regular file holding a category's name stops the run at that category
      ensures old(directory.present) && FirstBlocked(old(directory.entries), Categories(table)) < |Categories(table)| ==>
                var k := FirstBlocked(old(directory.entries), Categories(table));
                res == Fail(FileExists(Categories(table)[k])) &&
                directory.entries == WithFolders(old(directory.entries), Categories(table)[..k]) &&
                directory.mkdirCalls == old(directory.mkdirCalls) + Categories(table)[..k + 1]
      // otherwise every category is a folder afterwards, made in table order with `Other` last
      ensures old(directory.present) && FirstBlocked(old(directory.entries), Categories(table)) == |Categories(table)| ==>
                res == Pass &&
                directory.entries == WithFolders(old(directory.entries), Categories(table)) &&
                directory.mkdirCalls == old(directory.mkdirCalls) + Categories(table)
    {
      res := directory.EnsureFolders(Categories(table));
    }

    /** `organize_files(dry_run)`. The order `iterdir` yields the children in is
        `listing`; the files whose move the platform refuses are `failing`. */
    method OrganizeFiles(dryRun: bool, listing: seq<string>, failing: set<string>) returns (res: Result<Report>)
      requires directory.present ==> IsListing(listing, directory.entries)
      modifies directory
      ensures directory.present == old(directory.present)
      // a missing directory is reported before anything is listed or changed
      ensures !old(directory.present) ==>
                res == Failure(DirectoryNotFound) && directory.entries == old(directory.entries) &&
                directory.mkdirCalls == old(directory.mkdirCalls)
      // no regular file: the seeded, all-empty result, and no folder is made
      ensures old(directory.present) && RegularFiles(listing, old(directory.entries)) == [] ==>
                res == Success(EmptyReport(Categories(table))) &&
                directory.entries == old(directory.entries) && directory.mkdirCalls == old(directory.mkdirCalls)
      // a dry run records every regular file and changes nothing
      ensures old(directory.present) && dryRun ==>
                res == Success(Grouped(Categories(table), Categorizer(table), RegularFiles(listing, old(directory.entries)))) &&
                directory.entries == old(directory.entries) && directory.mkdirCalls == old(directory.mkdirCalls)
      // a live run first provisions the folders; a regular file holding a category's name aborts it
      ensures old(directory.present) && !dryRun && RegularFiles(listing, old(directory.entries)) != [] ==>
                var cats := Categories(table);
                var k := FirstBlocked(old(directory.entries), cats);
                k < |cats| ==>
                  res == Failure(FileExists(cats[k])) &&
                  directory.entries == WithFolders(old(directory.entries), cats[..k]) &&
                  directory.mkdirCalls == old(directory.mkdirCalls) + cats[..k + 1]
      // otherwise each file is moved or left in place, and only the moved ones are recorded
      ensures old(directory.present) && !dryRun && RegularFiles(listing, old(directory.entries)) != [] ==>
                var cats := Categories(table);
                var files := RegularFiles(listing, old(directory.entries));
                FirstBlocked(old(directory.entries), cats) == |cats| ==>
                  res == Success(Grouped(cats, Categorizer(table), Kept(files, failing))) &&
                  directory.entries ==
                    AfterMoves(WithFolders(old(directory.entries), cats), Categorizer(table), Survivors(files, failing)) &&
                  directory.mkdirCalls == old(directory.mkdirCalls) + cats
    {
      if !directory.present {
        return Failure(DirectoryNotFound);
      }
      var cats := Categories(table);
      var classify := Categorizer(table);
      var files := RegularFiles(listing, directory.entries);
      if files == [] {
        EmptyReportIsGroupedNothing(cats, classify);
        return Success(EmptyReport(cats));
      }
      ghost var e0 := directory.entries;
      if !dryRun {
        var made := CreateCategoryFolders();
        if made.Fail? {
          return Failure(made.error);
        }
        assert cats[..|cats|] == cats;
        ProvisionedFor(table, e0, files, true);
        var moved := ProcessFiles(false, files, failing);
        return Success(moved);
      }
      var moved := ProcessFiles(true, files, failing);
      return Success(moved);
    }

    /** The loop of `organize_files` over the regular files: a dry run records
        every file; a live run moves each file into the folder of its category
        and records it only when the move succeeds. */
    method ProcessFiles(dryRun: bool, files: seq<string>, failing: set<string>) returns (moved: Report)
      requires directory.present && Distinct(files)
      requires forall n :: n in files ==> IsFile(directory.entries, n)
      requires !dryRun ==> forall n :: n in files ==> IsFolder(directory.entries, Categorizer(table)(n))
      modifies directory`entries
      ensures moved == Grouped(Categories(table), Categorizer(table), Recorded(dryRun, files, failing))
      ensures directory.entries == Placed(dryRun, old(directory.entries), Categorizer(table), files, failing)
    {
      ghost var e0 := directory.entries;
      moved := EmptyReport(Categories(table));
      EmptyReportIsGroupedNothing(Categories(table), Categorizer(table));
      assert files[..0] == [];
      assert Survivors([], failing) == {};
      AfterMovesNone(e0, Categorizer(table));
      var i := 0;
      while i < |files|
        invariant 0 <= i <= |files| && directory.present
        invariant moved == Grouped(Categories(table), Categorizer(table), Recorded(dryRun, files[..i], failing))
        invariant directory.entries == Placed(dryRun, e0, Categorizer(table), files[..i], failing)
      {
        moved := ProcessFile(dryRun, e0, files, i, failing, moved);
        i := i + 1;
      }
      assert files[..i] == files;
    }

    /** One pass of that loop, for the file `files[i]`. */
    method ProcessFile(dryRun: bool, ghost e0: Entries, files: seq<string>, i: nat, failing: set<string>,
                       moved: Report) returns (moved': Report)
      requires directory.present && Distinct(files) && i < |files|
      requires forall n :: n in files ==> IsFile(e0, n)
      requires !dryRun ==> forall n :: n in files ==> IsFolder(e0, Categorizer(table)(n))
      requires moved == Grouped(Categories(table), Categorizer(table), Recorded(dryRun, files[..i], failing))
      requires directory.entries == Placed(dryRun, e0, Categorizer(table), files[..i], failing)
      modifies directory`entries
      ensures moved' == Grouped(Categories(table), Categorizer(table), Recorded(dryRun, files[..i + 1], failing))
      ensures directory.entries == Placed(dryRun, e0, Categorizer(table), files[..i + 1], failing)
    {
      var name := files[i];
      var category := Categorize(table, name);
      StepFacts(table, dryRun, e0, files, i, failing);
      if !dryRun {
        var ok := directory.Move(name, category, name !in failing);
        if ok {
          moved' := AppendName(moved, category, name);
        } else {
          moved' := moved;
        }
      } else {
        moved' := AppendName(moved, category, name);
      }
    }

    /** The counting part of `print_summary`: the number of names over all
        categories (only non-empty lists are visited, as in the source). */
    method PrintSummary(moved: Report) returns (total: nat)
      ensures total == TotalCount(moved)
    {
      total := 0;
      var i := 0;
      while i < |moved|
        invariant 0 <= i <= |moved|
        invariant total == TotalCount(moved[..i])
      {
        assert moved[..i + 1][..i] == moved[..i];
        if |moved[i].names| > 0 {
          total := total + |moved[i].names|;
        }
        i := i + 1;
      }
      assert moved[..i] == moved;
    }
  }

  /** What step `i` of a live run relies on: the file is still a regular file
      and its category folder exists; moving it (or failing to) extends the
      state by that step. */
  lemma LiveStep(prov: Entries, classify: string -> string, files: seq<string>, i: nat, failing: set<string>)
    requires Distinct(files) && i < |files|
    requires forall n :: n in files ==> IsFile(prov, n) && IsFolder(prov, classify(n))
    ensures var x := files[i];
            var before := AfterMoves(prov, classify, Survivors(files[..i], failing));
            var after := AfterMoves(prov, classify, Survivors(files[..i + 1], failing));
            IsFile(before, x) && IsFolder(before, classify(x)) &&
            (x !in failing ==> MoveInto(before, x, classify(x)) == after) &&
            (x in failing ==> before == after)
  {
    var x := files[i];
    var done := Survivors(files[..i], failing);
    assert x !in files[..i];
    AfterMovesStep(prov, classify, done, x);
    assert files[..i + 1] == files[..i] + [x];
    if x !in failing {
      assert Survivors(files[..i + 1], failing) == done + {x};
    } else {
      assert Survivors(files[..i + 1], failing) == done;
    }
  }

  /** What one pass of the loop relies on and achieves, for either mode: in a
      dry run the file is recorded and nothing changes; in a live run the file
      is still in place and its folder exists, and a refused move changes
      nothing while an allowed one moves and records the file. */
  lemma StepFacts(t: Table, dryRun: bool, e0: Entries, files: seq<string>, i: nat, failing: set<string>)
    requires Distinct(files) && i < |files|
    requires forall n :: n in files ==> IsFile(e0, n)
    requires !dryRun ==> forall n :: n in files ==> IsFolder(e0, Categorizer(t)(n))
    ensures var x, c := files[i], Categorize(t, files[i]);
            var before := Placed(dryRun, e0, Categorizer(t), files[..i], failing);
            var after := Placed(dryRun, e0, Categorizer(t), files[..i + 1], failing);
            var r := Grouped(Categories(t), Categorizer(t), Recorded(dryRun, files[..i], failing));
            var r' := Grouped(Categories(t), Categorizer(t), Recorded(dryRun, files[..i + 1], failing));
            (dryRun ==> after == before && r' == AppendName(r, c, x)) &&
            (!dryRun ==> IsFile(before, x) && IsFolder(before, c) &&
                         (x !in failing ==> after == MoveInto(before, x, c) && r' == AppendName(r, c, x)) &&
                         (x in failing ==> after == before && r' == r))
  {
    var classify := Categorizer(t);
    var x := files[i];
    assert classify(x) == Categorize(t, x);
    if dryRun {
      assert files[..i + 1] == files[..i] + [x];
      GroupedAppend(Categories(t), classify, files[..i], x);
    } else {
      LiveStep(e0, classify, files, i, failing);
      KeptStep(files, i, failing);
      if x !in failing {
        GroupedAppend(Categories(t), classify, Kept(files[..i], failing), x);
      }
    }
  }

  /** Selecting the regular files keeps `iterdir` order: the files of a
      concatenated listing are those of its first part, then those of the rest. */
  lemma {:induction false} RegularFilesConcat(a: seq<string>, b: seq<string>, e: Entries)
    ensures RegularFiles(a + b, e) == RegularFiles(a, e) + RegularFiles(b, e)
  {
    if b == [] {
      assert a + b == a;
    } else {
      var front, last := b[..|b| - 1], b[|b| - 1];
      DropLast(a, b);
      RegularFilesConcat(a, front, e);
      var ra, rf := RegularFiles(a, e), RegularFiles(front, e);
      var tail := if IsFile(e, last) then [last] else [];
      RegularFilesUnfold(a + b, e);
      RegularFilesUnfold(b, e);
      assert ra + rf + tail == ra + (rf + tail);
    }
  }

  /** The moved files keep processing order, in the same sense. */
  lemma {:induction false} KeptConcat(a: seq<string>, b: seq<string>, failing: set<string>)
    ensures Kept(a + b, failing) == Kept(a, failing) + Kept(b, failing)
  {
    if b == [] {
      assert a + b == a;
    } else {
      var front, last := b[..|b| - 1], b[|b| - 1];
      DropLast(a, b);
      KeptConcat(a, front, failing);
      var ka, kf := Kept(a, failing), Kept(front, failing);
      var tail := if last !in failing then [last] else [];
      KeptUnfold(a + b, failing);
      KeptUnfold(b, failing);
      assert ka + kf + tail == ka + (kf + tail);
    }
  }

  /** Dropping the last element of `a + b`, for a non-empty `b`. */
  lemma DropLast(a: seq<string>, b: seq<string>)
    requires b != []
    ensures (a + b)[..|a + b| - 1] == a + b[..|b| - 1] && (a + b)[|a + b| - 1] == b[|b| - 1]
  {
  }

  lemma RegularFilesUnfold(s: seq<string>, e: Entries)
    requires s != []
    ensures RegularFiles(s, e) == RegularFiles(s[..|s| - 1], e) + (if IsFile(e, s[|s| - 1]) then [s[|s| - 1]] else [])
  {
  }

  lemma KeptUnfold(s: seq<string>, failing: set<string>)
    requires s != []
    ensures Kept(s, failing) == Kept(s[..|s| - 1], failing) + (if s[|s| - 1] !in failing then [s[|s| - 1]] else [])
  {
  }

  /** After a successful provisioning every regular file is still one, and the
      folder of its category exists. */
  lemma ProvisionedFor(t: Table, e0: Entries, files: seq<string>, live: bool)
    requires forall n :: n in files ==> IsFile(e0, n)
    requires live ==> FirstBlocked(e0, Categories(t)) == |Categories(t)|
    ensures var prov := if live then WithFolders(e0, Categories(t)) else e0;
            forall n :: n in files ==> IsFile(prov, n) && (live ==> IsFolder(prov, Categorize(t, n)))
  {
    if live {
      var cats := Categories(t);
      WithFoldersMakesFolders(e0, cats);
      forall n | n in files ensures IsFile(WithFolders(e0, cats), n) && IsFolder(WithFolders(e0, cats), Categorize(t, n)) {
        WithFoldersFiles(e0, cats, n);
      }
    }
  }

  lemma KeptStep(files: seq<string>, i: nat, failing: set<string>)
    requires i < |files|
    ensures files[i] !in failing ==> Kept(files[..i + 1], failing) == Kept(files[..i], failing) + [files[i]]
    ensures files[i] in failing ==> Kept(files[..i + 1], failing) == Kept(files[..i], failing)
  {
    assert files[..i + 1][..i] == files[..i];
    assert Kept(files[..i], failing) + [] == Kept(files[..i], failing);
  }

  // ---------------------------------------------------------------------------
  // What a report says

  /** The dictionary a run starts from has one empty list per table key, in
      table order, then one for the fallback, and its total is 0. */
  lemma SeededResult(t: Table)
    ensures var r := EmptyReport(Categories(t));
            |r| == |t| + 1 && r[|t|] == Group(Fallback, []) &&
            (forall i :: 0 <= i < |t| ==> r[i] == Group(t[i].category, [])) &&
            TotalCount(r) == 0
  {
    TotalOfNoNames(EmptyReport(Categories(t)));
  }

  /** A name is listed under a category exactly when the run recorded it (every
      regular file in a dry run, only the moved ones in a live run) and it
      belongs to that category. */
  lemma ReportMembers(t: Table, dryRun: bool, files: seq<string>, failing: set<string>, i: nat, n: string)
    requires i < |Categories(t)|
    ensures var r := Grouped(Categories(t), Categorizer(t), Recorded(dryRun, files, failing));
            n in r[i].names <==> n in files && (dryRun || n !in failing) && Categorize(t, n) == Categories(t)[i]
  {
    OfCategoryMembers(Categorizer(t), Recorded(dryRun, files, failing), Categories(t)[i], n);
  }

  /** With a well-formed table every recorded file is counted exactly once: a
      dry run's total is the number of regular files, a live run's the number
      of files moved. */
  lemma ReportTotal(t: Table, dryRun: bool, files: seq<string>, failing: set<string>)
    requires WellFormed(t)
    ensures TotalCount(Grouped(Categories(t), Categorizer(t), Recorded(dryRun, files, failing))) ==
              if dryRun then |files| else |Kept(files, failing)|
  {
    var recorded := Recorded(dryRun, files, failing);
    assert Distinct(Categories(t));
    forall n | n in recorded ensures Categorizer(t)(n) in Categories(t) {
      CategorizeInCategories(t, n);
    }
    TotalOfGrouped(Categories(t), Categorizer(t), recorded);
  }

  /** Changing the dictionary that `file_extensions` returned leaves the
      organizer's table as it was: a later copy holds the original table. */
  method ChangeCopy(o: FileOrganizer, key: string, exts: seq<string>) returns (changed: ExtensionMap, later: ExtensionMap)
    ensures changed.items == SetItem(o.table, key, exts) && key in Keys(changed.items)
    ensures later.items == o.table && changed != later
    ensures key !in Keys(o.table) ==> key !in Keys(later.items)
  {
    changed := o.FileExtensions();
    changed.Put(key, exts);
    SetItemPuts(o.table, key, exts);
    later := o.FileExtensions();
  }
}
