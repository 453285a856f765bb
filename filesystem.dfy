/** The target directory as the organizer sees it: whether its path exists and
    its direct children. A child is a regular file or a folder; a folder is
    described by the names of the files it holds. The two filesystem calls the
    organizer makes are `Path.mkdir(exist_ok=True)` and `shutil.move`. */
module FileSystem {

  datatype Entry = File | Folder(names: set<string>)

  /** The failures that abort a whole run. */
  datatype Error =
    | DirectoryNotFound        // FileNotFoundError: the target directory does not exist
    | FileExists(name: string) // FileExistsError: a regular file holds a folder's name

  datatype Outcome = Pass | Fail(error: Error)

  datatype Result<T> = Success(value: T) | Failure(error: Error)

  type Entries = map<string, Entry>

  predicate IsFile(e: Entries, name: string) {
    name in e && e[name].File?
  }

  predicate IsFolder(e: Entries, name: string) {
    name in e && e[name].Folder?
  }

  /** What `mkdir(exist_ok=True)` of `<dir>/<name>` reports: the parent must
      exist, and an existing child is tolerated only when it is a folder. */
  function MkdirOutcome(present: bool, e: Entries, name: string): Outcome {
    if !present then Fail(DirectoryNotFound)
    else if IsFile(e, name) then Fail(FileExists(name))
    else Pass
  }

  /** The children after a successful `mkdir`: a new empty folder unless one is already there. */
  function WithFolder(e: Entries, name: string): Entries {
    if name in e then e else e[name := Folder({})]
  }

  /** The children after `<dir>/<name>` has been moved into the folder `<dir>/<folder>`. */
  function MoveInto(e: Entries, name: string, folder: string): Entries
    requires IsFolder(e, folder)
  {
    (e - {name})[folder := Folder(e[folder].names + {name})]
  }

  class Directory {
    /** Whether the directory's path exists. */
    var present: bool
    /** Its direct children by name. */
    var entries: Entries
    /** Every `mkdir` call made under this directory, in order. */
    ghost var mkdirCalls: seq<string>

    constructor (present: bool, entries: Entries)
      ensures this.present == present && this.entries == entries && mkdirCalls == []
    {
      this.present := present;
      this.entries := entries;
      mkdirCalls := [];
    }

    /** `(<dir> / name).mkdir(exist_ok=True)`. */
    method Mkdir(name: string) returns (res: Outcome)
      modifies this
      ensures res == MkdirOutcome(old(present), old(entries), name)
      ensures entries == if res.Pass? then WithFolder(old(entries), name) else old(entries)
      ensures present == old(present) && mkdirCalls == old(mkdirCalls) + [name]
    {
      mkdirCalls := mkdirCalls + [name];
      res := MkdirOutcome(present, entries, name);
      if res.Pass? {
        entries := WithFolder(entries, name);
      }
    }

    /** `mkdir(exist_ok=True)` for each of `names` in turn, stopping at the first call that raises. */
    method EnsureFolders(names: seq<string>) returns (res: Outcome)
      requires names != []
      modifies this
      ensures present == old(present)
      // the first mkdir already fails on a missing directory
      ensures !old(present) ==>
                res == Fail(DirectoryNotFound) && entries == old(entries) && mkdirCalls == old(mkdirCalls) + [names[0]]
      // a regular file holding a name stops the run at that name
      ensures old(present) && FirstBlocked(old(entries), names) < |names| ==>
                var k := FirstBlocked(old(entries), names);
                res == Fail(FileExists(names[k])) && entries == WithFolders(old(entries), names[..k]) &&
                mkdirCalls == old(mkdirCalls) + names[..k + 1]
      // otherwise every name is a folder afterwards, made in order
      ensures old(present) && FirstBlocked(old(entries), names) == |names| ==>
                res == Pass && entries == WithFolders(old(entries), names) && mkdirCalls == old(mkdirCalls) + names
    {
      ghost var e0, calls := entries, mkdirCalls;
      assert names[..0] == [];
      var i := 0;
      while i < |names|
        invariant 0 <= i <= |names|
        invariant present == old(present)
        invariant !old(present) ==> i == 0
        invariant forall j :: 0 <= j < i ==> !IsFile(e0, names[j])
        invariant entries == WithFolders(e0, names[..i])
        invariant mkdirCalls == calls + names[..i]
      {
        WithFoldersFiles(e0, names[..i], names[i]);
        var r := Mkdir(names[i]);
        assert names[..i + 1] == names[..i] + [names[i]];
        if r.Fail? {
          if old(present) {
            FirstBlockedAgrees(e0, names, i);
          }
          return r;
        }
        WithFoldersStep(e0, names, i);
        i := i + 1;
      }
      assert names[..i] == names;
      FirstBlockedAgrees(e0, names, i);
      return Pass;
    }

    /** `shutil.move(<dir>/name, <dir>/folder/name)`. Whether the platform lets
        the move through (permissions, locks, devices) is the oracle `succeeds`;
        a move whose source is not a regular file or whose target is not a
        folder fails as well. A failed move changes nothing. */
    method Move(name: string, folder: string, succeeds: bool) returns (ok: bool)
      modifies this`entries
      ensures ok == (succeeds && present && IsFile(old(entries), name) && IsFolder(old(entries), folder))
      ensures ok ==> entries == MoveInto(old(entries), name, folder)
      ensures !ok ==> entries == old(entries)
    {
      ok := succeeds && present && IsFile(entries, name) && IsFolder(entries, folder);
      if ok {
        entries := MoveInto(entries, name, folder);
      }
    }
  }

  // ---------------------------------------------------------------------------
  // A sequence of mkdir calls

  /** The position of the first name held by a regular file (where a run of
      `mkdir(exist_ok=True)` calls stops), or `|names|` when there is none. */
  function FirstBlocked(e: Entries, names: seq<string>): (k: nat)
    ensures k <= |names|
    ensures k < |names| ==> IsFile(e, names[k])
    ensures forall j :: 0 <= j < k ==> !IsFile(e, names[j])
  {
    if names == [] then 0
    else if IsFile(e, names[0]) then 0
    else 1 + FirstBlocked(e, names[1..])
  }

  /** The children after every name in `names`, in order, has been ensured a folder. */
  function WithFolders(e: Entries, names: seq<string>): Entries {
    if names == [] then e
    else WithFolder(WithFolders(e, names[..|names| - 1]), names[|names| - 1])
  }

  /** Ensuring folders keeps every child and adds only the given names, as empty folders. */
  lemma {:induction false} WithFoldersKeeps(e: Entries, names: seq<string>)
    ensures forall k :: k in e ==> k in WithFolders(e, names) && WithFolders(e, names)[k] == e[k]
    ensures forall k :: k in WithFolders(e, names) ==> k in e || k in names
    ensures forall n :: n in names && n !in e ==> n in WithFolders(e, names) && WithFolders(e, names)[n] == Folder({})
  {
    if names != [] {
      var front := names[..|names| - 1];
      WithFoldersKeeps(e, front);
      assert names == front + [names[|names| - 1]];
    }
  }

  /** Ensuring folders never makes or removes a regular file. */
  lemma WithFoldersFiles(e: Entries, names: seq<string>, n: string)
    ensures IsFile(WithFolders(e, names), n) == IsFile(e, n)
  {
    WithFoldersKeeps(e, names);
  }

  /** When no name is held by a regular file, every name is a folder afterwards. */
  lemma {:induction false} WithFoldersMakesFolders(e: Entries, names: seq<string>)
    requires FirstBlocked(e, names) == |names|
    ensures forall n :: n in names ==> IsFolder(WithFolders(e, names), n)
  {
    WithFoldersKeeps(e, names);
    forall n | n in names ensures IsFolder(WithFolders(e, names), n) {
      var j :| 0 <= j < |names| && names[j] == n;
      assert !IsFile(e, names[j]);
    }
  }

  /** One more mkdir that succeeds extends the folders by its name. */
  lemma WithFoldersStep(e: Entries, names: seq<string>, i: nat)
    requires i < |names|
    ensures WithFolder(WithFolders(e, names[..i]), names[i]) == WithFolders(e, names[..i + 1])
  {
    assert names[..i + 1][..i] == names[..i];
  }

  /** Provisioning in two batches is provisioning once, in order. */
  lemma {:induction false} WithFoldersConcat(e: Entries, a: seq<string>, b: seq<string>)
    ensures WithFolders(e, a + b) == WithFolders(WithFolders(e, a), b)
  {
    if b == [] {
      assert a + b == a;
    } else {
      var front := b[..|b| - 1];
      WithFoldersConcat(e, a, front);
      assert (a + b)[..|a + b| - 1] == a + front;
    }
  }

  /** Ensuring folders that are all there already changes nothing. */
  lemma {:induction false} WithFoldersPresent(e: Entries, names: seq<string>)
    requires forall n :: n in names ==> n in e
    ensures WithFolders(e, names) == e
  {
    if names != [] {
      var front := names[..|names| - 1];
      assert forall n :: n in front ==> n in names;
      WithFoldersPresent(e, front);
    }
  }

  /** Provisioning is idempotent: a second run over the same names reaches the
      same outcome and leaves the children as the first run left them. */
  lemma {:induction false} ProvisionIdempotent(e: Entries, names: seq<string>)
    ensures var k := FirstBlocked(e, names);
            var e' := WithFolders(e, names[..k]);
            FirstBlocked(e', names) == k && WithFolders(e', names[..k]) == e'
  {
    var k := FirstBlocked(e, names);
    var e' := WithFolders(e, names[..k]);
    WithFoldersKeeps(e, names[..k]);
    forall j | 0 <= j < k ensures !IsFile(e', names[j]) {
      assert names[j] in names[..k];
    }
    if k < |names| {
      assert IsFile(e', names[k]);
    }
    FirstBlockedAgrees(e', names, k);
    forall n | n in names[..k] ensures n in e' {
    }
    WithFoldersPresent(e', names[..k]);
  }

  /** `FirstBlocked` is determined by its three postconditions. */
  lemma {:induction false} FirstBlockedAgrees(e: Entries, names: seq<string>, k: nat)
    requires k <= |names|
    requires k < |names| ==> IsFile(e, names[k])
    requires forall j :: 0 <= j < k ==> !IsFile(e, names[j])
    ensures FirstBlocked(e, names) == k
  {
  }
}
