# File organizer — a verified model of the `FileOrganizer` engine

`FileOrganizer` sorts the regular files that sit directly in one directory into
category subfolders (`Images`, `Documents`, `Videos`, `Audio`, `Archives`,
`Code`, `Executables`, and the fallback `Other`), chosen from a file's
lower-cased extension. This project models the engine and proves what it promises:

- the extension rule and the first-match category lookup over the fixed table;
- the copy of the table that the `file_extensions` property hands out;
- folder provisioning with `mkdir(exist_ok=True)`;
- the dry-run and live `organize_files` pipeline, with its result dictionary;
- the total that `print_summary` reports.

The model has four modules:

- `Classifier` (`classifier.dfy`) holds the ordered category table. It
  defines the suffix-and-lower-case rule of `get_file_extension` and the
  first-match scan of `categorize_file`, as recursive functions.
- `Results` (`results.dfy`) holds the result dictionary `moved_files` as an
  ordered sequence of `(category, names)` groups. It defines the reference
  grouping that a run must produce, the append the loop performs, and the
  summary total.
- `FileSystem` (`filesystem.dfy`) is the target directory. It is a `Directory`
  class with these fields:
  - the existence flag;
  - the children by name, each a regular file or a folder holding a set of
    names;
  - a ghost log of `mkdir` calls.

  It has the two filesystem operations the engine uses: `Mkdir` (for
  `Path.mkdir(exist_ok=True)`) and `Move` (for `shutil.move`). It also has
  `EnsureFolders`, the loop of `mkdir` calls that provisioning makes.
- `Organizer` (`organizer.dfy`) is the `FileOrganizer` class.
  - `CreateCategoryFolders` runs `EnsureFolders` over the categories.
  - `OrganizeFiles` runs its loop in `ProcessFiles`, one `ProcessFile` per
    file.
  - `PrintSummary` accumulates the total.

  Each is proved against the specification functions in the other modules. It also holds the
  `ExtensionMap` class that `file_extensions` returns, and the lemmas relating
  a finished run to the directory it leaves behind.

Inputs the engine takes from its environment are parameters:
- the order in which `iterdir` lists the children is `listing`;
- the files whose move the platform refuses are `failing`.

Two behaviours of the code are easy to miss:

- `organize_files` on a directory with no regular file returns the empty
  result before any folder is made (file_organizer.py:102-104). The folders
  seen after an "empty directory" run come from `main`, which calls
  `create_category_folders` before `organize_files` (file_organizer.py:170),
  on dry runs too. `main` is not part of this model.
- `mkdir(exist_ok=True)` still raises when a regular file holds the category
  name. `create_category_folders` does not catch this, so `organize_files`
  stops there. The folders made so far stay, and no file is moved. The model
  reports this as `Failure(FileExists(name))`.

## Model

| member | source | states |
|---|---|---|
| Classifier.AsciiLower | file_organizer.py:55 | lower-casing keeps the length and maps every character through ASCII `A`-`Z` → `a`-`z`, leaving all others alone |
| Classifier.Suffix | file_organizer.py:55 | `PurePath.suffix` of a base name; what it yields is stated by ExtensionRule |
| Classifier.GetFileExtension | file_organizer.py:45-55 | the lower-cased suffix; its rule is stated by ExtensionRule, its case insensitivity by SameExtensionIgnoringCase |
| Classifier.ExtensionRule | file_organizer.py:45-55 | the extension is the lower-cased text from the last dot, provided that dot is neither the first nor the last character; a name with no dot after its first character, or ending in a dot, has none; a non-empty extension starts with a dot, has no other dot, is lower-case and is shorter than the name |
| Classifier.ExtensionOfStemAndTail | file_organizer.py:45-55 | for any non-empty stem and dot-free non-empty tail, the extension of `stem.tail` is `.tail` lower-cased |
| Classifier.NoInnerDot | file_organizer.py:45-55 | a name with no dot after its first character has no extension |
| Classifier.SameExtensionIgnoringCase | file_organizer.py:55 | names equal up to ASCII case have the same extension |
| Classifier.ExtensionIsLowerCased | tests/test_file_organizer_unit.py:36-40 | `test.JPG` has extension `.jpg` |
| Classifier.ExtensionOfNameWithoutDot | tests/test_file_organizer_unit.py:42-46 | `testfile` has no extension |
| Classifier.ExtensionLastDotWins | tests/test_file_organizer_unit.py:48-52 | `test.backup.txt` has extension `.txt` |
| Classifier.ExtensionOfDotfile | tests/test_file_organizer_integration.py:173-204 | `.hidden` has no extension |
| Classifier.Keys | file_organizer.py:77 | the table keys, one per rule, in declared order |
| Classifier.Categories | file_organizer.py:77 | the categories are the table keys in order, then `Other` last: one more than the table has rules |
| Classifier.Lookup | file_organizer.py:69-73 | the category is that of the first rule whose list holds the extension; with no such rule it is `Other`; it is always one of the categories |
| Classifier.Categorize | file_organizer.py:57-73 | the lookup of the name's extension; stated by CategorizeInCategories, CategorizeIgnoresCase and NoExtensionIsOther |
| Classifier.CategorizeInCategories | file_organizer.py:57-73 | `categorize_file` is total and always lands in a table key or `Other` |
| Classifier.CategorizeIgnoresCase | file_organizer.py:67-73 | names equal up to ASCII case get the same category |
| Classifier.CategorizeUpperCase | tests/test_file_organizer_unit.py:71-75 | upper-casing a name never changes its category |
| Classifier.NoExtensionIsOther | file_organizer.py:67-73 | when no rule lists the empty extension, a name without a dot after its first character is `Other` |
| Classifier.DefaultTableWellFormed | file_organizer.py:30-38 | the built-in table has distinct keys, none of them `Other` |
| Classifier.DefaultTableHasNoEmptyExtension | file_organizer.py:31-37 | no rule of the built-in table lists the empty extension |
| Classifier.JpgIsImage | file_organizer.py:31 | `.jpg` is looked up as an image |
| Classifier.TxtIsDocument | file_organizer.py:31-32 | `.txt` is looked up as a document (the image rule does not list it) |
| Classifier.XyzIsUnlisted | file_organizer.py:31-37 | no rule of the built-in table lists `.xyz` |
| Classifier.ExtensionOfUpperCaseImage | tests/test_file_organizer_unit.py:71-75 | `IMAGE.JPG` has extension `.jpg` |
| Classifier.ExtensionOfUnknown | tests/test_file_organizer_unit.py:53-69 | `unknown.xyz` has extension `.xyz` |
| Classifier.CategorizeUpperCaseImage | tests/test_file_organizer_unit.py:71-75 | `IMAGE.JPG` is an image |
| Classifier.TextFilesAreDocuments | file_organizer.py:67-73 | any name made of a non-empty stem (dots allowed) and `.txt` is a document |
| Classifier.CategorizeDottedDocument | tests/test_file_organizer_unit.py:226-240 | `file.with.dots.txt` is a document |
| Classifier.CategorizeUnknownExtension | tests/test_file_organizer_unit.py:53-69 | `unknown.xyz` is `Other` |
| Classifier.CategorizeNoExtension | tests/test_file_organizer_unit.py:53-69 | `noextension` is `Other` |
| Results.AppendName | file_organizer.py:119-122 | `moved_files[c].append(n)`: every group keeps its key, the groups keyed `c` gain `n` at their end, all others are unchanged |
| Results.OfCategoryMembers | file_organizer.py:112-123 | a name is grouped under `c` exactly when it was recorded and its category is `c` |
| Results.OfCategoryConcat | file_organizer.py:112-128 | grouping keeps the recording order: the group of a concatenation is the concatenation of the groups |
| Results.OfCategoryDistinct | file_organizer.py:100-128 | a group never repeats a name when the recorded names are distinct |
| Results.EmptyReport | file_organizer.py:97 | the seeded dictionary: every key with an empty list; stated by SeededResult and EmptyReportIsGroupedNothing |
| Results.EmptyReportIsGroupedNothing | file_organizer.py:97 | the seeded dictionary is the grouping of no names |
| Results.GroupedAppend | file_organizer.py:112-123 | appending a name to the group of its category turns the grouping of `files` into the grouping of `files + [n]` |
| Results.AtMostOneGroup | file_organizer.py:97-128 | with distinct keys, a name appears under at most one key |
| Results.GroupedContainsEveryFile | file_organizer.py:112-123 | when every category is a key, each recorded name appears in the group of its own category |
| Results.AppendTotal | file_organizer.py:119-122 | an append raises the total by the number of groups keyed by the category |
| Results.KeyCountOfDistinct | file_organizer.py:97 | among distinct keys, each key occurs once |
| Results.KeyCountAbsent | file_organizer.py:97 | a key held by no group occurs zero times |
| Results.TotalOfGrouped | file_organizer.py:141-149 | with distinct keys covering every category, the total of the grouping is the number of recorded names |
| Results.TotalOfNoNames | file_organizer.py:141-149 | a result whose groups are all empty has total 0 |
| FileSystem.Directory.constructor | file_organizer.py:29 | a directory with the given existence flag and children, and no mkdir calls yet |
| FileSystem.Directory.Mkdir | file_organizer.py:80-81 | `mkdir(exist_ok=True)` fails when the directory is missing or a regular file holds the name; otherwise it leaves an existing folder as it is or adds an empty one; every call is logged |
| FileSystem.Directory.Move | file_organizer.py:118 | a move succeeds exactly when the platform allows it, the source is a regular file and the target a folder; it then removes the file and adds its name to the folder; a failed move changes nothing |
| FileSystem.Directory.EnsureFolders | file_organizer.py:79-81 | `mkdir(exist_ok=True)` for each name in turn: on a missing directory the first call fails and nothing changes; otherwise it stops at the first name a regular file holds, reporting `FileExists` for it with the names before it provisioned and one call logged per name tried; with no such name every name is a folder afterwards and each was tried once, in order |
| FileSystem.FirstBlocked | file_organizer.py:79-81 | the position of the first category held by a regular file (where provisioning stops), or the number of categories when there is none |
| FileSystem.FirstBlockedAgrees | file_organizer.py:79-81 | that position is the only one with those three properties |
| FileSystem.WithFoldersKeeps | file_organizer.py:75-82 | provisioning keeps every existing child as it was and adds only empty folders under the given names |
| FileSystem.WithFoldersFiles | file_organizer.py:75-82 | provisioning never makes or removes a regular file |
| FileSystem.WithFoldersMakesFolders | file_organizer.py:75-82 | when no name is held by a regular file, every name is a folder afterwards |
| FileSystem.WithFoldersConcat | file_organizer.py:79-81 | provisioning two batches of names one after the other is provisioning their concatenation in one run |
| FileSystem.WithFoldersPresent | file_organizer.py:81 | ensuring folders that are all there already changes nothing |
| FileSystem.ProvisionIdempotent | file_organizer.py:75-82 | a second provisioning run stops at the same place and leaves the children as the first run left them |
| Organizer.SetItemPuts | tests/test_file_organizer_unit.py:248 | a dictionary assignment `d[key] = exts` on the copy leaves `key` present with the new list and every other rule where it was, unchanged; an existing key keeps the key order, a new key is appended at the end |
| Organizer.SetItemReplaces | tests/test_file_organizer_unit.py:248 | assigning an existing key keeps the length and the key order, gives that key the new list and leaves every other rule unchanged |
| Organizer.SetItemAppends | tests/test_file_organizer_unit.py:248 | assigning a new key keeps every rule as it was and adds the key, with its list, at the end |
| Organizer.ExtensionMap.constructor | file_organizer.py:43 | the copy holds the given table |
| Organizer.ExtensionMap.Put | tests/test_file_organizer_unit.py:248 | an assignment changes only the copy's own items |
| Organizer.RegularFiles | file_organizer.py:100 | a name is listed exactly when `iterdir` yields it and it is a regular file (folders are never listed); distinct when the listing is |
| Organizer.Kept | file_organizer.py:117-128 | the files whose move succeeded: a name is kept exactly when it was listed and its move was not refused |
| Organizer.RegularFilesConcat | file_organizer.py:100 | the regular files keep `iterdir` order: those of a concatenated listing are the files of its first part followed by those of the rest |
| Organizer.KeptConcat | file_organizer.py:112-119 | the moved files keep processing order in the same sense |
| Organizer.AfterMovesNone | file_organizer.py:112-128 | moving no file changes no child |
| Organizer.AfterMovesStep | file_organizer.py:118 | before a file's move it is still a regular file and its category folder still exists; moving it extends the moved set by that file |
| Organizer.LiveRunPlacement | file_organizer.py:112-128 | after a live run, a moved file is gone from the directory and is in its category folder; a file whose move failed is still in place |
| Organizer.SubfoldersUntouched | file_organizer.py:100 | a folder that is not a category (a subdirectory of the user's) is left exactly as it was |
| Organizer.CategoryFolderContents | file_organizer.py:114-119 | a category folder holds what it held before plus exactly the moved files of its category |
| Organizer.LiveStep | file_organizer.py:112-126 | what one step of a live run relies on and achieves: the move's preconditions hold, and the step leaves the state that results from moving or failing to move that one file |
| Organizer.StepFacts | file_organizer.py:112-126 | one pass of the loop in either mode: a dry run records the file and changes nothing; in a live run the file is still a regular file and its folder exists, an allowed move moves and records it, and a refused move changes nothing |
| Organizer.ProvisionedFor | file_organizer.py:109-110 | after provisioning without a block, every regular file is still a regular file and the folder of its category exists |
| Organizer.FileOrganizer.constructor | file_organizer.py:22-38 | a new organizer holds the built-in table (the constant `Classifier.DefaultTable`, whose properties DefaultTableWellFormed and DefaultTableHasNoEmptyExtension state) for its directory |
| Organizer.FileOrganizer.FileExtensions | file_organizer.py:40-43 | `file_extensions` returns a freshly allocated dictionary holding the table |
| Organizer.FileOrganizer.CreateCategoryFolders | file_organizer.py:75-82 | on a missing directory the first mkdir fails and nothing changes; otherwise mkdir is called for the keys in order and then `Other` (one call more than the table has rules), stopping at the first category a regular file holds and reporting `FileExists` for it; the folders before it are provisioned |
| Organizer.FileOrganizer.OrganizeFiles | file_organizer.py:84-128 | a missing directory fails with nothing listed or changed; no regular file gives the all-empty result with no folder made; a dry run gives every regular file grouped by category and changes nothing; a live run provisions first and aborts on `FileExists`; otherwise it moves the files whose move is allowed into their folders and records those only, in listing order |
| Organizer.FileOrganizer.ProcessFiles | file_organizer.py:112-128 | the loop over the files: a dry run records all and touches nothing; a live run records and moves exactly the files whose move succeeds |
| Organizer.FileOrganizer.ProcessFile | file_organizer.py:113-126 | one pass of that loop extends the recorded files and the moved set by the current file as the mode and the move's outcome dictate |
| Organizer.FileOrganizer.PrintSummary | file_organizer.py:141-149 | the total visits only non-empty lists and equals the sum of the lengths of all lists |
| Organizer.SeededResult | file_organizer.py:97 | the dictionary a run starts from has an empty list for each table key in order and then `Other`, and totals 0 |
| Organizer.ReportMembers | file_organizer.py:112-128 | a name is listed under a category exactly when it is a processed file of that category and, in a live run, its move succeeded |
| Organizer.ReportTotal | file_organizer.py:112-149 | with a well-formed table, a dry run's total is the number of regular files and a live run's the number of files moved |
| Organizer.ChangeCopy | tests/test_file_organizer_unit.py:242-252 | changing a copy from `file_extensions` (adding `NewCategory`, say) does not reach the organizer: a later copy holds the original table and lacks the new key |

## Left out

- `main` (file_organizer.py:152-190) and the command-line wrapper: argument
  parsing, the `--create-folders` shortcut, exit codes and console messages.
- All printed text: the folder, move, error and summary messages. Only the
  total of `print_summary` is modelled.
- Unicode case mapping in `str.lower()`: only ASCII letters are lower-cased.
- Names are base names (no path separators). The suffix rule is that of
  `PurePath.suffix`: the last dot counts only when it is neither the first
  nor the last character.
- `shutil.move`'s real semantics are not modelled: copy-and-delete across
  devices, and overwrite versus failure at an existing destination. Whether a
  move is allowed is the oracle `failing`. A successful move onto a name the
  folder already holds simply leaves that name in the folder.
- `iterdir` order is the parameter `listing`, required to yield every child
  exactly once.
- Symbolic links and special files: a child is either a regular file or a
  folder, and `is_file()` is "is a regular file".
- Other `mkdir` and `iterdir` failures are not modelled. The directory path
  may itself be a regular file: `exists()` (file_organizer.py:94) is then
  true, and `iterdir()` (file_organizer.py:100) raises NotADirectoryError. An
  unreadable directory makes `iterdir()` raise PermissionError. The flag
  `present` and the parameter `listing` cannot express either case. Only the
  missing directory and a regular file holding a category name are modelled.
- The performance test (tests/test_file_organizer_unit.py:259-282) measures
  time, which the model does not have.
