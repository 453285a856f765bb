/** The extension classifier: how a file name is turned into an extension and
    how the ordered category table maps an extension to a category. */
module Classifier {

  /** The fallback category that is not a key of the table but always exists. */
  const Fallback: string := "Other"

  /** One entry of the ordered category table: a category and its extensions
      (each lower-case and including its leading dot). */
  datatype Rule = Rule(category: string, extensions: seq<string>)

  /** The category table, in declared order (a Python dict keeps insertion order). */
  type Table = seq<Rule>

  /** The built-in table the organizer is constructed with. */
  const DefaultTable: Table := [
    Rule("Images", [".jpg", ".jpeg", ".png", ".gif", ".bmp", ".svg", ".webp", ".ico"]),
    Rule("Documents", [".pdf", ".doc", ".docx", ".txt", ".rtf", ".odt", ".xls", ".xlsx", ".ppt", ".pptx"]),
    Rule("Videos", [".mp4", ".avi", ".mkv", ".mov", ".wmv", ".flv", ".webm", ".m4v"]),
    Rule("Audio", [".mp3", ".wav", ".flac", ".aac", ".ogg", ".m4a", ".wma"]),
    Rule("Archives", [".zip", ".rar", ".7z", ".tar", ".gz", ".bz2"]),
    Rule("Code", [".py", ".js", ".html", ".css", ".java", ".cpp", ".c", ".php", ".rb", ".go"]),
    Rule("Executables", [".exe", ".msi", ".deb", ".rpm", ".dmg", ".app"])
  ]

  // ---------------------------------------------------------------------------
  // ASCII lower-casing

  predicate IsUpper(c: char) {
    'A' <= c <= 'Z'
  }

  function LowerChar(c: char): (d: char)
    ensures !IsUpper(d)
    ensures IsUpper(c) ==> d as int == c as int + 32
    ensures !IsUpper(c) ==> d == c
  {
    if IsUpper(c) then (c as int + 32) as char else c
  }

  function UpperChar(c: char): (d: char)
    ensures 'a' <= c <= 'z' ==> IsUpper(d) && LowerChar(d) == c
    ensures !('a' <= c <= 'z') ==> d == c
  {
    if 'a' <= c <= 'z' then (c as int - 32) as char else c
  }

  /** `str.lower()` restricted to ASCII letters: every other character is kept. */
  function AsciiLower(s: string): (r: string)
    ensures |r| == |s|
    ensures forall i :: 0 <= i < |s| ==> r[i] == LowerChar(s[i])
  {
    if s == [] then [] else [LowerChar(s[0])] + AsciiLower(s[1..])
  }

  /** `str.upper()` restricted to ASCII letters. */
  function AsciiUpper(s: string): (r: string)
    ensures |r| == |s|
    ensures forall i :: 0 <= i < |s| ==> r[i] == UpperChar(s[i])
  {
    if s == [] then [] else [UpperChar(s[0])] + AsciiUpper(s[1..])
  }

  // ---------------------------------------------------------------------------
  // Extension extraction

  /** `str.rfind`: the index of the last occurrence of `c`, or -1. */
  function LastIndexOf(s: string, c: char): (i: int)
    ensures -1 <= i < |s|
    ensures i >= 0 ==> s[i] == c
    ensures forall j :: i < j < |s| ==> s[j] != c
  {
    if s == [] then -1
    else if s[|s| - 1] == c then |s| - 1
    else LastIndexOf(s[..|s| - 1], c)
  }

  /** `PurePath.suffix` of a base name: the text from the last dot onward, but
      only when that dot is neither the first nor the last character. */
  function Suffix(name: string): string {
    var i := LastIndexOf(name, '.');
    if 0 < i < |name| - 1 then name[i..] else ""
  }

  /** `get_file_extension`: the suffix, lower-cased. */
  function GetFileExtension(name: string): string {
    AsciiLower(Suffix(name))
  }

  /** The extension rule. */
  lemma ExtensionRule(name: string)
    // last dot wins: a dot strictly inside the name with no dot after it starts the extension
    ensures forall i :: 0 < i < |name| - 1 && name[i] == '.' && NoDotAfter(name, i) ==>
              GetFileExtension(name) == AsciiLower(name[i..])
    // no dot, or only a leading dot (a dotfile such as `.hidden`)
    ensures (forall j :: 0 < j < |name| ==> name[j] != '.') ==> GetFileExtension(name) == ""
    // a trailing dot gives no extension
    ensures |name| > 0 && name[|name| - 1] == '.' ==> GetFileExtension(name) == ""
    // a non-empty extension is a dot followed by dot-free, lower-case text
    ensures var ext := GetFileExtension(name);
            ext != "" ==> |ext| >= 2 && ext[0] == '.' && |ext| < |name| &&
                          forall k :: 0 <= k < |ext| ==> !IsUpper(ext[k]) && (k > 0 ==> ext[k] != '.')
  {
    var last := LastIndexOf(name, '.');
    var ext := GetFileExtension(name);
    forall i | 0 < i < |name| - 1 && name[i] == '.' && NoDotAfter(name, i)
      ensures last == i
    {
    }
    if 0 < last < |name| - 1 {
      assert ext == AsciiLower(name[last..]);
      forall k | 0 < k < |ext| ensures ext[k] != '.' {
        assert name[last..][k] == name[last + k];
      }
    } else {
      assert ext == AsciiLower("");
    }
  }

  /** A name with no dot after its first character has no extension. */
  lemma NoInnerDot(name: string)
    requires name == [] || '.' !in name[1..]
    ensures GetFileExtension(name) == ""
  {
    forall j | 0 < j < |name| ensures name[j] != '.' {
      assert name[j] == name[1..][j - 1];
    }
    ExtensionRule(name);
  }

  predicate NoDotAfter(s: string, i: nat) {
    forall j :: i < j < |s| ==> s[j] != '.'
  }

  /** Names that agree after lower-casing have the same dots in the same places,
      so they have the same extension. */
  lemma {:induction false} SameExtensionIgnoringCase(a: string, b: string)
    requires AsciiLower(a) == AsciiLower(b)
    ensures GetFileExtension(a) == GetFileExtension(b)
  {
    assert |a| == |b|;
    forall j | 0 <= j < |a|
      ensures (a[j] == '.') == (b[j] == '.')
    {
      assert LowerChar(a[j]) == AsciiLower(a)[j] == AsciiLower(b)[j] == LowerChar(b[j]);
    }
    LastIndexOfAgrees(a, b, '.');
    var i := LastIndexOf(a, '.');
    if 0 < i < |a| - 1 {
      assert Suffix(a) == a[i..] && Suffix(b) == b[i..];
      LowerSlice(a, b, i);
    } else {
      assert Suffix(a) == "" && Suffix(b) == "";
    }
  }

  /** Strings equal after lower-casing stay equal after lower-casing from any index on. */
  lemma LowerSlice(a: string, b: string, i: nat)
    requires AsciiLower(a) == AsciiLower(b) && i <= |a|
    ensures AsciiLower(a[i..]) == AsciiLower(b[i..])
  {
    assert |a| == |b|;
    forall k | 0 <= k < |a| - i
      ensures AsciiLower(a[i..])[k] == AsciiLower(b[i..])[k]
    {
      assert AsciiLower(a)[i + k] == AsciiLower(b)[i + k];
    }
  }

  /** Two strings with their dots in the same places have their last dot in the same place. */
  lemma {:induction false} LastIndexOfAgrees(a: string, b: string, c: char)
    requires |a| == |b|
    requires forall j :: 0 <= j < |a| ==> (a[j] == c) == (b[j] == c)
    ensures LastIndexOf(a, c) == LastIndexOf(b, c)
  {
    if a != [] && a[|a| - 1] != c {
      LastIndexOfAgrees(a[..|a| - 1], b[..|b| - 1], c);
    }
  }

  /** A stem, a dot and a dot-free tail: the extension is the lower-cased dot and tail. */
  lemma {:induction false} ExtensionOfStemAndTail(stem: string, tail: string)
    requires stem != [] && tail != []
    requires forall k :: 0 <= k < |tail| ==> tail[k] != '.'
    ensures GetFileExtension(stem + "." + tail) == AsciiLower("." + tail)
  {
    var name := stem + "." + tail;
    var i := |stem|;
    assert name[i] == '.';
    assert NoDotAfter(name, i) by {
      forall j | i < j < |name| ensures name[j] != '.' {
        assert name[j] == tail[j - i - 1];
      }
    }
    assert name[i..] == "." + tail;
  }

  // The examples the test suite pins down, one lemma each.

  lemma ExtensionIsLowerCased()
    ensures GetFileExtension("test.JPG") == ".jpg"
  {
    LowerJpg();
    ExtensionOfStemAndTail("test", "JPG");
    assert "test" + "." + "JPG" == "test.JPG";
  }

  lemma ExtensionOfNameWithoutDot()
    ensures GetFileExtension("testfile") == ""
  {
    NoInnerDot("testfile");
  }

  lemma ExtensionLastDotWins()
    ensures GetFileExtension("test.backup.txt") == ".txt"
  {
    LowerExample(".txt", ".txt");
    ExtensionOfStemAndTail("test.backup", "txt");
    assert "test.backup" + "." + "txt" == "test.backup.txt";
  }

  lemma ExtensionOfDotfile()
    ensures GetFileExtension(".hidden") == ""
  {
    NoInnerDot(".hidden");
  }

  lemma LowerJpg()
    ensures AsciiLower("." + "JPG") == ".jpg"
  {
    assert "." + "JPG" == ".JPG";
    LowerExample(".JPG", ".jpg");
  }

  lemma LowerExample(s: string, r: string)
    requires |s| == |r| && forall i :: 0 <= i < |s| ==> LowerChar(s[i]) == r[i]
    ensures AsciiLower(s) == r
  {
  }

  // ---------------------------------------------------------------------------
  // Categorization

  /** The table keys in declared order. */
  function Keys(t: Table): (ks: seq<string>)
    ensures |ks| == |t|
    ensures forall i :: 0 <= i < |t| ==> ks[i] == t[i].category
  {
    if t == [] then [] else [t[0].category] + Keys(t[1..])
  }

  /** Every category a file can be sorted into: the table keys, then the fallback. */
  function Categories(t: Table): (cs: seq<string>)
    ensures |cs| == |t| + 1 && cs[|t|] == Fallback
    ensures forall i :: 0 <= i < |t| ==> cs[i] == t[i].category
  {
    Keys(t) + [Fallback]
  }

  /** The condition under which categories behave like dictionary keys: no key
      twice and no key that coincides with the fallback. */
  predicate WellFormed(t: Table) {
    (forall i, j :: 0 <= i < j < |t| ==> t[i].category != t[j].category) &&
    (forall i :: 0 <= i < |t| ==> t[i].category != Fallback)
  }

  /** The scan of `categorize_file`: the first rule whose list holds `ext`, else the fallback. */
  function Lookup(t: Table, ext: string): (c: string)
    // a match: c is the category of the first rule listing ext
    ensures forall k :: 0 <= k < |t| && ext in t[k].extensions &&
                        (forall j :: 0 <= j < k ==> ext !in t[j].extensions)
                        ==> c == t[k].category
    // no match: the fallback
    ensures (forall i :: 0 <= i < |t| ==> ext !in t[i].extensions) ==> c == Fallback
    ensures c in Categories(t)
  {
    if t == [] then Fallback
    else if ext in t[0].extensions then t[0].category
    else
      var c := Lookup(t[1..], ext);
      assert forall i :: 0 <= i < |t| - 1 ==> t[1..][i] == t[i + 1];
      c
  }

  /** `categorize_file`: the category of a base name. */
  function Categorize(t: Table, name: string): string {
    Lookup(t, GetFileExtension(name))
  }

  /** Categorization is total over the categories of the table. */
  lemma CategorizeInCategories(t: Table, name: string)
    ensures Categorize(t, name) in Categories(t)
  {
  }

  /** Names that differ only in letter case (in particular in the case of their
      suffix) land in the same category. */
  lemma CategorizeIgnoresCase(t: Table, a: string, b: string)
    requires AsciiLower(a) == AsciiLower(b)
    ensures Categorize(t, a) == Categorize(t, b)
  {
    SameExtensionIgnoringCase(a, b);
  }

  /** Upper-casing a name never changes its category. */
  lemma {:induction false} CategorizeUpperCase(t: Table, name: string)
    ensures Categorize(t, AsciiUpper(name)) == Categorize(t, name)
  {
    assert AsciiLower(AsciiUpper(name)) == AsciiLower(name) by {
      forall i | 0 <= i < |name|
        ensures AsciiLower(AsciiUpper(name))[i] == AsciiLower(name)[i]
      {
        assert AsciiUpper(name)[i] == UpperChar(name[i]);
      }
    }
    CategorizeIgnoresCase(t, AsciiUpper(name), name);
  }

  /** A name without any dot past its first character is never matched. */
  lemma NoExtensionIsOther(t: Table, name: string)
    requires forall i :: 0 <= i < |t| ==> "" !in t[i].extensions
    requires forall j :: 0 < j < |name| ==> name[j] != '.'
    ensures Categorize(t, name) == Fallback
  {
  }

  lemma DefaultTableWellFormed()
    ensures WellFormed(DefaultTable)
  {
    var t := DefaultTable;
    assert forall i :: 0 <= i < |t| ==> t[i].category[0] != 'O';
    assert forall i, j :: 0 <= i < j < |t| ==>
             t[i].category[0] != t[j].category[0] || t[i].category[1] != t[j].category[1];
  }

  lemma DefaultTableHasNoEmptyExtension()
    ensures forall i :: 0 <= i < |DefaultTable| ==> "" !in DefaultTable[i].extensions
  {
    forall i | 0 <= i < |DefaultTable| ensures "" !in DefaultTable[i].extensions {
      assert forall e :: e in DefaultTable[i].extensions ==> |e| >= 2;
    }
  }

  // The categorizations the test suite pins down.

  lemma CategorizeUpperCaseImage()
    ensures Categorize(DefaultTable, "IMAGE.JPG") == "Images"
  {
    ExtensionOfUpperCaseImage();
    JpgIsImage();
  }

  lemma ExtensionOfUpperCaseImage()
    ensures GetFileExtension("IMAGE.JPG") == ".jpg"
  {
    LowerJpg();
    ExtensionOfStemAndTail("IMAGE", "JPG");
    assert "IMAGE" + "." + "JPG" == "IMAGE.JPG";
  }

  lemma JpgIsImage()
    ensures Lookup(DefaultTable, ".jpg") == "Images"
  {
    assert ".jpg" in DefaultTable[0].extensions;
  }

  lemma CategorizeDottedDocument()
    ensures Categorize(DefaultTable, "file.with.dots" + ".txt") == "Documents"
  {
    TextFilesAreDocuments("file.with.dots");
  }

  /** Whatever its stem, dots included, a `.txt` file is a document. */
  lemma TextFilesAreDocuments(stem: string)
    requires stem != []
    ensures Categorize(DefaultTable, stem + ".txt") == "Documents"
  {
    LowerExample(".txt", ".txt");
    ExtensionOfStemAndTail(stem, "txt");
    assert stem + "." + "txt" == stem + ".txt";
    assert "." + "txt" == ".txt";
    TxtIsDocument();
  }

  lemma TxtIsDocument()
    ensures Lookup(DefaultTable, ".txt") == "Documents"
  {
    assert ".txt" !in DefaultTable[0].extensions;
    assert ".txt" in DefaultTable[1].extensions;
  }

  lemma CategorizeUnknownExtension()
    ensures Categorize(DefaultTable, "unknown.xyz") == Fallback
  {
    ExtensionOfUnknown();
    XyzIsUnlisted();
  }

  lemma ExtensionOfUnknown()
    ensures GetFileExtension("unknown.xyz") == ".xyz"
  {
    LowerExample(".xyz", ".xyz");
    ExtensionOfStemAndTail("unknown", "xyz");
    assert "unknown" + "." + "xyz" == "unknown.xyz";
  }

  lemma XyzIsUnlisted()
    ensures forall i :: 0 <= i < |DefaultTable| ==> ".xyz" !in DefaultTable[i].extensions
  {
    forall i | 0 <= i < |DefaultTable| ensures ".xyz" !in DefaultTable[i].extensions {
      forall e | e in DefaultTable[i].extensions ensures e != ".xyz" {
        assert |e| != 4 || e[3] != 'z';
      }
    }
  }

  lemma CategorizeNoExtension()
    ensures Categorize(DefaultTable, "noextension") == Fallback
  {
    DefaultTableHasNoEmptyExtension();
    NoExtensionIsOther(DefaultTable, "noextension");
  }
}
