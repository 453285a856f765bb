/** The result dictionary of an organize run (`moved_files`): one group of names
    per key, in key order, and the total that the summary reports. The grouping
    is stated for any list of keys and any labelling of names; the organizer
    uses the categories of its table and its categorizer. */
module Results {

  /** One item of the result dictionary: a category and the names recorded under it. */
  datatype Group = Group(category: string, names: seq<string>)

  /** The result dictionary, in insertion order. */
  type Report = seq<Group>

  /** The reference grouping: the names of `files` classified `c`, in the order of `files`. */
  function OfCategory(classify: string -> string, files: seq<string>, c: string): seq<string> {
    if files == [] then []
    else
      var last := files[|files| - 1];
      OfCategory(classify, files[..|files| - 1], c) + (if classify(last) == c then [last] else [])
  }

  /** What a run that records `files` should report: for every key in order,
      the recorded names classified under it, in recording order. */
  function Grouped(keys: seq<string>, classify: string -> string, files: seq<string>): Report {
    seq(|keys|, i requires 0 <= i < |keys| => Group(keys[i], OfCategory(classify, files, keys[i])))
  }

  /** The dictionary `organize_files` starts from: every key, no names. */
  function EmptyReport(keys: seq<string>): Report {
    seq(|keys|, i requires 0 <= i < |keys| => Group(keys[i], []))
  }

  /** Every recorded name is classified under one of the keys. */
  predicate Covers(keys: seq<string>, classify: string -> string, files: seq<string>) {
    forall n :: n in files ==> classify(n) in keys
  }

  /** `moved_files[c].append(n)`: the group keyed `c` gains `n` at its end. */
  function AppendName(r: Report, c: string, n: string): (r': Report)
    ensures |r'| == |r|
    ensures forall i :: 0 <= i < |r| ==> r'[i].category == r[i].category
    ensures forall i :: 0 <= i < |r| && r[i].category == c ==> r'[i].names == r[i].names + [n]
    ensures forall i :: 0 <= i < |r| && r[i].category != c ==> r'[i] == r[i]
  {
    seq(|r|, i requires 0 <= i < |r| => if r[i].category == c then Group(c, r[i].names + [n]) else r[i])
  }

  /** The sum of the lengths of all groups. */
  function TotalCount(r: Report): nat {
    if r == [] then 0 else TotalCount(r[..|r| - 1]) + |r[|r| - 1].names|
  }

  /** How many groups are keyed `c`. */
  function KeyCount(r: Report, c: string): nat {
    if r == [] then 0 else KeyCount(r[..|r| - 1], c) + (if r[|r| - 1].category == c then 1 else 0)
  }

  predicate DistinctKeys(r: Report) {
    forall i, j :: 0 <= i < j < |r| ==> r[i].category != r[j].category
  }

  predicate Distinct(s: seq<string>) {
    forall i, j :: 0 <= i < j < |s| ==> s[i] != s[j]
  }

  // ---------------------------------------------------------------------------
  // The reference grouping

  /** A name is grouped under `c` exactly when it is recorded and classified `c`. */
  lemma {:induction false} OfCategoryMembers(classify: string -> string, files: seq<string>, c: string, n: string)
    ensures n in OfCategory(classify, files, c) <==> n in files && classify(n) == c
  {
    if files != [] {
      var front := files[..|files| - 1];
      OfCategoryMembers(classify, front, c, n);
      assert files == front + [files[|files| - 1]];
    }
  }

  /** Grouping keeps the recording order: earlier names come before later ones. */
  lemma {:induction false} OfCategoryConcat(classify: string -> string, a: seq<string>, b: seq<string>, c: string)
    ensures OfCategory(classify, a + b, c) == OfCategory(classify, a, c) + OfCategory(classify, b, c)
  {
    if b == [] {
      assert a + b == a;
    } else {
      var front := b[..|b| - 1];
      OfCategoryConcat(classify, a, front, c);
      assert (a + b)[..|a + b| - 1] == a + front;
    }
  }

  /** Grouping never repeats a name that the recording does not repeat. */
  lemma {:induction false} OfCategoryDistinct(classify: string -> string, files: seq<string>, c: string)
    requires Distinct(files)
    ensures Distinct(OfCategory(classify, files, c))
  {
    if files != [] {
      var front := files[..|files| - 1];
      var last := files[|files| - 1];
      OfCategoryDistinct(classify, front, c);
      OfCategoryMembers(classify, front, c, last);
      assert last !in front;
    }
  }

  /** The seeded dictionary is the report of a run that recorded nothing. */
  lemma EmptyReportIsGroupedNothing(keys: seq<string>, classify: string -> string)
    ensures EmptyReport(keys) == Grouped(keys, classify, [])
  {
  }

  /** Appending a name to the group of its class extends the report by that name. */
  lemma {:induction false} GroupedAppend(keys: seq<string>, classify: string -> string, files: seq<string>, n: string)
    ensures AppendName(Grouped(keys, classify, files), classify(n), n) == Grouped(keys, classify, files + [n])
  {
    var r := AppendName(Grouped(keys, classify, files), classify(n), n);
    var after := Grouped(keys, classify, files + [n]);
    forall i | 0 <= i < |r| ensures r[i] == after[i] {
      assert (files + [n])[..|files + [n]| - 1] == files;
    }
  }

  /** With distinct keys a name is grouped under at most one key. */
  lemma AtMostOneGroup(keys: seq<string>, classify: string -> string, files: seq<string>, n: string, i: nat, j: nat)
    requires Distinct(keys)
    requires i < j < |keys|
    ensures !(n in Grouped(keys, classify, files)[i].names && n in Grouped(keys, classify, files)[j].names)
  {
    OfCategoryMembers(classify, files, keys[i], n);
    OfCategoryMembers(classify, files, keys[j], n);
  }

  /** Every recorded name is grouped under its own class. */
  lemma GroupedContainsEveryFile(keys: seq<string>, classify: string -> string, files: seq<string>, n: string)
    requires Covers(keys, classify, files) && n in files
    ensures exists i :: 0 <= i < |keys| && Grouped(keys, classify, files)[i].category == classify(n) &&
                        n in Grouped(keys, classify, files)[i].names
  {
    var i :| 0 <= i < |keys| && keys[i] == classify(n);
    OfCategoryMembers(classify, files, keys[i], n);
    assert Grouped(keys, classify, files)[i] == Group(keys[i], OfCategory(classify, files, keys[i]));
  }

  // ---------------------------------------------------------------------------
  // Totals

  /** Appending a name adds one for every group keyed by its class. */
  lemma {:induction false} AppendTotal(r: Report, c: string, n: string)
    ensures TotalCount(AppendName(r, c, n)) == TotalCount(r) + KeyCount(r, c)
  {
    if r != [] {
      var front := r[..|r| - 1];
      AppendTotal(front, c, n);
      assert AppendName(r, c, n)[..|r| - 1] == AppendName(front, c, n);
    }
  }

  /** A key that occurs once among distinct keys is counted once. */
  lemma {:induction false} KeyCountOfDistinct(r: Report, k: nat)
    requires DistinctKeys(r) && k < |r|
    ensures KeyCount(r, r[k].category) == 1
  {
    var front := r[..|r| - 1];
    if k == |r| - 1 {
      KeyCountAbsent(front, r[k].category);
    } else {
      KeyCountOfDistinct(front, k);
    }
  }

  lemma {:induction false} KeyCountAbsent(r: Report, c: string)
    requires forall i :: 0 <= i < |r| ==> r[i].category != c
    ensures KeyCount(r, c) == 0
  {
    if r != [] {
      KeyCountAbsent(r[..|r| - 1], c);
    }
  }

  /** With distinct keys covering every class, the report accounts for every
      recorded name exactly once. */
  lemma {:induction false} TotalOfGrouped(keys: seq<string>, classify: string -> string, files: seq<string>)
    requires Distinct(keys) && Covers(keys, classify, files)
    ensures TotalCount(Grouped(keys, classify, files)) == |files|
  {
    if files == [] {
      TotalOfNoNames(Grouped(keys, classify, files));
    } else {
      var front := files[..|files| - 1];
      var n := files[|files| - 1];
      var r := Grouped(keys, classify, front);
      TotalOfGrouped(keys, classify, front);
      GroupedAppend(keys, classify, front, n);
      assert front + [n] == files;
      AppendTotal(r, classify(n), n);
      var k :| 0 <= k < |keys| && keys[k] == classify(n);
      assert DistinctKeys(r) by {
        assert forall i :: 0 <= i < |keys| ==> r[i].category == keys[i];
      }
      KeyCountOfDistinct(r, k);
    }
  }

  /** A report whose groups are all empty has total 0. */
  lemma {:induction false} TotalOfNoNames(r: Report)
    requires forall i :: 0 <= i < |r| ==> r[i].names == []
    ensures TotalCount(r) == 0
  {
    if r != [] {
      TotalOfNoNames(r[..|r| - 1]);
    }
  }
}
