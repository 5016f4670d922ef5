/** Version discovery, `get_versions` (paloversion-gui.py:121-142): the version
    tokens in column 1 of the CSV manifests on the removable media, without
    duplicates, in descending code-point order. */
module Versions {
  import opened Text
  import opened Files
  import opened Patterns

  /** A manifest as `list(csv.reader(f))` sees it: its rows of fields. */
  type Rows = seq<seq<string>>

  predicate NoDuplicates(s: seq<string>) {
    forall i, j | 0 <= i < j < |s| :: s[i] != s[j]
  }

  /** Strictly descending in Python's `str` order. */
  predicate StrictlyDescending(s: seq<string>) {
    forall i, j | 0 <= i < j < |s| :: LexLess(s[j], s[i])
  }

  /** Column 1 of the rows the loop reaches: `row[1]` raises on the first row with
      fewer than two fields, which ends the scan of that file. */
  function ColumnOne(rows: Rows): seq<string>
  {
    if rows == [] || |rows[0]| < 2 then [] else [rows[0][1]] + ColumnOne(rows[1..])
  }

  /** A file read for versions: a manifest name other than `content.csv`. */
  predicate IsScanned(name: string) {
    IsCsvName(name) && name != CONTENT_CSV
  }

  /** `v` is a token that file `f` contributes. */
  ghost predicate Contributes(f: Entry<Rows>, v: string) {
    IsScanned(f.name) && f.read.Ok? && v in ColumnOne(f.read.value) && IsVersionToken(v)
  }

  /** The inner loop over the rows of one file, appending new tokens to `found`. */
  function ScanRows(rows: Rows, found: seq<string>): seq<string>
  {
    if rows == [] || |rows[0]| < 2 then found
    else
      var v := rows[0][1];
      ScanRows(rows[1..], if v !in found && IsVersionToken(v) then found + [v] else found)
  }

  function ScanFile(f: Entry<Rows>, found: seq<string>): seq<string>
  {
    if !IsScanned(f.name) then found
    else match f.read
      case Failed(_) => found
      case Ok(rows) => ScanRows(rows, found)
  }

  /** The outer loop over the walk. */
  function ScanFiles(files: seq<Entry<Rows>>, found: seq<string>): seq<string>
  {
    if files == [] then found else ScanFiles(files[1..], ScanFile(files[0], found))
  }

  /** `matches` just before the sort, in order of discovery. */
  function Collect(files: seq<Entry<Rows>>): seq<string> {
    ScanFiles(files, [])
  }

  /** The scan of one file keeps what was found before, adds no duplicate, and adds
      exactly the tokens of the rows reached. */
  lemma {:induction false} ScanRowsSpec(rows: Rows, found: seq<string>)
    ensures IsPrefix(found, ScanRows(rows, found))
    ensures NoDuplicates(found) ==> NoDuplicates(ScanRows(rows, found))
    ensures forall v :: v in ScanRows(rows, found) <==>
                        v in found || (v in ColumnOne(rows) && IsVersionToken(v))
    decreases |rows|
  {
    if rows != [] && |rows[0]| >= 2 {
      var v := rows[0][1];
      var next := if v !in found && IsVersionToken(v) then found + [v] else found;
      ScanRowsSpec(rows[1..], next);
      assert ColumnOne(rows) == [v] + ColumnOne(rows[1..]);
      assert IsPrefix(found, next);
      assert next[..|found|] == found;
      assert ScanRows(rows, found)[..|found|] == ScanRows(rows, found)[..|next|][..|found|];
    }
  }

  lemma ScanFileSpec(f: Entry<Rows>, found: seq<string>)
    ensures IsPrefix(found, ScanFile(f, found))
    ensures NoDuplicates(found) ==> NoDuplicates(ScanFile(f, found))
    ensures forall v :: v in ScanFile(f, found) <==> v in found || Contributes(f, v)
  {
    if IsScanned(f.name) && f.read.Ok? {
      ScanRowsSpec(f.read.value, found);
    }
  }

  lemma {:induction false} ScanFilesSpec(files: seq<Entry<Rows>>, found: seq<string>)
    ensures NoDuplicates(found) ==> NoDuplicates(ScanFiles(files, found))
    ensures forall v :: v in ScanFiles(files, found) <==>
                        v in found || exists f | f in files :: Contributes(f, v)
    decreases |files|
  {
    if files != [] {
      ScanFileSpec(files[0], found);
      ScanFilesSpec(files[1..], ScanFile(files[0], found));
      assert files == [files[0]] + files[1..];
    }
  }

  /** `matches` is the deduplicated union of the tokens every manifest contributes. */
  lemma CollectSpec(files: seq<Entry<Rows>>)
    ensures NoDuplicates(Collect(files))
    ensures forall v :: v in Collect(files) <==> exists f | f in files :: Contributes(f, v)
    ensures forall v | v in Collect(files) :: IsVersionToken(v)
  {
    ScanFilesSpec(files, []);
  }

  lemma {:induction false} ScanFilesAppend(a: seq<Entry<Rows>>, b: seq<Entry<Rows>>, found: seq<string>)
    ensures ScanFiles(a + b, found) == ScanFiles(b, ScanFiles(a, found))
    decreases |a|
  {
    if a != [] {
      assert (a + b)[1..] == a[1..] + b;
      ScanFilesAppend(a[1..], b, ScanFile(a[0], found));
    } else {
      assert a + b == b;
    }
  }

  /** A file named exactly `content.csv` contributes nothing, whatever it holds. */
  lemma ContentCsvIgnored(a: seq<Entry<Rows>>, read: Read<Rows>, b: seq<Entry<Rows>>)
    ensures Collect(a + [Entry(CONTENT_CSV, read)] + b) == Collect(a + b)
  {
    ScanFilesAppend(a + [Entry(CONTENT_CSV, read)], b, []);
    ScanFilesAppend(a, [Entry(CONTENT_CSV, read)], []);
    ScanFilesAppend(a, b, []);
  }

  /** A short row ends its file: the rows after it are never read, and what was
      found before it is kept. */
  lemma {:induction false} ShortRowStopsFile(before: Rows, row: seq<string>, after: Rows, found: seq<string>)
    requires |row| < 2
    requires forall r | r in before :: |r| >= 2
    ensures ScanRows(before + [row] + after, found) == ScanRows(before, found)
    decreases |before|
  {
    if before == [] {
      assert (before + [row] + after)[0] == row;
    } else {
      var v := before[0][1];
      var next := if v !in found && IsVersionToken(v) then found + [v] else found;
      assert (before + [row] + after)[1..] == before[1..] + [row] + after;
      ShortRowStopsFile(before[1..], row, after, next);
    }
  }

  /** Inserts `x` at its place in a strictly descending list. */
  function InsertDescending(s: seq<string>, x: string): (r: seq<string>)
    requires StrictlyDescending(s) && x !in s
    ensures StrictlyDescending(r)
    ensures |r| == |s| + 1
    ensures forall y :: y in r <==> y in s || y == x
    decreases |s|
  {
    if s == [] then [x]
    else if LexLess(s[0], x) then
      assert forall j | 0 < j < |s| :: LexLess(s[j], x) by {
        forall j | 0 < j < |s| ensures LexLess(s[j], x) {
          LexLessTransitive(s[j], s[0], x);
        }
      }
      [x] + s
    else
      assert LexLess(x, s[0]) by { LexLessTotal(x, s[0]); }
      var rest := InsertDescending(s[1..], x);
      assert forall y | y in rest :: LexLess(y, s[0]);
      [s[0]] + rest
  }

  /** `list.sort(reverse=True)` on a duplicate-free list. */
  function SortDescending(s: seq<string>): (r: seq<string>)
    requires NoDuplicates(s)
    ensures StrictlyDescending(r)
    ensures |r| == |s|
    ensures forall y :: y in r <==> y in s
    decreases |s|
  {
    if s == [] then []
    else
      var front := s[..|s| - 1];
      assert forall y | y in front :: y in s;
      InsertDescending(SortDescending(front), s[|s| - 1])
  }

  lemma HeadIsGreatest(s: seq<string>, y: string)
    requires StrictlyDescending(s) && y in s
    ensures y == s[0] || LexLess(y, s[0])
  {
  }

  lemma NonEmptyHasHead(s: seq<string>)
    ensures s != [] ==> s[0] in s
  {
  }

  /** A strictly descending list is fixed by its elements: whatever sorting
      algorithm is used, the result is this one. */
  lemma {:induction false} DescendingUnique(a: seq<string>, b: seq<string>)
    requires StrictlyDescending(a) && StrictlyDescending(b)
    requires forall y :: y in a <==> y in b
    ensures a == b
    decreases |a|
  {
    if a != [] {
      assert a[0] in b;
      HeadIsGreatest(b, a[0]);
      HeadIsGreatest(a, b[0]);
      if a[0] != b[0] {
        LexLessAsymmetric(a[0], b[0]);
      }
      forall y ensures y in a[1..] <==> y in b[1..] {
        if y in a[1..] {
          var k :| 1 <= k < |a| && a[k] == y;
          assert LexLess(y, a[0]);
          LexLessIrreflexive(y);
          assert y in b;
        }
        if y in b[1..] {
          var k :| 1 <= k < |b| && b[k] == y;
          assert LexLess(y, b[0]);
          LexLessIrreflexive(y);
          assert y in a;
        }
      }
      DescendingUnique(a[1..], b[1..]);
      assert a == [a[0]] + a[1..] && b == [b[0]] + b[1..];
    } else {
      NonEmptyHasHead(b);
    }
  }

  /** What `get_versions` returns, as a function of the walk. */
  function Versions(files: seq<Entry<Rows>>): seq<string>
  {
    CollectSpec(files);
    SortDescending(Collect(files))
  }

  /** The shape of the version list: no duplicates, every element a version
      token, strictly descending in code-point order, and made of exactly the
      tokens the manifests contribute. */
  lemma VersionsSpec(files: seq<Entry<Rows>>)
    ensures StrictlyDescending(Versions(files))
    ensures NoDuplicates(Versions(files))
    ensures forall v | v in Versions(files) :: IsVersionToken(v)
    ensures forall v :: v in Versions(files) <==> exists f | f in files :: Contributes(f, v)
  {
    CollectSpec(files);
    var r := Versions(files);
    forall i, j | 0 <= i < j < |r| ensures r[i] != r[j] {
      LexLessIrreflexive(r[i]);
    }
  }

  /** `get_versions`: walks the media, reads column 1 of every manifest other than
      `content.csv` until a short row, keeps the new tokens, and sorts them in
      reverse.  Copying the manifests to the working directory has no effect on
      the result and is not modelled. */
  method GetVersions(files: seq<Entry<Rows>>) returns (matches: seq<string>)
    ensures matches == Versions(files)
  {
    matches := [];
    var i := 0;
    while i < |files|
      invariant 0 <= i <= |files|
      invariant ScanFiles(files[i..], matches) == Collect(files)
    {
      var file := files[i];
      assert files[i..][1..] == files[i + 1..];
      if IsCsvName(file.name) && file.name != CONTENT_CSV {
        match file.read
        case Failed(_) =>
        case Ok(rows) =>
          ghost var start := matches;
          var j := 0;
          while j < |rows|
            invariant 0 <= j <= |rows|
            invariant ScanRows(rows[j..], matches) == ScanRows(rows, start)
          {
            var row := rows[j];
            assert rows[j..][1..] == rows[j + 1..];
            if |row| < 2 {
              break;
            }
            if row[1] !in matches && IsVersionToken(row[1]) {
              matches := matches + [row[1]];
            }
            j := j + 1;
          }
      }
      i := i + 1;
    }
    CollectSpec(files);
    matches := SortDescending(matches);
  }

  lemma ScenarioTokens()
    ensures IsVersionToken("10.1.3") && IsVersionToken("9.0.1") && IsScanned("versions.csv")
  {
    assert CsvNameBody("versions.csv");
    assert VersionBody("10.1.3");
    assert VersionBody("9.0.1");
  }

  /** The manifest's repeated token is kept once, in order of discovery. */
  lemma ScenarioCollect(rows: Rows)
    requires rows == [["fw", "10.1.3"], ["fw", "10.1.3"], ["fw", "9.0.1"]]
    ensures Collect([Entry("versions.csv", Ok(rows))]) == ["10.1.3", "9.0.1"]
  {
    ScenarioTokens();
    assert ScanRows(rows[2..], ["10.1.3"]) == ScanRows([], ["10.1.3", "9.0.1"]) by {
      assert rows[2..][1..] == [];
    }
    assert ScanRows(rows[1..], ["10.1.3"]) == ScanRows(rows[2..], ["10.1.3"]) by {
      assert rows[1..][1..] == rows[2..];
    }
    assert ScanRows(rows, []) == ScanRows(rows[1..], ["10.1.3"]) by {
      assert [] + [rows[0][1]] == ["10.1.3"];
    }
    var files := [Entry("versions.csv", Ok(rows))];
    assert ScanFile(files[0], []) == ScanRows(rows, []);
    assert files[1..] == [];
    assert Collect(files) == ScanFiles(files[1..], ScanFile(files[0], []));
  }

  /** Code-point order, not version order: "9.0.1" sorts before "10.1.3". */
  lemma VersionsScenario()
    ensures Versions([Entry("versions.csv", Ok([["fw", "10.1.3"], ["fw", "10.1.3"], ["fw", "9.0.1"]]))])
            == ["9.0.1", "10.1.3"]
  {
    var files := [Entry("versions.csv", Ok([["fw", "10.1.3"], ["fw", "10.1.3"], ["fw", "9.0.1"]]))];
    ScenarioCollect([["fw", "10.1.3"], ["fw", "10.1.3"], ["fw", "9.0.1"]]);
    CollectSpec(files);
    assert LexLess("10.1.3", "9.0.1");
    DescendingUnique(Versions(files), ["9.0.1", "10.1.3"]);
  }
}
