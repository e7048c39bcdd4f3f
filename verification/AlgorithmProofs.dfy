/** Properties of the diff engine: one-sided subtrees, self-comparison, the
    emission order as a two-phase matching, and the reference selection. */
module AlgorithmProofs {
  import opened Wrappers
  import opened Text
  import opened Data
  import opened Matching
  import opened Algorithm

  predicate AllStatus(items: seq<ResultItem>, status: ResultItemStatus) {
    forall k :: 0 <= k < |items| ==> items[k].status == status
  }

  lemma AllStatusAppend(a: seq<ResultItem>, b: seq<ResultItem>, status: ResultItemStatus)
    requires AllStatus(a, status) && AllStatus(b, status)
    ensures AllStatus(a + b, status)
  {
  }

  // ------------------------------------------------- one side absent

  /** With no installed side, every row is `Missing`, one per folder and file
      of the reference tree. */
  lemma {:induction false} MissingTree(reference: Folder)
    ensures AllStatus(CompareFolder(None, Some(reference)), Missing)
    ensures |CompareFolder(None, Some(reference))| == Nodes(reference)
    decreases Nodes(reference), 0
  {
    MissingForest(reference.folders);
    MissingFiles(reference.files);
  }

  lemma {:induction false} MissingForest(refs: seq<Folder>)
    ensures AllStatus(FolderPass([], refs), Missing)
    ensures |FolderPass([], refs)| == ForestNodes(refs)
    decreases ForestNodes(refs), 1
  {
    if refs != [] {
      MissingTree(refs[0]);
      MissingForest(refs[1..]);
    }
  }

  lemma {:induction false} MissingFiles(refs: seq<File>)
    ensures AllStatus(FilePass([], refs), Missing)
    ensures |FilePass([], refs)| == |refs|
    decreases |refs|
  {
    if refs != [] {
      MissingFiles(refs[1..]);
    }
  }

  /** With no reference side, every row is `Added`, one per folder and file of
      the installed tree. */
  lemma {:induction false} AddedTree(installed: Folder)
    ensures AllStatus(CompareFolder(Some(installed), None), Added)
    ensures |CompareFolder(Some(installed), None)| == Nodes(installed)
    decreases Nodes(installed), 0
  {
    AddedForest(installed.folders);
  }

  lemma {:induction false} AddedForest(pool: seq<Folder>)
    ensures AllStatus(AddedFolders(pool), Added)
    ensures |AddedFolders(pool)| == ForestNodes(pool)
    decreases ForestNodes(pool), 1
  {
    if pool != [] {
      AddedTree(pool[0]);
      AddedForest(pool[1..]);
    }
  }

  // ------------------------------------------------- self-comparison

  /** A file never mismatches itself. */
  lemma NoSelfMismatch(file: File)
    ensures !AnyMismatch(file, file)
  {
    forall field: Field
      ensures !Mismatch(field, file, file)
    {
      EqualsIgnoreCaseIsEquivalence(file.checksum, file.checksum, file.checksum);
      if file.originalName.Some? {
        EqualsIgnoreCaseIsEquivalence(file.originalName.value, file.originalName.value, file.originalName.value);
      }
      if file.signature.Some? {
        EqualsIgnoreCaseIsEquivalence(file.signature.value, file.signature.value, file.signature.value);
      }
      if file.version.Some? {
        EqualsIgnoreCaseIsEquivalence(file.version.value, file.version.value, file.version.value);
      }
    }
  }

  /** Each child is its own first match, so comparing a list with itself pairs
      every element with itself and leaves nothing over. */
  lemma TakeSelf<T>(s: seq<T>, key: T -> string)
    requires s != []
    ensures Take(s, key, key(s[0])) == (Some(s[0]), s[1..])
  {
    EqualsIgnoreCaseIsEquivalence(key(s[0]), key(s[0]), key(s[0]));
    assert FirstMatch(s, key, key(s[0])) == Some(0);
    assert s[..0] + s[1..] == s[1..];
  }

  predicate AllQuiet(items: seq<ResultItem>) {
    forall k :: 0 <= k < |items| ==> items[k].status == OK && items[k].remarks == ""
  }

  lemma AllQuietAppend(a: seq<ResultItem>, b: seq<ResultItem>)
    requires AllQuiet(a) && AllQuiet(b)
    ensures AllQuiet(a + b)
  {
  }

  /** Comparing a tree with itself reports every folder and file as `OK` with
      no remarks, one row each. */
  lemma {:induction false} SelfTree(tree: Folder)
    ensures AllQuiet(CompareFolder(Some(tree), Some(tree)))
    ensures |CompareFolder(Some(tree), Some(tree))| == Nodes(tree)
    decreases Nodes(tree), 0
  {
    var t := Some(tree);
    SelfForest(tree.folders);
    SelfFiles(tree.files);
    var head := [SelfItem(t, t)];
    var folders := FolderPass(tree.folders, tree.folders);
    var files := FilePass(tree.files, tree.files);
    assert CompareFolder(t, t) == head + folders + files;
    assert AllQuiet(head);
    AllQuietAppend(head, folders);
    AllQuietAppend(head + folders, files);
  }

  lemma {:induction false} SelfForest(trees: seq<Folder>)
    ensures AllQuiet(FolderPass(trees, trees))
    ensures |FolderPass(trees, trees)| == ForestNodes(trees)
    decreases ForestNodes(trees), 1
  {
    if trees != [] {
      TakeSelf(trees, FolderPath);
      SelfTree(trees[0]);
      SelfForest(trees[1..]);
      var head := CompareFolder(Some(trees[0]), Some(trees[0]));
      var tail := FolderPass(trees[1..], trees[1..]);
      assert FolderPass(trees, trees) == head + tail;
      AllQuietAppend(head, tail);
    }
  }

  lemma {:induction false} SelfFiles(files: seq<File>)
    ensures AllQuiet(FilePass(files, files))
    ensures |FilePass(files, files)| == |files|
    decreases |files|
  {
    if files != [] {
      TakeSelf(files, FilePath);
      NoSelfMismatch(files[0]);
      var row := CompareFile(Some(files[0]), Some(files[0]));
      var rest := FilePass(files[1..], files[1..]);
      assert row.status == OK && row.remarks == "";
      assert FilePass(files, files) == [row] + rest;
      SelfFiles(files[1..]);
      AllQuietAppend([row], rest);
    }
  }

  // ------------------------------------------------- file comparison

  /** A remark text tells which status produced it: two rows of the same kind
      with equal remarks have equal statuses. */
  lemma RemarksIdentifyStatus(itemType: ResultItemType, s1: ResultItemStatus, d1: string, s2: ResultItemStatus, d2: string)
    ensures BuildRemarks(itemType, s1, d1) == BuildRemarks(itemType, s2, d2) ==> s1 == s2
  {
    var r1, r2 := BuildRemarks(itemType, s1, d1), BuildRemarks(itemType, s2, d2);
    // "This file " and "This folder " are 10 and 12 characters long
    var at := if itemType == FileItem then 10 else 12;
    if s1 != OK && s2 != OK && s1 != s2 {
      if s1 == Missing || s2 == Missing {
        assert r1[at] != r2[at];
      } else {
        assert r1[at + 9] != r2[at + 9];
      }
    }
  }

  /** Equal pieces field by field give equal clause lists. */
  lemma {:induction false} ClausesAgree(fields: seq<Field>, i1: File, i2: File, reference: File)
    requires forall k :: 0 <= k < |fields| ==> Piece(fields[k], i1, reference) == Piece(fields[k], i2, reference)
    ensures Clauses(fields, i1, reference) == Clauses(fields, i2, reference)
    decreases |fields|
  {
    if fields != [] {
      assert Piece(fields[0], i1, reference) == Piece(fields[0], i2, reference);
      ClausesAgree(fields[1..], i1, i2, reference) by {
        assert forall k :: 0 <= k < |fields[1..]| ==> fields[1..][k] == fields[k + 1];
      }
    }
  }

  /** An absent reference name, signature or version is "don't care": whatever
      the installed file holds in that field, the row is the same. */
  lemma AbsentReferenceFieldIsIgnored(installed: File, reference: File, other: Option<string>)
    ensures reference.originalName.None? ==>
              CompareFile(Some(installed), Some(reference))
              == CompareFile(Some(installed.(originalName := other)), Some(reference))
    ensures reference.signature.None? ==>
              CompareFile(Some(installed), Some(reference))
              == CompareFile(Some(installed.(signature := other)), Some(reference))
    ensures reference.version.None? ==>
              CompareFile(Some(installed), Some(reference))
              == CompareFile(Some(installed.(version := other)), Some(reference))
  {
    if reference.originalName.None? {
      SameFieldsSameRow(installed, installed.(originalName := other), reference);
    }
    if reference.signature.None? {
      SameFieldsSameRow(installed, installed.(signature := other), reference);
    }
    if reference.version.None? {
      SameFieldsSameRow(installed, installed.(version := other), reference);
    }
  }

  /** Two installed files that differ at most in optional fields the reference
      leaves absent give the same row. */
  lemma SameFieldsSameRow(i1: File, i2: File, reference: File)
    requires i1.path == i2.path && i1.checksum == i2.checksum && i1.size == i2.size
    requires i1.originalName == i2.originalName || reference.originalName.None?
    requires i1.signature == i2.signature || reference.signature.None?
    requires i1.version == i2.version || reference.version.None?
    ensures CompareFile(Some(i1), Some(reference)) == CompareFile(Some(i2), Some(reference))
  {
    forall k | 0 <= k < |FieldOrder|
      ensures Piece(FieldOrder[k], i1, reference) == Piece(FieldOrder[k], i2, reference)
    {
      SameFieldSamePiece(FieldOrder[k], i1, i2, reference);
    }
    ClausesAgree(FieldOrder, i1, i2, reference);
    assert AnyMismatch(i1, reference) == AnyMismatch(i2, reference);
  }

  lemma SameFieldSamePiece(field: Field, i1: File, i2: File, reference: File)
    requires i1.checksum == i2.checksum && i1.size == i2.size
    requires i1.originalName == i2.originalName || reference.originalName.None?
    requires i1.signature == i2.signature || reference.signature.None?
    requires i1.version == i2.version || reference.version.None?
    ensures Mismatch(field, i1, reference) == Mismatch(field, i2, reference)
    ensures Piece(field, i1, reference) == Piece(field, i2, reference)
  {
  }

  /** A reference value the installed file lacks or contradicts (ignoring case)
      marks the file `Changed`; so does any size difference. */
  lemma FallingShortIsChanged(installed: File, reference: File)
    ensures reference.originalName.Some? && installed.originalName.None? ==>
              CompareFile(Some(installed), Some(reference)).status == Changed
    ensures reference.signature.Some? && installed.signature.Some?
            && !EqualsIgnoreCase(reference.signature.value, installed.signature.value) ==>
              CompareFile(Some(installed), Some(reference)).status == Changed
    ensures installed.size != reference.size ==> CompareFile(Some(installed), Some(reference)).status == Changed
  {
  }

  /** A file that differs only in its checksum gets one `Changed` row whose
      remarks carry the checksum clause alone. */
  lemma ChecksumOnlyChange(installed: File, reference: File)
    requires installed == reference.(checksum := installed.checksum)
    requires !EqualsIgnoreCase(reference.checksum, installed.checksum)
    ensures CompareFile(Some(installed), Some(reference)).status == Changed
    ensures CompareFile(Some(installed), Some(reference)).remarks
            == "This file has been changed! " + Clause(ChecksumField, installed, reference)
  {
    OnlyChecksumClause(installed, reference);
    var row := CompareFile(Some(installed), Some(reference));
    assert Mismatch(ChecksumField, installed, reference);
    assert row.status == Changed;
  }

  /** When only the checksum differs, the details are exactly the checksum clause. */
  lemma OnlyChecksumClause(installed: File, reference: File)
    requires installed == reference.(checksum := installed.checksum)
    requires !EqualsIgnoreCase(reference.checksum, installed.checksum)
    ensures Clauses(FieldOrder, installed, reference) == Clause(ChecksumField, installed, reference)
  {
    NoSelfMismatch(reference);
    assert !Mismatch(OriginalNameField, reference, reference);
    assert !Mismatch(SignatureField, reference, reference);
    assert !Mismatch(VersionField, reference, reference);
    ClausesAsFiveFields(installed, reference);
  }

  lemma ClausesAsFiveFields(installed: File, reference: File)
    ensures Clauses(FieldOrder, installed, reference)
            == Piece(ChecksumField, installed, reference) + (Piece(OriginalNameField, installed, reference)
               + (Piece(SignatureField, installed, reference) + (Piece(SizeField, installed, reference)
               + Piece(VersionField, installed, reference))))
  {
    ClausesOfFive(FieldOrder, installed, reference);
  }

  /** The clauses of a five-field list, written out. */
  lemma ClausesOfFive(fields: seq<Field>, installed: File, reference: File)
    requires |fields| == 5
    ensures Clauses(fields, installed, reference)
            == Piece(fields[0], installed, reference) + (Piece(fields[1], installed, reference)
               + (Piece(fields[2], installed, reference) + (Piece(fields[3], installed, reference)
               + Piece(fields[4], installed, reference))))
  {
    var i, r := installed, reference;
    var p4 := Piece(fields[4], i, r);
    assert fields[4..][1..] == [];
    assert Clauses(fields[4..], i, r) == p4 + "";
    assert p4 + "" == p4;
    assert fields[3..][1..] == fields[4..];
    assert Clauses(fields[3..], i, r) == Piece(fields[3], i, r) + Clauses(fields[4..], i, r);
    assert fields[2..][1..] == fields[3..];
    assert Clauses(fields[2..], i, r) == Piece(fields[2], i, r) + Clauses(fields[3..], i, r);
    assert fields[1..][1..] == fields[2..];
    assert Clauses(fields[1..], i, r) == Piece(fields[1], i, r) + Clauses(fields[2..], i, r);
  }

  // ------------------------------------------------- emission order

  /** The reference-driven sub-folder comparisons, in reference order. */
  function PairedFolders(partners: seq<Option<Folder>>, refs: seq<Folder>): seq<ResultItem>
    requires |partners| == |refs|
  {
    if refs == [] then [] else CompareFolder(partners[0], Some(refs[0])) + PairedFolders(partners[1..], refs[1..])
  }

  /** The reference-driven file comparisons, one row per reference file. */
  function PairedFiles(partners: seq<Option<File>>, refs: seq<File>): (r: seq<ResultItem>)
    requires |partners| == |refs|
    ensures |r| == |refs|
    ensures forall k :: 0 <= k < |refs| ==> r[k] == CompareFile(partners[k], Some(refs[k]))
  {
    if refs == [] then [] else [CompareFile(partners[0], Some(refs[0]))] + PairedFiles(partners[1..], refs[1..])
  }

  lemma Regroup<T>(head: seq<T>, rest: seq<T>, added: seq<T>, whole: seq<T>, paired: seq<T>)
    requires whole == head + (rest + added) && paired == head + rest
    ensures whole == paired + added
  {
  }

  /** The interleaved sub-folder loop (match, recurse, remove, next) emits the
      same rows as first pairing every reference sub-folder with its installed
      partner, then comparing the pairs in reference order, then the leftovers. */
  lemma {:induction false} FolderPassInTwoPhases(pool: seq<Folder>, refs: seq<Folder>)
    ensures var p := Pair(pool, refs, FolderPath);
            FolderPass(pool, refs) == PairedFolders(p.partners, refs) + AddedFolders(p.leftover)
    decreases |refs|
  {
    if refs != [] {
      var taken := Take(pool, FolderPath, refs[0].path);
      var tail := Pair(taken.1, refs[1..], FolderPath);
      var p := Pair(pool, refs, FolderPath);
      FolderPassInTwoPhases(taken.1, refs[1..]);
      PairUnfold(pool, refs, FolderPath);
      var head := CompareFolder(taken.0, Some(refs[0]));
      var rest := PairedFolders(tail.partners, refs[1..]);
      assert FolderPass(pool, refs) == head + FolderPass(taken.1, refs[1..]);
      assert PairedFolders(p.partners, refs) == head + rest;
      Regroup(head, rest, AddedFolders(p.leftover), FolderPass(pool, refs), PairedFolders(p.partners, refs));
    }
  }

  /** The same for files. */
  lemma {:induction false} FilePassInTwoPhases(pool: seq<File>, refs: seq<File>)
    ensures var p := Pair(pool, refs, FilePath);
            FilePass(pool, refs) == PairedFiles(p.partners, refs) + AddedFiles(p.leftover)
    decreases |refs|
  {
    if refs != [] {
      var taken := Take(pool, FilePath, refs[0].path);
      var tail := Pair(taken.1, refs[1..], FilePath);
      var p := Pair(pool, refs, FilePath);
      FilePassInTwoPhases(taken.1, refs[1..]);
      PairUnfold(pool, refs, FilePath);
      var head := [CompareFile(taken.0, Some(refs[0]))];
      var rest := PairedFiles(tail.partners, refs[1..]);
      assert FilePass(pool, refs) == head + FilePass(taken.1, refs[1..]);
      assert PairedFiles(p.partners, refs) == head + rest;
      Regroup(head, rest, AddedFiles(p.leftover), FilePass(pool, refs), PairedFiles(p.partners, refs));
    }
  }

  /** Every installed file is used at most once: there is exactly one row per
      reference file and one per installed file no reference file claimed. */
  lemma FileRowCount(pool: seq<File>, refs: seq<File>)
    ensures var p := Pair(pool, refs, FilePath);
            |FilePass(pool, refs)| == |refs| + |p.leftover|
            && |p.leftover| == |pool| - |Present(p.partners)|
  {
    var p := Pair(pool, refs, FilePath);
    FilePassInTwoPhases(pool, refs);
    assert |multiset(Present(p.partners))| + |multiset(p.leftover)| == |multiset(pool)|;
  }

  lemma SeqAssoc<T>(s: seq<T>, a: seq<T>, b: seq<T>, c: seq<T>, d: seq<T>)
    ensures s + (a + b) + (c + d) == s + a + b + c + d
  {
  }

  /** `Compare(Folder, Folder)` emits, in this order: the folder itself; every
      reference sub-folder's whole subtree, compared with its installed partner,
      in reference order; the subtrees of the installed-only sub-folders; one
      row per reference file; one row per installed-only file. */
  lemma EmissionOrder(installed: Option<Folder>, reference: Option<Folder>)
    requires installed.Some? || reference.Some?
    ensures var folders := Pair(ChildFolders(installed), ChildFolders(reference), FolderPath);
            var files := Pair(ChildFiles(installed), ChildFiles(reference), FilePath);
            CompareFolder(installed, reference) ==
              [SelfItem(installed, reference)]
              + PairedFolders(folders.partners, ChildFolders(reference))
              + AddedFolders(folders.leftover)
              + PairedFiles(files.partners, ChildFiles(reference))
              + AddedFiles(files.leftover)
  {
    var folders := Pair(ChildFolders(installed), ChildFolders(reference), FolderPath);
    var files := Pair(ChildFiles(installed), ChildFiles(reference), FilePath);
    FolderPassInTwoPhases(ChildFolders(installed), ChildFolders(reference));
    FilePassInTwoPhases(ChildFiles(installed), ChildFiles(reference));
    var self := [SelfItem(installed, reference)];
    var a := PairedFolders(folders.partners, ChildFolders(reference));
    var b := AddedFolders(folders.leftover);
    var c := PairedFiles(files.partners, ChildFiles(reference));
    var d := AddedFiles(files.leftover);
    var x := FolderPass(ChildFolders(installed), ChildFolders(reference));
    var y := FilePass(ChildFiles(installed), ChildFiles(reference));
    assert CompareFolder(installed, reference) == self + x + y;
    assert x == a + b;
    assert y == c + d;
    SeqAssoc(self, a, b, c, d);
  }

  // ------------------------------------------------- reference selection

  /** The reference is chosen by version alone: references that differ only in
      platform or provenance text lead to the same outcome. */
  lemma {:induction false} SelectionIgnoresPlatform(installedVersion: string, a: seq<Installation>, b: seq<Installation>)
    requires |a| == |b|
    requires forall k :: 0 <= k < |a| ==> a[k].version == b[k].version && a[k].root == b[k].root
    ensures FirstReference(installedVersion, a) == FirstReference(installedVersion, b)
    decreases |a|
  {
    if a != [] {
      SelectionIgnoresPlatform(installedVersion, a[1..], b[1..]);
    }
  }

  lemma VerifyIgnoresPlatform(installedVersion: Option<string>, root: Folder, a: seq<Installation>, b: seq<Installation>)
    requires |a| == |b|
    requires forall k :: 0 <= k < |a| ==> a[k].version == b[k].version && a[k].root == b[k].root
    ensures Verify(installedVersion, root, a) == Verify(installedVersion, root, b)
  {
    if installedVersion.Some? {
      SelectionIgnoresPlatform(installedVersion.value, a, b);
    }
  }

  /** Two references of the same version for different platforms: the first one
      listed is used, whatever platform the installation has. */
  lemma FirstOfSameVersionWins(root: Folder, tree32: Option<Folder>, tree64: Option<Folder>)
    ensures var x86 := Installation("", X86, tree32, Some("1.2.3"));
            var x64 := Installation("", X64, tree64, Some("1.2.3"));
            Verify(Some("1.2.3"), root, [x86, x64]) == Success(CompareFolder(Some(root), tree32)[1..])
  {
    EqualsIgnoreCaseIsEquivalence("1.2.3", "1.2.3", "1.2.3");
  }

  /** The root row is dropped and everything after it is kept. */
  lemma VerifyDropsOnlyTheRoot(installedVersion: string, root: Folder, references: seq<Installation>, k: nat)
    requires k < |references| && VersionMatches(installedVersion, references[k])
    requires forall j :: 0 <= j < k ==> !VersionMatches(installedVersion, references[j])
    ensures Verify(Some(installedVersion), root, references).Success?
    ensures |Verify(Some(installedVersion), root, references).value|
            == |CompareFolder(Some(root), references[k].root)| - 1
  {
    assert FirstReference(installedVersion, references) == Some(k);
  }

  // ------------------------------------------------- tree building

  /** A childless installed root, as `AnalyzeDirectory` builds it, makes every
      row below the root of a reference tree `Missing`. */
  lemma ChildlessRootReportsEverythingMissing(path: string, reference: Folder)
    ensures var rows := CompareFolder(Some(Node(path, [], [])), Some(reference))[1..];
            AllStatus(rows, Missing) && |rows| == Nodes(reference) - 1
  {
    MissingForest(reference.folders);
    MissingFiles(reference.files);
  }
}
