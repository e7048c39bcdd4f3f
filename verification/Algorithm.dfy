/** The snapshot diff engine: field-by-field comparison of two files, the
    recursive comparison of two optional folder trees into an ordered report,
    the remark texts, and the reference selection that precedes a comparison. */
module Algorithm {
  import opened Wrappers
  import opened Text
  import opened Data
  import opened Matching
  import Containers

  function FilePath(f: File): string { f.path }

  function FolderPath(f: Folder): string { f.path }

  /** The status both comparisons start from: `Missing` without an installed
      side, `Added` without a reference side, `OK` otherwise. */
  function PresenceStatus(hasInstalled: bool, hasReference: bool): (s: ResultItemStatus)
    ensures s != Changed
    ensures s == Missing <==> !hasInstalled
    ensures s == Added <==> hasInstalled && !hasReference
  {
    if !hasInstalled then Missing else if !hasReference then Added else OK
  }

  /** `BuildRemarks`: the fixed explanation shown next to a result row. */
  function BuildRemarks(itemType: ResultItemType, status: ResultItemStatus, details: string): (r: string)
    ensures r == "" <==> status == OK
  {
    var item := if itemType == FileItem then "file" else "folder";
    match status
    case Added => "This " + item + " has been added!"
    case Changed => "This " + item + " has been changed! " + details
    case Missing => "This " + item + " is missing!"
    case OK => ""
  }

  // ---------------------------------------------------------------- files

  /** The remark texts of file rows, spelled out. */
  lemma FileRemarks(details: string)
    ensures BuildRemarks(FileItem, Added, details) == "This file has been added!"
    ensures BuildRemarks(FileItem, Missing, details) == "This file is missing!"
    ensures BuildRemarks(FileItem, Changed, details) == "This file has been changed! " + details
  {
    FileAddedRemark(details);
    FileMissingRemark(details);
    FileChangedRemark(details);
  }

  lemma FileAddedRemark(details: string)
    ensures BuildRemarks(FileItem, Added, details) == "This file has been added!"
  {
    assert "This " + "file" + " has been added!" == "This file has been added!";
  }

  lemma FileMissingRemark(details: string)
    ensures BuildRemarks(FileItem, Missing, details) == "This file is missing!"
  {
    assert "This " + "file" + " is missing!" == "This file is missing!";
  }

  lemma FileChangedRemark(details: string)
    ensures BuildRemarks(FileItem, Changed, details) == "This file has been changed! " + details
  {
    var prefix := "This " + "file" + " has been changed! ";
    assert prefix == "This file has been changed! ";
    assert BuildRemarks(FileItem, Changed, details) == prefix + details;
  }

  datatype Field = ChecksumField | OriginalNameField | SignatureField | SizeField | VersionField

  /** The order in which the fields are checked and their clauses appended. */
  const FieldOrder: seq<Field> := [ChecksumField, OriginalNameField, SignatureField, SizeField, VersionField]

  /** An optional reference value is a mismatch only when it is present and the
      installed value is absent or differs ignoring case; an absent reference
      value never is (`reference?.Equals(installed, ...) == false`). */
  predicate OptionalDiffers(installed: Option<string>, reference: Option<string>) {
    reference.Some? && !(installed.Some? && EqualsIgnoreCase(reference.value, installed.value))
  }

  predicate Mismatch(field: Field, installed: File, reference: File) {
    match field
    case ChecksumField => !EqualsIgnoreCase(reference.checksum, installed.checksum)
    case OriginalNameField => OptionalDiffers(installed.originalName, reference.originalName)
    case SignatureField => OptionalDiffers(installed.signature, reference.signature)
    case SizeField => reference.size != installed.size
    case VersionField => OptionalDiffers(installed.version, reference.version)
  }

  /** String interpolation renders `null` as the empty string. */
  function Show(value: Option<string>): string {
    value.GetOr("")
  }

  /** The remark clause for one mismatching field. */
  function Clause(field: Field, installed: File, reference: File): string {
    match field
    case ChecksumField => "Checksum '" + installed.checksum + "' is not '" + reference.checksum + "'! "
    case OriginalNameField =>
      "Original name '" + Show(installed.originalName) + "' is not '" + Show(reference.originalName) + "'! "
    case SignatureField => "Signature '" + Show(installed.signature) + "' is not '" + Show(reference.signature) + "'! "
    case SizeField => "Size '" + IntToString(installed.size) + "' is not '" + IntToString(reference.size) + "'! "
    case VersionField => "Version '" + Show(installed.version) + "' is not '" + Show(reference.version) + "'! "
  }

  /** The clause a field contributes: its text when it mismatches, nothing otherwise. */
  function Piece(field: Field, installed: File, reference: File): string {
    if Mismatch(field, installed, reference) then Clause(field, installed, reference) else ""
  }

  /** The clauses of the mismatching fields among `fields`, concatenated in order. */
  function Clauses(fields: seq<Field>, installed: File, reference: File): string {
    if fields == [] then "" else Piece(fields[0], installed, reference) + Clauses(fields[1..], installed, reference)
  }

  /** At least one of the five fields mismatches. */
  predicate AnyMismatch(installed: File, reference: File) {
    || Mismatch(ChecksumField, installed, reference)
    || Mismatch(OriginalNameField, installed, reference)
    || Mismatch(SignatureField, installed, reference)
    || Mismatch(SizeField, installed, reference)
    || Mismatch(VersionField, installed, reference)
  }

  /** The running state of one file comparison: details so far and the status. */
  datatype Tally = Tally(details: string, status: ResultItemStatus)

  /** One field check: a mismatch appends its clause and escalates to `Changed`. */
  function Check(tally: Tally, field: Field, installed: File, reference: File): Tally {
    if Mismatch(field, installed, reference) then Tally(tally.details + Clause(field, installed, reference), Changed)
    else tally
  }

  /** The field checks, one after the other in the order given. */
  function CheckFields(tally: Tally, fields: seq<Field>, installed: File, reference: File): Tally
    decreases |fields|
  {
    if fields == [] then tally else CheckFields(Check(tally, fields[0], installed, reference), fields[1..], installed, reference)
  }

  /** Running the checks appends exactly the clauses of the mismatching fields,
      in order. */
  lemma {:induction false} CheckFieldsAccumulates(tally: Tally, fields: seq<Field>, installed: File, reference: File)
    ensures CheckFields(tally, fields, installed, reference).details == tally.details + Clauses(fields, installed, reference)
    decreases |fields|
  {
    if fields != [] {
      var next := Check(tally, fields[0], installed, reference);
      CheckFieldsAccumulates(next, fields[1..], installed, reference);
      assert next.details == tally.details + Piece(fields[0], installed, reference);
    } else {
      assert tally.details + "" == tally.details;
    }
  }

  /** The checks escalate to `Changed` iff some field mismatches, and the
      status never reverts. */
  lemma {:induction false} CheckFieldsEscalates(tally: Tally, fields: seq<Field>, installed: File, reference: File)
    ensures CheckFields(tally, fields, installed, reference).status == Changed <==>
              tally.status == Changed || exists k :: 0 <= k < |fields| && Mismatch(fields[k], installed, reference)
    ensures CheckFields(tally, fields, installed, reference).status != Changed ==>
              CheckFields(tally, fields, installed, reference).status == tally.status
    decreases |fields|
  {
    if fields != [] {
      var next := Check(tally, fields[0], installed, reference);
      CheckFieldsEscalates(next, fields[1..], installed, reference);
      if exists k :: 0 <= k < |fields| && Mismatch(fields[k], installed, reference) {
        var k :| 0 <= k < |fields| && Mismatch(fields[k], installed, reference);
        if k > 0 {
          assert fields[1..][k - 1] == fields[k];
        }
      }
    }
  }

  /** The five checks of a file comparison, in source order. */
  function CheckAll(installed: File, reference: File): (t: Tally)
    ensures t.status == Changed <==> AnyMismatch(installed, reference)
    ensures t.status != Changed ==> t.status == OK
    ensures t.details == Clauses(FieldOrder, installed, reference)
  {
    CheckFieldsAccumulates(Tally("", OK), FieldOrder, installed, reference);
    CheckFieldsEscalates(Tally("", OK), FieldOrder, installed, reference);
    FieldOrderCoversAllFields(installed, reference);
    CheckFields(Tally("", OK), FieldOrder, installed, reference)
  }

  /** Every field is checked, so some field mismatches iff one in `FieldOrder` does. */
  lemma FieldOrderCoversAllFields(installed: File, reference: File)
    ensures AnyMismatch(installed, reference) <==>
              exists k :: 0 <= k < |FieldOrder| && Mismatch(FieldOrder[k], installed, reference)
  {
    if AnyMismatch(installed, reference) {
      var field :| field in FieldOrder && Mismatch(field, installed, reference);
      assert Mismatch(FieldOrder[FieldIndex(field)], installed, reference);
    }
  }

  /** Where a field sits in `FieldOrder`. */
  function FieldIndex(field: Field): (k: nat)
    ensures k < |FieldOrder| && FieldOrder[k] == field
  {
    match field
    case ChecksumField => 0
    case OriginalNameField => 1
    case SignatureField => 2
    case SizeField => 3
    case VersionField => 4
  }

  /** `Compare(File, File)`: one result row for a file present on at least one side. */
  function CompareFile(installed: Option<File>, reference: Option<File>): (r: ResultItem)
    requires installed.Some? || reference.Some?
    ensures r.itemType == FileItem
    ensures r.path == (if installed.Some? then installed.value.path else reference.value.path)
    ensures r.status == Missing <==> installed.None?
    ensures r.status == Added <==> installed.Some? && reference.None?
    ensures r.status == Changed <==>
              installed.Some? && reference.Some? && AnyMismatch(installed.value, reference.value)
    ensures r.status == Changed ==>
              r.remarks == "This file has been changed! " + Clauses(FieldOrder, installed.value, reference.value)
    ensures r.status == Missing ==> r.remarks == "This file is missing!"
    ensures r.status == Added ==> r.remarks == "This file has been added!"
    ensures r.status == OK ==> r.remarks == ""
  {
    FileRemarks(if installed.Some? && reference.Some? then CheckAll(installed.value, reference.value).details else "");
    match (installed, reference)
    case (Some(i), Some(f)) =>
      var tally := CheckAll(i, f);
      ResultItem(i.path, BuildRemarks(FileItem, tally.status, tally.details), tally.status, FileItem)
    case (Some(i), None) =>
      ResultItem(i.path, BuildRemarks(FileItem, Added, ""), Added, FileItem)
    case (None, Some(f)) =>
      ResultItem(f.path, BuildRemarks(FileItem, Missing, ""), Missing, FileItem)
  }

  // -------------------------------------------------------------- folders

  /** The remark texts of folder rows, spelled out; a folder row is never `Changed`. */
  lemma FolderRemarks()
    ensures BuildRemarks(FolderItem, Added, "") == "This folder has been added!"
    ensures BuildRemarks(FolderItem, Missing, "") == "This folder is missing!"
    ensures BuildRemarks(FolderItem, OK, "") == ""
  {
    FolderAddedRemark();
    FolderMissingRemark();
  }

  lemma FolderAddedRemark()
    ensures BuildRemarks(FolderItem, Added, "") == "This folder has been added!"
  {
    assert "This " + "folder" + " has been added!" == "This folder has been added!";
  }

  lemma FolderMissingRemark()
    ensures BuildRemarks(FolderItem, Missing, "") == "This folder is missing!"
  {
    assert "This " + "folder" + " is missing!" == "This folder is missing!";
  }

  /** The row a folder comparison emits for the folder itself. */
  function SelfItem(installed: Option<Folder>, reference: Option<Folder>): (r: ResultItem)
    requires installed.Some? || reference.Some?
    ensures installed.None? ==> r.status == Missing && r.remarks == "This folder is missing!"
    ensures installed.Some? && reference.None? ==> r.status == Added && r.remarks == "This folder has been added!"
    ensures installed.Some? && reference.Some? ==> r.status == OK && r.remarks == ""
  {
    FolderRemarks();
    var status := PresenceStatus(installed.Some?, reference.Some?);
    ResultItem(
      if installed.Some? then installed.value.path else reference.value.path,
      BuildRemarks(FolderItem, status, ""),
      status,
      FolderItem)
  }

  predicate NoChangedFolder(items: seq<ResultItem>) {
    forall k :: 0 <= k < |items| && items[k].itemType == FolderItem ==> items[k].status != Changed
  }

  function ChildFolders(folder: Option<Folder>): seq<Folder> {
    if folder.Some? then folder.value.folders else []
  }

  function ChildFiles(folder: Option<Folder>): seq<File> {
    if folder.Some? then folder.value.files else []
  }

  /** Taking the matched partner out of the installed list removes its nodes
      from the measure. */
  lemma TakeNodes(pool: seq<Folder>, path: string)
    ensures var (partner, rest) := Take(pool, FolderPath, path);
            OptionNodes(partner) + ForestNodes(rest) == ForestNodes(pool)
  {
    match FirstMatch(pool, FolderPath, path)
    case None =>
    case Some(i) => ForestNodesRemoveAt(pool, i);
  }

  /** `Compare(Folder, Folder)`: the folder itself, then the sub-folders driven
      by the reference, then installed-only sub-folders, then the files driven
      by the reference, then installed-only files. */
  function CompareFolder(installed: Option<Folder>, reference: Option<Folder>): (r: seq<ResultItem>)
    requires installed.Some? || reference.Some?
    ensures |r| >= 1 && r[0] == SelfItem(installed, reference)
    ensures r[0].itemType == FolderItem
    ensures r[0].path == (if installed.Some? then installed.value.path else reference.value.path)
    ensures r[0].status == Missing <==> installed.None?
    ensures r[0].status == Added <==> installed.Some? && reference.None?
    ensures r[0].status == OK <==> installed.Some? && reference.Some?
    ensures r[0].remarks == (if installed.None? then "This folder is missing!"
                             else if reference.None? then "This folder has been added!" else "")
    ensures NoChangedFolder(r)
    decreases OptionNodes(installed) + OptionNodes(reference), 0
  {
    var self := SelfItem(installed, reference);
    var r := [self]
      + FolderPass(ChildFolders(installed), ChildFolders(reference))
      + FilePass(ChildFiles(installed), ChildFiles(reference));
    assert r[0] == self;
    r
  }

  /** The loop over the reference's sub-folders, each compared with its first
      case-insensitive match among the installed sub-folders not yet matched;
      once they are exhausted, the installed sub-folders left over. */
  function FolderPass(pool: seq<Folder>, refs: seq<Folder>): (r: seq<ResultItem>)
    ensures NoChangedFolder(r)
    decreases ForestNodes(pool) + ForestNodes(refs), 2
  {
    if refs == [] then AddedFolders(pool)
    else
      var (partner, rest) := Take(pool, FolderPath, refs[0].path);
      TakeNodes(pool, refs[0].path);
      CompareFolder(partner, Some(refs[0])) + FolderPass(rest, refs[1..])
  }

  /** The installed-only sub-folders, each compared with no reference. */
  function AddedFolders(pool: seq<Folder>): (r: seq<ResultItem>)
    ensures NoChangedFolder(r)
    decreases ForestNodes(pool), 1
  {
    if pool == [] then [] else CompareFolder(Some(pool[0]), None) + AddedFolders(pool[1..])
  }

  /** The loop over the reference's files, then the installed-only files. */
  function FilePass(pool: seq<File>, refs: seq<File>): (r: seq<ResultItem>)
    ensures forall k :: 0 <= k < |r| ==> r[k].itemType == FileItem
    decreases |refs|
  {
    if refs == [] then AddedFiles(pool)
    else
      var (partner, rest) := Take(pool, FilePath, refs[0].path);
      [CompareFile(partner, Some(refs[0]))] + FilePass(rest, refs[1..])
  }

  function AddedFiles(pool: seq<File>): (r: seq<ResultItem>)
    ensures |r| == |pool|
    ensures forall k :: 0 <= k < |r| ==> r[k] == CompareFile(Some(pool[k]), None)
  {
    if pool == [] then [] else [CompareFile(Some(pool[0]), None)] + AddedFiles(pool[1..])
  }

  // --------------------------------------------------- reference selection

  predicate VersionMatches(installedVersion: string, reference: Installation) {
    reference.version.Some? && EqualsIgnoreCase(installedVersion, reference.version.value)
  }

  /** `references.FirstOrDefault(r => installedVersion.Equals(r.Version, OrdinalIgnoreCase))`. */
  function FirstReference(installedVersion: string, references: seq<Installation>): (r: Option<nat>)
    ensures r.Some? ==> r.value < |references| && VersionMatches(installedVersion, references[r.value])
    ensures r.Some? ==> forall j :: 0 <= j < r.value ==> !VersionMatches(installedVersion, references[j])
    ensures r.None? <==> forall j :: 0 <= j < |references| ==> !VersionMatches(installedVersion, references[j])
  {
    if references == [] then None
    else if VersionMatches(installedVersion, references[0]) then Some(0)
    else match FirstReference(installedVersion, references[1..])
      case None => None
      case Some(i) => Some(i + 1)
  }

  /** What `Verify` throws: no reference for the version, or a null installed
      version dereferenced while searching. */
  datatype VerifyError = NoReferenceFound(message: string) | NullReference

  function NoReferenceMessage(installedVersion: string): string {
    "No reference found for installed version " + installedVersion + "!"
  }

  /** The pure tail of `Verify`: given the installed version and the analysed
      installation tree, compare against the first reference of the same
      version and drop the row of the root folder. */
  function Verify(installedVersion: Option<string>, installedRoot: Folder, references: seq<Installation>)
    : (r: Result<seq<ResultItem>, VerifyError>)
    ensures r.Success? <==>
              installedVersion.Some?
              && exists k :: 0 <= k < |references| && VersionMatches(installedVersion.value, references[k])
    ensures r.Success? ==>
              exists k :: 0 <= k < |references|
                && VersionMatches(installedVersion.value, references[k])
                && (forall j :: 0 <= j < k ==> !VersionMatches(installedVersion.value, references[j]))
                && CompareFolder(Some(installedRoot), references[k].root)
                   == [SelfItem(Some(installedRoot), references[k].root)] + r.value
    ensures installedVersion.Some? && r.Failure? ==>
              r.error == NoReferenceFound(NoReferenceMessage(installedVersion.value))
    ensures installedVersion.None? ==> r.Failure? && (r.error == NullReference <==> references != [])
    ensures installedVersion.None? && references == [] ==> r == Failure(NoReferenceFound(NoReferenceMessage("")))
  {
    match installedVersion
    case None =>
      if references == [] then Failure(NoReferenceFound(NoReferenceMessage(""))) else Failure(NullReference)
    case Some(version) =>
      match FirstReference(version, references)
      case None => Failure(NoReferenceFound(NoReferenceMessage(version)))
      case Some(k) =>
        var items := CompareFolder(Some(installedRoot), references[k].root);
        assert items == [items[0]] + items[1..];
        Success(items[1..])
  }

  // ------------------------------------------------ building a folder tree

  /** The assembly step of `AnalyzeDirectory` as written: the sub-folders and
      files (already analysed) are added through the `Folders` and `Files`
      getters, i.e. to copies, so the folder keeps no children. */
  method AnalyzeAsWritten(path: string, subfolders: seq<Folder>, files: seq<File>) returns (folder: Folder)
    ensures folder.path == path
    ensures folder.folders == [] && folder.files == []
    ensures Nodes(folder) == 1
  {
    folder := Containers.NewFolder(path);
    for i := 0 to |subfolders|
      invariant folder == Containers.NewFolder(path)
    {
      var (after, _) := Containers.AddToFoldersCopy(folder, subfolders[i]);
      folder := after;
    }
    for j := 0 to |files|
      invariant folder == Containers.NewFolder(path)
    {
      var (after, _) := Containers.AddToFilesCopy(folder, files[j]);
      folder := after;
    }
  }

  /** The assembly step of `AnalyzeDirectory` with the children added through
      `Add`: the folder holds every sub-folder and file, in enumeration order. */
  method Analyze(path: string, subfolders: seq<Folder>, files: seq<File>) returns (folder: Folder)
    ensures folder.path == path
    ensures folder.folders == subfolders && folder.files == files
    ensures Nodes(folder) == 1 + |files| + ForestNodes(subfolders)
  {
    folder := Containers.NewFolder(path);
    for i := 0 to |subfolders|
      invariant folder.path == path && folder.files == [] && folder.folders == subfolders[..i]
    {
      folder := Containers.AddFolder(folder, subfolders[i]);
      assert subfolders[..i + 1] == subfolders[..i] + [subfolders[i]];
    }
    assert subfolders[..|subfolders|] == subfolders;
    for j := 0 to |files|
      invariant folder.path == path && folder.folders == subfolders && folder.files == files[..j]
    {
      folder := Containers.AddFile(folder, files[j]);
      assert files[..j + 1] == files[..j] + [files[j]];
    }
    assert files[..|files|] == files;
  }
}
