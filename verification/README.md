# SEB Verificator: snapshot diff engine, logger and system classification

This project models the core of SEB Verificator, the tool that checks a Safe
Exam Browser installation against a stored reference snapshot. The model is in
Dafny.

- **Diff engine** (`Algorithm.cs`):
  - Folder comparison walks two folder trees and emits one result row per folder
    and file: the folder itself first, then each reference sub-folder's subtree,
    then the installed-only sub-folders, then the reference files, then the
    installed-only files.
  - Children are matched by case-insensitive path. Each reference child takes
    the first installed child not yet claimed.
  - File comparison checks checksum, original name, signature, size and version,
    in that order. It appends one remark clause per mismatch and marks the file
    `Changed`.
  - `Verify` picks the first reference of the installed version, compares, and
    drops the root row. It fails with "No reference found …" when no reference
    matches.
- **Containers** (`Folder.cs`, `InstallationFolder.cs`): a path plus two private
  child lists that only `Add` extends. The getters return copies of the lists.
- **Logger** (`Logger.cs`, `LogContentFormatter.cs`, `ThreadInfo.cs`, `LogMessage.cs`,
  `LogText.cs`):
  - A level threshold, an append-only log, and observers without duplicates that
    are notified of each entry in subscription order.
  - Null messages, texts, exceptions and subscribers raise `ArgumentNullException`.
    `Unsubscribe(null)` does not: it removes nothing.
  - The formatter renders entries as `{date} [{id}{: name}] - {SEVERITY}: {message}`.
- **System info** (`SystemInfo.cs`): classifies Windows 7, 8, 8.1, 10 and 11 from
  the major, minor and build numbers. It also renders the display name and the
  architecture label.

## How the model is organised

Every module sits in its own file:

| module | contents |
|---|---|
| `Wrappers` | `Option` (for C# `null`) and `Result` (for thrown exceptions) |
| `Text` | `OrdinalIgnoreCase` as equality after an ASCII upper-case fold; decimal rendering of integers and its parser; `char.IsWhiteSpace` |
| `Data` | `File`, `InstallationFile`, the generic tree `Node<F>` (`Folder`, `InstallationFolder`), `ResultItem`, `Installation`, the tree size measure `Nodes` |
| `Containers` | the `Folder` / `InstallationFolder` API |
| `Matching` | first-match lookup, removal, and a two-phase reference pairing `Pair` |
| `Algorithm` | the diff engine, `Verify`, and the tree-assembly step of `AnalyzeDirectory` |
| `AlgorithmProofs` | the diff engine's properties |
| `Logging`, `LoggingProofs` | the logger as a pure state machine, and its properties |
| `LogFormat` | `LogContentFormatter` |
| `SystemInfo` | operating-system classification |

Some inputs come from outside the program:

- The installed version string and the installed tree arrive as parameters of
  `Verify`, which is where the file-system walk would otherwise produce them.
- Each logger call gets its time stamp and thread as a `Capture`.
- The OS version numbers and the 64-bit flag are parameters.

Iteration over the children is recursion. A folder comparison terminates on
the node count of both trees, so mutual recursion between folder and
sub-folder passes is well-founded.

## Model

| member | source | states |
|---|---|---|
| Text.Upper | Verificator/Logging/LogContentFormatter.cs:33 | upper-casing keeps the length and folds every character in place |
| Text.EqualsIgnoreCasePointwise | Verificator/Algorithm.cs:114 | two paths are equal ignoring case iff they have the same length and agree letter by letter after folding |
| Text.EqualsIgnoreCaseIsEquivalence | Verificator/Algorithm.cs:114 | case-insensitive path equality is reflexive, symmetric and transitive |
| Text.NatToStringRoundTrip | Verificator/Algorithm.cs:174 | the decimal rendering of a number is all digits, parses back to the number, and has no leading zero unless the number is 0 |
| Text.LeadingZero | Verificator/Logging/LogContentFormatter.cs:34 | a leading "0" does not change the value a digit string reads as |
| Text.AllWhiteSpace | Verificator/Logging/ThreadInfo.cs:20 | a string is blank iff every character is white space |
| Data.ForestNodesAppend | Verificator/Data/Folder.cs:33-36 | the node count of two concatenated forests is the sum of their counts |
| Data.ForestNodesRemoveAt | Verificator/Algorithm.cs:121 | taking one tree out of a forest removes exactly that tree's nodes |
| Containers.NewFolder | Verificator/Data/Folder.cs:22-26 | a new folder has its path and no files or sub-folders |
| Containers.AddFile | Verificator/Data/Folder.cs:28-31 | the file goes to the end of the files; sub-folders and path are untouched; one more node |
| Containers.AddFolder | Verificator/Data/Folder.cs:33-36 | the sub-folder goes to the end of the sub-folders; files and path are untouched; the node count grows by the child's |
| Containers.GetterCopiesAreIndependent | Verificator/Data/Folder.cs:18-19 | appending to the list a getter returned leaves the folder as it was, and differs from `Add` |
| Containers.AddsCommute | Verificator/Data/Folder.cs:28-36 | adding a file and adding a folder commute |
| Containers.NewInstallationFolder | Verificator/Data/InstallationFolder.cs:22-26 | a new installation folder has its path and empty getter lists |
| Containers.AddInstallationFile | Verificator/Data/InstallationFolder.cs:28-31 | the getter's file list grows by the file at the end; sub-folders unchanged |
| Containers.AddInstallationFolder | Verificator/Data/InstallationFolder.cs:33-36 | the getter's folder list grows by the child at the end; files unchanged |
| Containers.InstallationGetterCopiesAreIndependent | Verificator/Data/InstallationFolder.cs:18-19 | appending to a getter's copy does not change the installation folder |
| Matching.FirstMatch | Verificator/Algorithm.cs:114 | the index found is the least whose path equals the wanted one ignoring case; none is found iff no element matches |
| Matching.RemoveAt | Verificator/Algorithm.cs:121 | removal drops exactly the one element and keeps the order of the rest |
| Matching.Take | Verificator/Algorithm.cs:114-121 | there is no partner iff no element matches the path, and then the list is unchanged; otherwise the partner is the first matching element and exactly that position is cut out of the list, the rest keeping its order |
| Matching.Pair | Verificator/Algorithm.cs:112-122 | one partner slot per reference child, each matching its reference's path; a reference left without partner matches no leftover installed child; the leftover keeps the installed order; matched and leftover installed children together are exactly the installed children |
| Matching.TakeKeepsOrder | Verificator/Algorithm.cs:114-121 | the working list after taking a partner is an order-preserving sub-list of the list before |
| Matching.PairUnfold | Verificator/Algorithm.cs:112-122 | pairing a non-empty reference list is taking the head's partner and pairing the rest against what is left |
| Matching.SubsequenceOfItself | Verificator/Algorithm.cs:121 | a list is an order-preserving sub-list of itself |
| Matching.RemoveAtIsSubsequence | Verificator/Algorithm.cs:121 | cutting one position out keeps the rest in order |
| Matching.SubsequenceTransitive | Verificator/Algorithm.cs:112-122 | an order-preserving sub-list of an order-preserving sub-list is one of the whole list |
| Matching.PairStep | Verificator/Algorithm.cs:112-122 | one turn of the reference loop (take a partner, pair the rest) keeps every property `Pair` states |
| Matching.UnpairedStaysUnmatched | Verificator/Algorithm.cs:114-121 | a reference with no partner matches no element that later remains in the working list |
| Algorithm.PresenceStatus | Verificator/Algorithm.cs:102 | `Missing` iff the installed side is absent, `Added` iff only the reference is absent |
| Algorithm.BuildRemarks | Verificator/Algorithm.cs:199-214 | the remark is empty iff the status is `OK` |
| Algorithm.FolderRemarks | Verificator/Algorithm.cs:199-214 | the remark texts of a folder row, spelled out: added, missing, and empty for `OK` |
| Algorithm.FileRemarks | Verificator/Algorithm.cs:199-214 | the three remark texts of a file row, spelled out |
| Algorithm.CheckFieldsAccumulates | Verificator/Algorithm.cs:152-183 | the checks append the clauses of the mismatching fields, in field order |
| Algorithm.CheckFieldsEscalates | Verificator/Algorithm.cs:152-183 | the status becomes `Changed` iff some checked field mismatches, and otherwise stays as it was |
| Algorithm.CheckAll | Verificator/Algorithm.cs:149-183 | the five checks give `Changed` iff any field mismatches, `OK` otherwise, with the clauses in source order |
| Algorithm.FieldOrderCoversAllFields | Verificator/Algorithm.cs:154-182 | every one of the five fields is among the checked ones |
| Algorithm.CompareFile | Verificator/Algorithm.cs:147-192 | a file row's status is Missing, Added or Changed under exactly the source's conditions; the row carries the present side's path; its remarks are the fixed texts, and "changed" lists the clauses in order |
| Algorithm.SelfItem | Verificator/Algorithm.cs:102-110 | the folder's own row is `Missing` with "This folder is missing!", `Added` with "This folder has been added!", or `OK` with no remark, by presence |
| Algorithm.CompareFolder | Verificator/Algorithm.cs:96-145 | the first row is the folder itself, with the present side's path, status `Missing`, `Added` or `OK` by presence and the matching folder remark; no folder row is ever `Changed` |
| Algorithm.FolderPass | Verificator/Algorithm.cs:112-130 | no row from the sub-folder loops is a `Changed` folder |
| Algorithm.AddedFolders | Verificator/Algorithm.cs:124-130 | no row from the installed-only sub-folders is a `Changed` folder |
| Algorithm.FilePass | Verificator/Algorithm.cs:132-144 | the file loops emit file rows only |
| Algorithm.AddedFiles | Verificator/Algorithm.cs:141-144 | one row per installed-only file, in order, each compared with no reference |
| Algorithm.FirstReference | Verificator/Algorithm.cs:41 | the reference chosen is the first whose version equals the installed one ignoring case; none iff no reference matches |
| Algorithm.Verify | Verificator/Algorithm.cs:37-53 | success iff a reference of the installed version exists; then the rows are those of comparing against the first such reference, minus the root row; otherwise the "No reference found" error; a null version dereferences iff there are references, and with no references gives the message for an empty version |
| Algorithm.AnalyzeAsWritten | Verificator/Algorithm.cs:56-94 | adding the children through the getters leaves the folder with no children at all |
| Algorithm.Analyze | Verificator/Algorithm.cs:56-94 | adding the children through `Add` keeps every sub-folder and file, in enumeration order |
| AlgorithmProofs.MissingTree | Verificator/Algorithm.cs:96-145 | with no installed side, every row is `Missing`, one per folder and file of the reference tree |
| AlgorithmProofs.MissingForest | Verificator/Algorithm.cs:112-122 | missing sub-folders give only `Missing` rows, one per node |
| AlgorithmProofs.MissingFiles | Verificator/Algorithm.cs:132-139 | missing files give only `Missing` rows, one per file |
| AlgorithmProofs.AddedTree | Verificator/Algorithm.cs:96-145 | with no reference side, every row is `Added`, one per folder and file of the installed tree |
| AlgorithmProofs.AddedForest | Verificator/Algorithm.cs:124-130 | installed-only sub-folders give only `Added` rows, one per node |
| AlgorithmProofs.NoSelfMismatch | Verificator/Algorithm.cs:152-183 | a file never mismatches itself |
| AlgorithmProofs.TakeSelf | Verificator/Algorithm.cs:114-121 | each child of a list is its own first match and is removed from the front |
| AlgorithmProofs.SelfTree | Verificator/Algorithm.cs:96-145 | comparing a tree with itself gives one `OK` row with empty remarks per folder and file |
| AlgorithmProofs.SelfForest | Verificator/Algorithm.cs:112-130 | the sub-folder loops on equal lists give only `OK` rows, one per node |
| AlgorithmProofs.SelfFiles | Verificator/Algorithm.cs:132-144 | the file loops on equal lists give only `OK` rows, one per file |
| AlgorithmProofs.RemarksIdentifyStatus | Verificator/Algorithm.cs:199-214 | equal remarks on rows of the same kind mean equal statuses |
| AlgorithmProofs.ClausesAgree | Verificator/Algorithm.cs:152-183 | equal per-field clauses give equal details |
| AlgorithmProofs.AbsentReferenceFieldIsIgnored | Verificator/Algorithm.cs:160-182 | when the reference has no name, signature or version, the installed file's value there does not affect the row |
| AlgorithmProofs.SameFieldsSameRow | Verificator/Algorithm.cs:147-192 | two installed files differing only in optional fields the reference leaves absent get the same row |
| AlgorithmProofs.SameFieldSamePiece | Verificator/Algorithm.cs:154-182 | such files get the same verdict and the same clause from every field check |
| AlgorithmProofs.FallingShortIsChanged | Verificator/Algorithm.cs:160-176 | a missing installed name, a case-insensitively different signature, or any size difference makes the file `Changed` |
| AlgorithmProofs.ChecksumOnlyChange | Verificator/Algorithm.cs:154-158 | a file that differs only in checksum is `Changed`, and its remark is the checksum clause alone |
| AlgorithmProofs.OnlyChecksumClause | Verificator/Algorithm.cs:152-183 | when only the checksum differs, the details are exactly the checksum clause |
| AlgorithmProofs.ClausesAsFiveFields | Verificator/Algorithm.cs:152-183 | the details are the five fields' pieces, in the order checksum, original name, signature, size, version |
| AlgorithmProofs.ClausesOfFive | Verificator/Algorithm.cs:152-183 | the details of any five checks are their pieces, in order |
| AlgorithmProofs.PairedFiles | Verificator/Algorithm.cs:132-139 | one row per reference file, each compared with its partner |
| AlgorithmProofs.FolderPassInTwoPhases | Verificator/Algorithm.cs:112-130 | the interleaved match/recurse/remove loop emits the same rows as first pairing all reference sub-folders, then comparing the pairs, then the leftovers |
| AlgorithmProofs.FilePassInTwoPhases | Verificator/Algorithm.cs:132-144 | the same for files |
| AlgorithmProofs.FileRowCount | Verificator/Algorithm.cs:132-144 | one row per reference file plus one per unclaimed installed file; each installed file is claimed at most once |
| AlgorithmProofs.EmissionOrder | Verificator/Algorithm.cs:96-145 | a folder emits itself, then the paired sub-folder subtrees in reference order, then the added sub-folders, then the paired files, then the added files |
| AlgorithmProofs.SelectionIgnoresPlatform | Verificator/Algorithm.cs:41 | references that differ only in platform or info text select the same index |
| AlgorithmProofs.VerifyIgnoresPlatform | Verificator/Algorithm.cs:41-48 | `Verify` gives the same outcome for references that differ only in platform or info |
| AlgorithmProofs.FirstOfSameVersionWins | Verificator/Algorithm.cs:41 | of an x86 and an x64 reference with the same version, the one listed first is used |
| AlgorithmProofs.VerifyDropsOnlyTheRoot | Verificator/Algorithm.cs:48 | with a matching reference, `Verify` returns all comparison rows but the first |
| AlgorithmProofs.ChildlessRootReportsEverythingMissing | Verificator/Algorithm.cs:56-94 | a childless installed root, as the getter-based assembly builds it, makes every row below the root `Missing`, one per reference node |
| Logging.HasName | Verificator/Logging/ThreadInfo.cs:18-21 | a thread has a name iff its name is present and holds a non-white-space character |
| Logging.CloneThread | Verificator/Logging/ThreadInfo.cs:29-32 | the clone has the same id and name |
| Logging.CloneContent | Verificator/Logging/LogMessage.cs:28-31 | cloning log text or a log message gives an equal value |
| Logging.NewLogger | Verificator/Logging/Logger.cs:19-23 | a new logger has no entries, observers or notifications |
| Logging.Notify | Verificator/Logging/Logger.cs:178-181 | one notification per observer, in subscription order |
| Logging.Append | Verificator/Logging/Logger.cs:172-183 | the content is appended to the log and each current observer is notified of it once, in subscription order; threshold and observers are untouched |
| Logging.LogAt | Verificator/Logging/Logger.cs:25-75 | a null message is rejected; otherwise the message is appended and sent to every observer iff the threshold lets its severity through, and nothing changes if not |
| Logging.LogErrorWithException | Verificator/Logging/Logger.cs:77-119 | the message is checked for null before the exception; if errors pass the threshold, the message and then the exception details are appended, and every observer is notified of the message and then of the details |
| Logging.LogTextLine | Verificator/Logging/Logger.cs:121-129 | null text is rejected; otherwise the text is appended and sent to every observer whatever the threshold |
| Logging.GetLog | Verificator/Logging/Logger.cs:131-137 | the copies equal the entries, in order |
| Logging.Subscribe | Verificator/Logging/Logger.cs:139-153 | a null observer is rejected; afterwards the observer is subscribed; a known one is not added again; the list stays free of duplicates |
| Logging.FirstIndex | Verificator/Logging/Logger.cs:159 | the position found holds the element and no earlier position does |
| Logging.RemoveFirst | Verificator/Logging/Logger.cs:159 | removal cuts out the first occurrence of the element, keeping the order of the rest, and leaves the list alone if the element is absent |
| Logging.RemovedAtHead | Verificator/Logging/Logger.cs:159 | an occurrence at the head is the first one, and removing it leaves the tail |
| Logging.RemovedBehindHead | Verificator/Logging/Logger.cs:159 | when the head differs, removing the first occurrence from the list is keeping the head and removing it from the tail |
| Logging.MultisetBehindHead | Verificator/Logging/Logger.cs:159 | keeping a head other than the removed element keeps it in the multiset count |
| Logging.CutPointwise | Verificator/Logging/Logger.cs:159 | after cutting out position i, the positions before i are unchanged and the later ones shift down by one |
| Logging.CutKeepsDistinct | Verificator/Logging/Logger.cs:155-161 | cutting one position out of a list without duplicates leaves a list without duplicates holding exactly the other elements |
| Logging.SplitBehindHead | Verificator/Logging/Logger.cs:159 | a first occurrence in the tail at position i is the first occurrence in the list at i + 1 |
| Logging.RemoveFirstWithoutDuplicates | Verificator/Logging/Logger.cs:155-161 | in a list without duplicates, removal takes out the element altogether and keeps the list free of duplicates |
| Logging.Unsubscribe | Verificator/Logging/Logger.cs:155-161 | the observers become the list with the first occurrence of the observer cut out; so it is no longer subscribed and every other observer still is; an unknown or null observer changes nothing; the log is untouched |
| LoggingProofs.ReceivedAppend | Verificator/Logging/Logger.cs:172-183 | what one observer received from two batches is what it received from each, in order |
| LoggingProofs.ReceivedFromNotify | Verificator/Logging/Logger.cs:178-181 | one notification round delivers the content once to each subscribed observer and to no one else |
| LoggingProofs.DeliveredToEachSubscriber | Verificator/Logging/Logger.cs:172-183 | appending an entry delivers it exactly once to each subscriber and to nobody else |
| LoggingProofs.CallsPreserveInvariant | Verificator/Logging/Logger.cs:25-161 | every public call keeps the observers free of duplicates and only appends to the log and the notifications |
| LoggingProofs.LeveledCallAppendsIffPermitted | Verificator/Logging/Logger.cs:25-75 | a leveled call grows the log by one iff the threshold is at or below the severity |
| LoggingProofs.SubscribeIsIdempotent | Verificator/Logging/Logger.cs:139-153 | subscribing twice is the same as subscribing once |
| LoggingProofs.LogAll | Verificator/Logging/Logger.cs:121-137 | after a series of `Log(text)` calls, `GetLog` holds the earlier entries followed by the texts, in order |
| LogFormat.ThreadNameText | Verificator/Logging/LogContentFormatter.cs:35 | the name part is empty iff the thread has no name, and is ": name" otherwise |
| LogFormat.Format | Verificator/Logging/LogContentFormatter.cs:15-28 | text is returned verbatim; a message is rendered starting with its date and ending with its message; any other content type fails with `NotImplementedException` |
| LogFormat.ThreadIdRoundTrip | Verificator/Logging/LogContentFormatter.cs:34 | a non-negative id renders as at least two digits that read back as the id, with a leading zero iff it is below 10 |
| LogFormat.NegativeThreadId | Verificator/Logging/LogContentFormatter.cs:34 | a negative id renders with "0-" in front |
| LogFormat.SeverityTexts | Verificator/Logging/LogContentFormatter.cs:33 | the severities render as DEBUG, INFO, WARNING and ERROR |
| LogFormat.SeverityTextsDistinct | Verificator/Logging/LogContentFormatter.cs:33 | two severities render alike iff they are the same |
| LogFormat.UpperOfLiteral | Verificator/Logging/LogContentFormatter.cs:33 | upper-casing gives the character-wise folded string |
| SystemInfo.Classify | Verificator/Data/SystemInfo.cs:77-113 | each Windows version is reported exactly for its (major, minor) or (major, build) range; every other combination stays unknown |
| SystemInfo.OperatingSystemName | Verificator/Data/SystemInfo.cs:115-132 | the fallback "Unknown Windows Version" is given exactly for an unknown system; every known one is named "Windows …" |
| SystemInfo.NamesAreDistinct | Verificator/Data/SystemInfo.cs:115-132 | distinct systems have distinct, non-empty display names |
| SystemInfo.Architecture | Verificator/Data/SystemInfo.cs:30-33 | "x64" iff the system is 64-bit, "x86" otherwise |
| SystemInfo.NameIsAPrefixCode | Verificator/Data/SystemInfo.cs:21 | no display name followed by ", " starts another, so the line's beginning identifies the system |
| SystemInfo.NameHasNoComma | Verificator/Data/SystemInfo.cs:115-132 | no display name contains a comma |
| SystemInfo.OperatingSystemInfo | Verificator/Data/SystemInfo.cs:21 | the text is the display name and ", ", then the version string verbatim, then the architecture in parentheses, and nothing else |
| SystemInfo.OperatingSystemInfoIsInjective | Verificator/Data/SystemInfo.cs:21 | two lines are equal only for the same system, version string and architecture |

## Left out

- File-system walk, hashing and signatures (`AnalyzeDirectory`'s enumeration, SHA-256, X509 certificate hashes, `FileVersionInfo`): these are I/O. The installed tree and version are inputs to `Verify`. Only the tree-assembly step of `AnalyzeDirectory` is modelled.
- `GenerateReference` (Algorithm.cs:23-35): it only combines I/O results with `DateTime.Now`.
- Algorithm.CompareFile: a reference file whose checksum is null throws at Algorithm.cs:154. This is not represented, because checksums are always present in the model: the builder always computes one.
- Paths are never null in the model. In the source, `installed?.Path ?? reference.Path` could only yield null from a deserialised tree without paths.
- Logging.LogErrorWithException: the exception text the logger assembles (Logger.cs:89-112, message, type, stack trace, inner exceptions) is an input string. It is read from the runtime's exception object.
- The clock and the current thread (Logger.cs:165-169) are a `Capture` parameter. Date formatting (`yyyy-MM-dd HH:mm:ss.fff`) is not modelled: the date arrives already rendered.
- The lock in `Logger` is not modelled. Only `Add`, `GetLog`, `Subscribe` and `Unsubscribe` take it (Logger.cs:133, 146, 157, 174). The threshold tests and the thread and clock reads run outside it. The model is the behaviour of one thread at a time, with every call run to completion.
- Logging.LogErrorWithException: `Error(message, exception)` takes the lock twice, once per `Add` (Logger.cs:116-117). Another thread's entry can land between the message and its details. The model always puts them next to each other.
- The `LogLevel` setter (Logger.cs:23) is not among the modelled calls. The threshold is fixed when the logger is created.
- The `ILogObserver` callbacks are recorded as `Notification`s rather than run.
- `LogFileWriter`, the views, XML persistence of references (`Repository`) and `Constants` are not modelled. They are I/O and UI.
- LogFormat.Format: for a message it states only that the line starts with the date and ends with the message. The middle part is described piece by piece: the id by `LogFormat.ThreadIdRoundTrip`, the name by `LogFormat.ThreadNameText`, the severity by `LogFormat.SeverityTexts`. Equations between whole concatenated literal lines are too costly for the verifier.
- SystemInfo: `InitializeMachineInfo` (WMI queries) and `Environment` reads are not modelled. The version numbers, version string and 64-bit flag are parameters.
- Text.Upper: case-insensitive comparison folds ASCII letters only. The runtime's ordinal-ignore-case folds all of Unicode. The severity label is `Severity.ToString().ToUpper()` (LogContentFormatter.cs:33), which uses the current culture: under a Turkish culture "Warning" becomes "WARNİNG", with a dotted capital I. The model always gives the invariant upper case.
- `LogLevel` is assumed to be ordered Debug < Info < Warning < Error, as its use in the `<=` threshold tests implies. `LogLevel.cs` is not part of this model.
- The reference selection consults the version only. The platform a reference records is never compared with the installation's (Algorithm.cs:41).

## Findings

| source | as written | input that shows it | evidently intended | confidence | as-written member | corrected member |
|---|---|---|---|---|---|---|
| Verificator/Algorithm.cs:62 | `AnalyzeDirectory` adds sub-folders (line 62) and files (line 82) through `folder.Folders.Add` / `folder.Files.Add`. Those getters return fresh copies (Folder.cs:18-19), so the built folder keeps no children. | any installation directory with at least one file or sub-folder: the analysed root has no children. Against a reference whose root has children, `Verify` reports every reference item below the root as `Missing`. A reference built by the same code is childless too, and then `Verify` returns no rows at all | add through `folder.Add(...)`, so the tree holds every sub-folder and file | high, not executed | Algorithm.AnalyzeAsWritten, AlgorithmProofs.ChildlessRootReportsEverythingMissing | Algorithm.Analyze |
