/** The append-only folder containers `Folder` and `InstallationFolder`: a path
    plus two private child lists, grown only through `Add`, and exposed through
    getters that hand out fresh copies of the lists. */
module Containers {
  import opened Data

  /** `new Folder { Path = path }`: a folder with no children. */
  function NewFolder<F>(path: string): (r: Node<F>)
    ensures r.path == path
    ensures r.files == [] && r.folders == []
    ensures Nodes(r) == 1
  {
    Node(path, [], [])
  }

  /** `Add(File)`: the file goes to the end of the file list; sub-folders are untouched. */
  function AddFile<F>(folder: Node<F>, file: F): (r: Node<F>)
    ensures r.files == folder.files + [file]
    ensures r.folders == folder.folders && r.path == folder.path
    ensures Nodes(r) == Nodes(folder) + 1
  {
    folder.(files := folder.files + [file])
  }

  /** `Add(Folder)`: the sub-folder goes to the end of the folder list; files are untouched. */
  function AddFolder<F>(folder: Node<F>, child: Node<F>): (r: Node<F>)
    ensures r.folders == folder.folders + [child]
    ensures r.files == folder.files && r.path == folder.path
    ensures Nodes(r) == Nodes(folder) + Nodes(child)
  {
    ForestNodesAppend(folder.folders, [child]);
    assert [child][1..] == [];
    folder.(folders := folder.folders + [child])
  }

  /** The `Files` getter: a fresh list with the current files. */
  function Files<F>(folder: Node<F>): seq<F> {
    folder.files
  }

  /** The `Folders` getter: a fresh list with the current sub-folders. */
  function Folders<F>(folder: Node<F>): seq<Node<F>> {
    folder.folders
  }

  /** What `folder.Files.Add(file)` does: it appends to the copy the getter
      returned. The pair holds the folder afterwards and the caller's copy. */
  function AddToFilesCopy<F>(folder: Node<F>, file: F): (Node<F>, seq<F>) {
    (folder, Files(folder) + [file])
  }

  /** What `folder.Folders.Add(child)` does: it appends to the getter's copy. */
  function AddToFoldersCopy<F>(folder: Node<F>, child: Node<F>): (Node<F>, seq<Node<F>>) {
    (folder, Folders(folder) + [child])
  }

  /** Appending to a list a getter returned never reaches the folder, unlike `Add`. */
  lemma GetterCopiesAreIndependent<F>(folder: Node<F>, file: F, child: Node<F>)
    ensures AddToFilesCopy(folder, file).0 == folder
    ensures AddToFilesCopy(folder, file).1 == Files(AddFile(folder, file))
    ensures AddToFilesCopy(folder, file).0 != AddFile(folder, file)
    ensures AddToFoldersCopy(folder, child).0 == folder
    ensures AddToFoldersCopy(folder, child).1 == Folders(AddFolder(folder, child))
    ensures AddToFoldersCopy(folder, child).0 != AddFolder(folder, child)
  {
    assert |AddFile(folder, file).files| != |folder.files|;
    assert |AddFolder(folder, child).folders| != |folder.folders|;
  }

  /** The two child lists are independent: the order in which a file and a
      folder are added does not matter. */
  lemma AddsCommute<F>(folder: Node<F>, file: F, child: Node<F>)
    ensures AddFile(AddFolder(folder, child), file) == AddFolder(AddFile(folder, file), child)
  {
  }

  // The older `InstallationFolder` offers the same API over `InstallationFile`.

  function NewInstallationFolder(path: string): (r: InstallationFolder)
    ensures r.path == path
    ensures Files(r) == [] && Folders(r) == []
  {
    NewFolder(path)
  }

  function AddInstallationFile(folder: InstallationFolder, file: InstallationFile): (r: InstallationFolder)
    ensures Files(r) == Files(folder) + [file]
    ensures Folders(r) == Folders(folder) && r.path == folder.path
  {
    AddFile(folder, file)
  }

  function AddInstallationFolder(folder: InstallationFolder, child: InstallationFolder): (r: InstallationFolder)
    ensures Folders(r) == Folders(folder) + [child]
    ensures Files(r) == Files(folder) && r.path == folder.path
  {
    AddFolder(folder, child)
  }

  /** The `InstallationFolder` getters hand out copies as well. */
  lemma InstallationGetterCopiesAreIndependent(folder: InstallationFolder, file: InstallationFile, child: InstallationFolder)
    ensures AddToFilesCopy(folder, file).0 == folder
    ensures AddToFilesCopy(folder, file).0 != AddInstallationFile(folder, file)
    ensures AddToFoldersCopy(folder, child).0 == folder
    ensures AddToFoldersCopy(folder, child).0 != AddInstallationFolder(folder, child)
  {
    GetterCopiesAreIndependent(folder, file, child);
  }
}
