/** The records the diff engine works on: file and folder snapshots, the
    installation a reference belongs to, and the result rows it reports. */
module Data {
  import opened Wrappers

  /** One file of a snapshot. The checksum is always present; the version
      metadata and the certificate thumbprint may be absent. `size` is the
      byte length (a C# `long`). */
  datatype File = File(
    path: string,
    checksum: string,
    originalName: Option<string>,
    signature: Option<string>,
    size: int,
    version: Option<string>)

  /** The file record of the older `InstallationFolder` container. */
  datatype InstallationFile = InstallationFile(path: string, size: int, version: Option<string>)

  /** A folder holding files of type `F` and sub-folders, both in insertion order.
      `Folder` and its older twin `InstallationFolder` are this shape. */
  datatype Node<F> = Node(path: string, files: seq<F>, folders: seq<Node<F>>)

  type Folder = Node<File>

  type InstallationFolder = Node<InstallationFile>

  datatype ResultItemStatus = OK | Added | Missing | Changed

  datatype ResultItemType = FileItem | FolderItem

  /** One row of the verification report. */
  datatype ResultItem = ResultItem(
    path: string,
    remarks: string,
    status: ResultItemStatus,
    itemType: ResultItemType)

  datatype Platform = Undefined | X64 | X86

  /** A captured installation: free-text provenance, platform, file tree and version. */
  datatype Installation = Installation(
    info: string,
    platform: Platform,
    root: Option<Folder>,
    version: Option<string>)

  /** Number of folders and files in a tree, the tree's own folder included. */
  function Nodes<F>(n: Node<F>): nat
    decreases n
  {
    1 + |n.files| + ForestNodes(n.folders)
  }

  /** Number of folders and files in a list of trees. */
  function ForestNodes<F>(s: seq<Node<F>>): nat
    decreases s
  {
    if s == [] then 0 else Nodes(s[0]) + ForestNodes(s[1..])
  }

  function OptionNodes<F>(n: Option<Node<F>>): nat {
    if n.Some? then Nodes(n.value) else 0
  }

  /** Counting nodes distributes over concatenation of forests. */
  lemma {:induction false} ForestNodesAppend<F>(a: seq<Node<F>>, b: seq<Node<F>>)
    ensures ForestNodes(a + b) == ForestNodes(a) + ForestNodes(b)
    decreases |a|
  {
    if a != [] {
      assert (a + b)[0] == a[0];
      assert (a + b)[1..] == a[1..] + b;
      ForestNodesAppend(a[1..], b);
    } else {
      assert a + b == b;
    }
  }

  /** Taking one tree out of a forest removes exactly that tree's nodes. */
  lemma ForestNodesRemoveAt<F>(s: seq<Node<F>>, i: nat)
    requires i < |s|
    ensures ForestNodes(s[..i] + s[i + 1..]) + Nodes(s[i]) == ForestNodes(s)
  {
    var before, tree, after := s[..i], s[i], s[i + 1..];
    var rest := [tree] + after;
    assert s == before + rest;
    assert rest[0] == tree && rest[1..] == after;
    assert ForestNodes(rest) == Nodes(tree) + ForestNodes(after);
    ForestNodesAppend(before, rest);
    ForestNodesAppend(before, after);
  }
}
