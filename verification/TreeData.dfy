/** The records of the lower tree: entries a commit lists, inode nodes, and the block store. */
module TreeData {
  import opened Wrappers
  import opened Paths
  import opened Entries

  type BlockId = string

  /** Content-addressed blocks: every store that has a block holds the same bytes for it. */
  type BlockStore = map<BlockId, Bytes>

  /** One path listed by a commit, its path already cleaned and split. */
  datatype FileEntry = FileEntry(path: Path, kind: Kind, mode: nat, size: nat, link: string,
                                 blocks: seq<BlockId>, blockSizes: seq<nat>)

  /** A node of the inode tree; `offsets` is None for files in fixed-size blocks. */
  datatype FileNode = FileNode(ino: nat, name: Name, isDir: bool, kind: Kind, link: string, mode: nat,
                               size: nat, blocks: seq<BlockId>, offsets: Option<seq<nat>>,
                               children: map<Name, nat>, childOrder: seq<nat>)

  datatype FsTree = FsTree(nodes: map<nat, FileNode>, blockSize: int, store: BlockStore)
}
