/** What a path holds: in the merged view, in the upper directory, and in the lower tree. */
module Entries {

  newtype Byte = x: int | 0 <= x < 256
  type Bytes = seq<Byte>

  /** What a client of the mount sees at a path: kind, link target and bytes. */
  datatype Node = Dir | File(data: Bytes) | Link(target: string) | Fifo

  /** An entry of the upper directory on disk. */
  datatype UpperEntry = UDir | UFile(perm: nat, data: Bytes) | ULink(target: string)

  datatype Kind = RegularKind | DirKind | SymlinkKind | FifoKind

  /** A node of the lower tree, with the bytes its blocks hold. */
  datatype LowerEntry = LDir | LLeaf(kind: Kind, link: string, mode: nat, data: Bytes)

  function SeeUpper(e: UpperEntry): Node {
    match e
    case UDir => Dir
    case UFile(_, data) => File(data)
    case ULink(target) => Link(target)
  }

  /** A leaf with a link target is a symlink whatever its recorded kind. */
  function SeeLower(l: LowerEntry): Node {
    match l
    case LDir => Dir
    case LLeaf(kind, link, _, data) =>
      if kind == SymlinkKind || link != "" then Link(link)
      else if kind == FifoKind then Fifo
      else File(data)
  }

  /** The size the source records: a symlink's is the length of its target. */
  function SizeUpper(e: UpperEntry): nat {
    match e
    case UDir => 0
    case UFile(_, data) => |data|
    case ULink(target) => |target|
  }

  function SizeLower(l: LowerEntry): nat {
    match l
    case LDir => 0
    case LLeaf(_, link, _, data) => if link != "" then |link| else |data|
  }
}
