/** A reader of Squashfs 4.0 images: path lookup from the superblock's root reference, and what a
    stat, a directory read, a readlink and a file read return. */
module Reader {
  import opened Bytes
  import opened Blocks
  import opened Names
  import opened MetaStream
  import opened Inodes
  import opened Listing
  import opened Paths
  import opened IdTable
  import opened FileData
  import opened Entries
  import opened Image

  /** Directory listings are three bytes shorter than the inode says. */
  function ReadListing(c: Codec, img: seq<Byte>, sb: Super, i: Inode): Option<seq<DirEntry>>
    requires i.DirInode?
  {
    if i.listSize < 3 then None else ListingIn(c, img, sb.dirStart + i.blockStart, i.blockOffset, i.listSize - 3)
  }

  /** A listing of `n` bytes at offset `off` of the metadata block at `start`. */
  function ListingIn(c: Codec, img: seq<Byte>, start: nat, off: nat, n: nat): Option<seq<DirEntry>> {
    var b :- ReadMeta(c, img, start, off, n);
    ParseListing(b)
  }

  /** Path resolution, one component at a time from the root. The reader is strict: a directory entry must agree with
      the inode it leads to about type and number. */
  function Lookup(c: Codec, img: seq<Byte>, sb: Super, p: Path): Option<Inode>
    requires sb.blockSize > 0
    decreases |p|
  {
    if p == ROOT then ReadInode(c, img, sb.inodeStart + sb.rootRef / 0x1_0000, sb.rootRef % 0x1_0000, sb.blockSize) else
    if !ValidPath(p) then None else
    Parent(p);
    var d :- Lookup(c, img, sb, Dir(p));
    if !d.DirInode? then None else
    var es :- ReadListing(c, img, sb, d);
    var e :- Find(es, Base(p));
    var i :- ReadInode(c, img, sb.inodeStart + e.blockByte, e.off, sb.blockSize);
    if e.typ != TypeOf(i) || e.ino != i.h.ino then None else Some(i)
  }

  datatype Node =
    | IsFile(content: seq<Byte>)
    | IsDir(nlink: nat, parent: nat, names: seq<Name>)
    | IsSymlink(nlink: nat, target: seq<Byte>)
    | IsDevice(block: bool, nlink: nat, major: nat, minor: nat)
    | IsIpc(socket: bool, nlink: nat)

  /** Everything the image says about one file. */
  datatype Stat = Stat(ino: nat, perm: nat, uid: nat, gid: nat, mtime: nat, node: Node)

  function NamesOf(es: seq<DirEntry>): (ns: seq<Name>)
    ensures |ns| == |es| && forall i :: 0 <= i < |es| ==> ns[i] == es[i].name
  {
    if es == [] then [] else [es[0].name] + NamesOf(es[1..])
  }

  function ReadNode(c: Codec, img: seq<Byte>, sb: Super, i: Inode): Option<Node> {
    match i
    case DirInode(_, _, nlink, _, _, parent) =>
      var es :- ReadListing(c, img, sb, i);
      Some(IsDir(nlink, parent, NamesOf(es)))
    case FileInode(_, start, size, words) =>
      var content :- ReadData(c, img, start, words, sb.blockSize, size);
      Some(IsFile(content))
    case SymlinkInode(_, nlink, target) => Some(IsSymlink(nlink, target))
    case DeviceInode(_, block, nlink, dev) => Some(IsDevice(block, nlink, DeviceMajor(dev), DeviceMinor(dev)))
    case IpcInode(_, socket, nlink) => Some(IsIpc(socket, nlink))
  }

  function ReadStat(c: Codec, img: seq<Byte>, sb: Super, i: Inode): Option<Stat> {
    var uid :- ReadId(c, img, sb.idStart, i.h.uidIdx);
    var gid :- ReadId(c, img, sb.idStart, i.h.gidIdx);
    var node :- ReadNode(c, img, sb, i);
    Some(Stat(i.h.ino, i.h.perm, uid, gid, i.h.mtime, node))
  }

  /** What is found at `p` in the image, if anything. */
  function StatPath(c: Codec, img: seq<Byte>, p: Path): Option<Stat> {
    var sb :- DecodeSuper(img);
    var i :- Lookup(c, img, sb, p);
    ReadStat(c, img, sb, i)
  }
}
