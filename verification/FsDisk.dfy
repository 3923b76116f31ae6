/** The disk that fs/fsformat.c writes and fs/fs.c reads (inc/fs.h).  A block holds file data,
    block numbers or directory entries; a block never written is all zeros and can be read as
    any of these. */
module FsDisk {

  const BLKSIZE: nat := 4096
  const NDIRECT: nat := 10
  const NINDIRECT: nat := 1024
  const BLKFILES: nat := 16
  const MAXNAMELEN: nat := 128
  const MAXFILESIZE: nat := (NDIRECT + NINDIRECT) * BLKSIZE

  type Byte = b: int | 0 <= b < 256

  datatype File = File(name: string, size: nat, isDir: bool, direct: seq<nat>, indirect: nat)

  datatype Block = Zero | Bytes(bytes: seq<Byte>) | Slots(slots: seq<nat>) | Files(files: seq<File>)

  predicate BlockShaped(b: Block) {
    match b
    case Zero => true
    case Bytes(bytes) => |bytes| == BLKSIZE
    case Slots(slots) => |slots| == NINDIRECT
    case Files(files) => |files| == BLKFILES && forall k :: 0 <= k < BLKFILES ==> |files[k].direct| == NDIRECT
  }

  function NoFile(): File { File("", 0, false, seq(NDIRECT, i => 0), 0) }

  function AsBytes(b: Block): (r: seq<Byte>)
    requires BlockShaped(b)
    ensures |r| == BLKSIZE
  {
    if b.Bytes? then b.bytes else seq(BLKSIZE, i => 0)
  }

  function AsSlots(b: Block): (r: seq<nat>)
    requires BlockShaped(b)
    ensures |r| == NINDIRECT
  {
    if b.Slots? then b.slots else seq(NINDIRECT, i => 0)
  }

  function AsFiles(b: Block): (r: seq<File>)
    requires BlockShaped(b)
    ensures |r| == BLKFILES && forall k :: 0 <= k < BLKFILES ==> |r[k].direct| == NDIRECT
  {
    if b.Files? then b.files else seq(BLKFILES, i => NoFile())
  }

  ghost predicate Shaped(blocks: seq<Block>) {
    forall b {:trigger blocks[b]} :: 0 <= b < |blocks| ==> BlockShaped(blocks[b])
  }

  // How many blocks a file of this length takes.
  function NBlocks(len: nat): nat { (len + BLKSIZE - 1) / BLKSIZE }

  // The block number of a file's i-th block: the slot file_block_walk points at.
  function SlotOf(blocks: seq<Block>, f: File, i: nat): nat
    requires Shaped(blocks) && |f.direct| == NDIRECT && i < NDIRECT + NINDIRECT
  {
    if i < NDIRECT then f.direct[i]
    else if f.indirect < |blocks| then AsSlots(blocks[f.indirect])[i - NDIRECT]
    else 0
  }

  // The i-th block of file contents, zeros after the end.
  function Chunk(content: seq<Byte>, i: nat): (r: seq<Byte>)
    requires i < NBlocks(|content|)
    ensures |r| == BLKSIZE
  {
    seq(BLKSIZE, k requires 0 <= k => if BLKSIZE * i + k < |content| then content[BLKSIZE * i + k] else 0)
  }

  // Slots of f's first n blocks are filled, with blocks below `limit`.
  ghost predicate Mapped(blocks: seq<Block>, f: File, n: nat, limit: nat)
    requires Shaped(blocks) && limit <= |blocks|
  {
    && |f.direct| == NDIRECT && n <= NDIRECT + NINDIRECT
    && (n > NDIRECT ==> 0 < f.indirect < limit)
    && (forall i {:trigger SlotOf(blocks, f, i)} :: 0 <= i < n ==> 0 < SlotOf(blocks, f, i) < limit)
  }

  // f is a file with these contents.
  ghost predicate Stored(blocks: seq<Block>, f: File, content: seq<Byte>, limit: nat)
    requires Shaped(blocks) && limit <= |blocks|
  {
    && f.size == |content| && Mapped(blocks, f, NBlocks(|content|), limit)
    && (forall i {:trigger SlotOf(blocks, f, i)} :: 0 <= i < NBlocks(|content|) ==> blocks[SlotOf(blocks, f, i)] == Bytes(Chunk(content, i)))
  }

  // The k-th entry of a directory.
  function Entry(blocks: seq<Block>, dir: File, k: nat): File
    requires Shaped(blocks) && |dir.direct| == NDIRECT && k / BLKFILES < NDIRECT + NINDIRECT
  {
    var b := SlotOf(blocks, dir, k / BLKFILES);
    if b < |blocks| then AsFiles(blocks[b])[k % BLKFILES] else NoFile()
  }

  // A file to be put on the disk: its name without directories, and its bytes.
  datatype Source = Source(name: string, content: seq<Byte>)

  predicate GoodName(name: string) {
    0 < |name| < 128 && forall k :: 0 <= k < |name| ==> name[k] != '/' && name[k] != '\0'
  }

  // Blocks of a directory of n files; an empty one gets a block all the same.
  function DirBlocks(n: nat): nat { if n == 0 then 1 else NBlocks(256 * n) }

  // The root directory lists the files in order, empty names after the last.
  ghost predicate Formatted(blocks: seq<Block>, root: File, files: seq<Source>) {
    && Shaped(blocks) && root.isDir && root.size == DirBlocks(|files|) * BLKSIZE && |files| <= 128
    && Mapped(blocks, root, DirBlocks(|files|), |blocks|)
    && (forall k {:trigger Entry(blocks, root, k)} :: 0 <= k < DirBlocks(|files|) * BLKFILES ==>
          if k < |files|
          then
            && Entry(blocks, root, k).name == files[k].name && !Entry(blocks, root, k).isDir
            && Stored(blocks, Entry(blocks, root, k), files[k].content, |blocks|)
          else Entry(blocks, root, k).name == "")
  }
}
