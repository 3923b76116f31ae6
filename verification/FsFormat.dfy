/** fs/fsformat.c: lays files out on an empty disk. */
module FsFormat {
  import opened FsDisk

  const MAX_DIR_ENTS: nat := 128
  const BLKBITSIZE: nat := 8 * BLKSIZE

  // #define ROUNDUP(n, v), on uint32_t and on int operands
  function RoundUp32(n: nat): nat { ((n - 1) % 0x1_0000_0000 + BLKSIZE - (n - 1) % 0x1_0000_0000 % BLKSIZE) % 0x1_0000_0000 }
  function RoundUpInt(n: int): int { n - 1 + BLKSIZE - (if n > 0 then (n - 1) % BLKSIZE else -((1 - n) % BLKSIZE)) }

  // The two agree except on 0, which the second takes to a whole block.
  lemma RoundUps(n: nat)
    requires n <= 0xffff_f000
    ensures RoundUp32(n) == BLKSIZE * NBlocks(n)
    ensures RoundUpInt(n) == if n == 0 then BLKSIZE else BLKSIZE * NBlocks(n)
  {
    if n > 0 {
      var q, r := (n - 1) / BLKSIZE, (n - 1) % BLKSIZE;
      assert n + BLKSIZE - 1 == BLKSIZE * (q + 1) + r;
      assert NBlocks(n) == q + 1;
      assert (n - 1) % 0x1_0000_0000 == n - 1;
      assert RoundUpInt(n) == BLKSIZE * (q + 1);
    }
  }

  // Blocks taken by a file, with its indirect block.
  function Need(len: nat): nat { NBlocks(len) + if NBlocks(len) >= NDIRECT then 1 else 0 }

  function Needs(files: seq<Source>): nat {
    if files == [] then 0 else Needs(files[..|files| - 1]) + Need(|files[|files| - 1].content|)
  }

  lemma NeedsMore(files: seq<Source>, k: nat)
    requires k < |files|
    ensures Needs(files[..k + 1]) == Needs(files[..k]) + Need(|files[k].content|)
  {
    assert files[..k + 1][..k] == files[..k];
  }

  lemma {:induction false} NeedsGrow(files: seq<Source>, k: nat)
    requires k <= |files|
    ensures Needs(files[..k]) <= Needs(files)
    decreases |files| - k
  {
    if k < |files| {
      NeedsMore(files, k);
      NeedsGrow(files, k + 1);
    } else {
      assert files[..k] == files;
    }
  }

  // Where the file blocks start: after the boot block, the super block and the bitmap.
  function DataStart(nblocks: nat): nat { 2 + (nblocks + BLKBITSIZE - 1) / BLKBITSIZE }

  ghost predicate FilesFit(nblocks: nat, files: seq<Source>) {
    && |files| <= MAX_DIR_ENTS
    && (forall k :: 0 <= k < |files| ==> |files[k].content| < MAXFILESIZE)
    && DataStart(nblocks) + Needs(files) < nblocks
  }

  ghost predicate Fits(nblocks: nat, files: seq<Source>) {
    FilesFit(nblocks, files) && DataStart(nblocks) + Needs(files) + NBlocks(256 * |files|) < nblocks
  }

  // How much fits: the bitmap has a bit for each block, and no block more than that takes; a
  // file has up to 1034 blocks, and an indirect block from its tenth block on.
  lemma WhatFits(nblocks: nat, len: nat)
    ensures 32768 * (DataStart(nblocks) - 2) >= nblocks && (nblocks > 0 ==> 32768 * (DataStart(nblocks) - 3) < nblocks)
    ensures len < MAXFILESIZE <==> len < 1034 * 4096
    ensures Need(len) == (len + 4095) / 4096 + (if len > 9 * 4096 then 1 else 0)
  {
  }

  // ---------------------------------------------------------------- what later writes keep

  lemma SlotKept(blocks: seq<Block>, after: seq<Block>, f: File, i: nat, limit: nat)
    requires Shaped(blocks) && Shaped(after) && limit <= |blocks| == |after| && blocks[..limit] == after[..limit]
    requires |f.direct| == NDIRECT && i < NDIRECT + NINDIRECT && (i >= NDIRECT ==> f.indirect < limit)
    ensures SlotOf(after, f, i) == SlotOf(blocks, f, i)
  {
    if i >= NDIRECT { assert blocks[..limit][f.indirect] == after[..limit][f.indirect]; }
  }

  lemma StoredKept(blocks: seq<Block>, after: seq<Block>, f: File, content: seq<Byte>, limit: nat, more: nat)
    requires Shaped(blocks) && Shaped(after) && limit <= more <= |blocks| == |after| && blocks[..limit] == after[..limit]
    requires Stored(blocks, f, content, limit)
    ensures Stored(after, f, content, more)
  {
    forall i | 0 <= i < NBlocks(|content|)
      ensures 0 < SlotOf(after, f, i) < more && after[SlotOf(after, f, i)] == Bytes(Chunk(content, i))
    {
      SlotKept(blocks, after, f, i, limit);
      assert blocks[..limit][SlotOf(blocks, f, i)] == after[..limit][SlotOf(blocks, f, i)];
    }
  }

  // The entries made so far are files with their contents.
  ghost predicate Listed(blocks: seq<Block>, ents: seq<File>, files: seq<Source>, k: nat, limit: nat)
    requires Shaped(blocks) && limit <= |blocks| && k <= |ents| && k <= |files|
  {
    forall j {:trigger ents[j]} :: 0 <= j < k ==>
      ents[j].name == files[j].name && !ents[j].isDir && Stored(blocks, ents[j], files[j].content, limit)
  }

  lemma ListedKept(blocks: seq<Block>, after: seq<Block>, ents: seq<File>, later: seq<File>, files: seq<Source>, k: nat, limit: nat, more: nat)
    requires Shaped(blocks) && Shaped(after) && limit <= more <= |blocks| == |after| && blocks[..limit] == after[..limit]
    requires k <= |ents| && k <= |later| && k <= |files| && ents[..k] == later[..k]
    requires Listed(blocks, ents, files, k, limit)
    ensures Listed(after, later, files, k, more)
  {
    forall j | 0 <= j < k
      ensures later[j].name == files[j].name && !later[j].isDir && Stored(after, later[j], files[j].content, more)
    {
      assert ents[..k][j] == later[..k][j];
      StoredKept(blocks, after, ents[j], files[j].content, limit, more);
    }
  }

  // The i-th directory block: sixteen entries, zeros after the last.
  function DirSlot(ents: seq<File>, n: nat, k: nat): (f: File)
    requires n <= |ents| && forall k :: 0 <= k < |ents| ==> |ents[k].direct| == NDIRECT
    ensures |f.direct| == NDIRECT
  {
    if k < n then ents[k] else NoFile()
  }

  function DirFiles(ents: seq<File>, n: nat, b: nat): (r: seq<File>)
    requires n <= |ents| && forall k :: 0 <= k < |ents| ==> |ents[k].direct| == NDIRECT
    ensures |r| == BLKFILES && forall k {:trigger r[k]} :: 0 <= k < BLKFILES ==> r[k] == DirSlot(ents, n, BLKFILES * b + k)
  {
    seq(BLKFILES, k requires 0 <= k => DirSlot(ents, n, BLKFILES * b + k))
  }

  function DirBlock(ents: seq<File>, n: nat, b: nat): (r: Block)
    requires n <= |ents| && forall k :: 0 <= k < |ents| ==> |ents[k].direct| == NDIRECT
    ensures BlockShaped(r)
  {
    Files(DirFiles(ents, n, b))
  }

  class Formatter {
    const blocks: array<Block>     // the disk, mapped at diskmap
    const bitmap: array<bool>      // a bit for each block, 1 when it is free
    const ents: array<File>        // the directory being built, in memory that malloc left as it was
    var diskpos: nat               // in blocks
    var root: File
    var n: nat

    ghost predicate Valid()
      reads this, blocks, ents
    {
      && ents.Length == MAX_DIR_ENTS && n <= MAX_DIR_ENTS
      && (forall k {:trigger ents[k]} :: 0 <= k < ents.Length ==> |ents[k].direct| == NDIRECT)
      && Shaped(blocks[..]) && |root.direct| == NDIRECT
      && 0 < diskpos && forall b {:trigger blocks[b]} :: diskpos <= b < blocks.Length ==> blocks[b].Zero?
    }

    ghost predicate Separate()
      reads this
    {
      blocks as object != ents && blocks as object != bitmap && ents as object != bitmap
    }

    // fs/fsformat.c:81; ok is false where the program gives up
    method Alloc(bytes: nat) returns (start: nat, ok: bool)
      requires bytes <= 0xffff_f000
      modifies `diskpos
      ensures start == old(diskpos) && diskpos == old(diskpos) + NBlocks(bytes)
      ensures ok <==> diskpos < blocks.Length
    {
      start := diskpos;
      RoundUps(bytes);
      diskpos := diskpos + RoundUp32(bytes) / BLKSIZE;
      ok := diskpos < blocks.Length;
    }

    // fs/fsformat.c:134
    method FinishFile(f: File, start: nat, len: nat) returns (g: File, ok: bool)
      requires Valid() && Separate() && |f.direct| == NDIRECT && 0 < start && diskpos < blocks.Length
      requires len < MAXFILESIZE
      modifies `diskpos, blocks
      ensures g.name == f.name && g.isDir == f.isDir && g.size == len && |g.direct| == NDIRECT
      ensures diskpos == old(diskpos) + (if NBlocks(len) >= NDIRECT then 1 else 0)
      ensures ok <==> diskpos < blocks.Length
      ensures blocks[..old(diskpos)] == old(blocks[..diskpos])
      ensures ok ==> Valid() && (NBlocks(len) > NDIRECT ==> 0 < g.indirect < diskpos)
      ensures ok ==> forall i {:trigger SlotOf(blocks[..], g, i)} :: 0 <= i < NBlocks(len) ==> SlotOf(blocks[..], g, i) == start + i
    {
      RoundUps(len);
      var nb := RoundUp32(len) / BLKSIZE;
      g := f.(size := len);
      var i := 0;
      while i < nb && i < NDIRECT
        invariant 0 <= i <= nb && i <= NDIRECT && |g.direct| == NDIRECT
        invariant g.name == f.name && g.isDir == f.isDir && g.size == len
        invariant forall k :: 0 <= k < i ==> g.direct[k] == start + k
      {
        g := g.(direct := g.direct[i := start + i]);
        i := i + 1;
      }
      ok := true;
      if i == NDIRECT {
        var ind;
        ind, ok := Alloc(BLKSIZE);
        if !ok { return; }
        g := g.(indirect := ind);
        FillIndirect(ind, start, nb);
      }
      forall k: nat | k < nb ensures SlotOf(blocks[..], g, k) == start + k {}
    }

    // ind[i - NDIRECT] = start + i for the remaining blocks
    method FillIndirect(ind: nat, start: nat, nb: nat)
      requires Valid() && ind + 1 == diskpos < blocks.Length && blocks[ind].Zero? && NDIRECT <= nb <= NDIRECT + NINDIRECT
      modifies blocks
      ensures Valid() && blocks[..ind] == old(blocks[..ind])
      ensures blocks[ind].Slots? && forall j :: 0 <= j < nb - NDIRECT ==> AsSlots(blocks[ind])[j] == start + NDIRECT + j
    {
      ghost var before := blocks[..];
      var slots: seq<nat> := AsSlots(blocks[ind]);
      var i := NDIRECT;
      while i < nb
        invariant NDIRECT <= i <= nb && |slots| == NINDIRECT
        invariant forall j :: 0 <= j < i - NDIRECT ==> slots[j] == start + NDIRECT + j
      {
        slots := slots[i - NDIRECT := start + i];
        i := i + 1;
      }
      blocks[ind] := Slots(slots);
      assert blocks[..] == before[ind := Slots(slots)];
    }

    // readn into blocks already allocated
    method PutData(start: nat, content: seq<Byte>)
      requires Valid() && Separate() && start + NBlocks(|content|) <= diskpos <= blocks.Length
      modifies blocks
      ensures Valid() && blocks[..start] == old(blocks[..start])
      ensures forall i :: 0 <= i < NBlocks(|content|) ==> blocks[start + i] == Bytes(Chunk(content, i))
    {
      var i := 0;
      while i < NBlocks(|content|)
        invariant 0 <= i <= NBlocks(|content|) && Valid()
        invariant blocks[..start] == old(blocks[..start])
        invariant forall k :: 0 <= k < i ==> blocks[start + k] == Bytes(Chunk(content, k))
      {
        blocks[start + i] := Bytes(Chunk(content, i));
        i := i + 1;
      }
    }

    // fs/fsformat.c:158, 180
    method WriteFile(file: Source) returns (ok: bool)
      requires Valid() && Separate() && GoodName(file.name) && diskpos < blocks.Length
      modifies `diskpos, `n, blocks, ents
      ensures ok <==> old(n) < MAX_DIR_ENTS && |file.content| < MAXFILESIZE && old(diskpos) + Need(|file.content|) < blocks.Length
      ensures ok ==> Valid() && n == old(n) + 1 && diskpos == old(diskpos) + Need(|file.content|)
      ensures ok ==> ents[..old(n)] == old(ents[..n]) && blocks[..old(diskpos)] == old(blocks[..diskpos])
      ensures ok ==> ents[old(n)].name == file.name && !ents[old(n)].isDir
      ensures ok ==> Stored(blocks[..], ents[old(n)], file.content, diskpos)
    {
      if |file.content| >= MAXFILESIZE { return false; }
      if n >= MAX_DIR_ENTS { return false; }
      var f := ents[n].(name := file.name, isDir := false);
      var start;
      start, ok := Alloc(|file.content|);
      if !ok { return; }
      PutData(start, file.content);
      ghost var data := blocks[..];
      f, ok := FinishFile(f, start, |file.content|);
      if !ok { return; }
      ghost var was := blocks[..];
      forall i: nat | i < NBlocks(|file.content|) ensures was[start + i] == Bytes(Chunk(file.content, i)) {
        assert was[..start + NBlocks(|file.content|)][start + i] == data[..start + NBlocks(|file.content|)][start + i];
      }
      ents[n] := f;
      n := n + 1;
    }

    // memmove of the directory, a block at a time
    method PutDir(start: nat)
      requires Valid() && Separate() && 0 < start && start + NBlocks(256 * n) <= diskpos <= blocks.Length
      modifies blocks
      ensures Valid() && blocks[..start] == old(blocks[..start])
      ensures forall b :: 0 <= b < NBlocks(256 * n) ==> blocks[start + b] == DirBlock(ents[..], n, b)
    {
      var b := 0;
      while b < NBlocks(256 * n)
        invariant 0 <= b <= NBlocks(256 * n) && Valid() && ents[..] == old(ents[..])
        invariant blocks[..start] == old(blocks[..start])
        invariant forall c :: 0 <= c < b ==> blocks[start + c] == DirBlock(ents[..], n, c)
      {
        blocks[start + b] := DirBlock(ents[..], n, b);
        b := b + 1;
      }
    }

    // fs/fsformat.c:170
    method FinishDir() returns (ok: bool)
      requires Valid() && Separate() && diskpos < blocks.Length
      modifies `diskpos, `root, blocks
      ensures ok <==> old(diskpos) + NBlocks(256 * n) < blocks.Length
      ensures diskpos == old(diskpos) + NBlocks(256 * n)
      ensures ok ==> Valid() && blocks[..old(diskpos)] == old(blocks[..diskpos])
      ensures ok ==> root.name == old(root).name && root.isDir == old(root).isDir && root.size == DirBlocks(n) * BLKSIZE
      ensures ok ==> forall b {:trigger SlotOf(blocks[..], root, b)} :: 0 <= b < DirBlocks(n) ==>
                SlotOf(blocks[..], root, b) == old(diskpos) + b && blocks[old(diskpos) + b] == if n == 0 then Zero else DirBlock(ents[..], n, b)
    {
      var start;
      start, ok := Alloc(256 * n);
      if !ok { return; }
      PutDir(start);
      ghost var data := blocks[..];
      RoundUps(256 * n);
      DirSize(n);
      root, ok := FinishFile(root, start, RoundUpInt(256 * n));
      ghost var was := blocks[..];
      forall b: nat | b < NBlocks(256 * n) ensures was[start + b] == DirBlock(ents[..], n, b) {
        assert was[..diskpos][start + b] == data[..diskpos][start + b];
      }
    }

    constructor (nblocks: nat, junk: seq<File>)
      requires |junk| == MAX_DIR_ENTS && forall k :: 0 <= k < |junk| ==> |junk[k].direct| == NDIRECT
      ensures Separate() && blocks.Length == nblocks && bitmap.Length == nblocks && ents.Length == MAX_DIR_ENTS
      ensures forall k :: 0 <= k < MAX_DIR_ENTS ==> |ents[k].direct| == NDIRECT
      ensures n == 0 && diskpos == 0 && root == NoFile() && forall b :: 0 <= b < nblocks ==> blocks[b] == Zero
      ensures fresh(blocks) && fresh(bitmap) && fresh(ents)
    {
      blocks := new Block[nblocks](i => Zero);
      bitmap := new bool[nblocks](i => false);
      ents := new File[MAX_DIR_ENTS](i requires 0 <= i < |junk| => junk[i]);
      n, diskpos, root := 0, 0, NoFile();
    }

    // fs/fsformat.c:92, once the file is mapped
    method OpenDisk() returns (ok: bool)
      requires Separate() && bitmap.Length == blocks.Length < 0x1_0000 && diskpos == 0
      modifies `diskpos, `root, bitmap
      ensures ok <==> DataStart(blocks.Length) < blocks.Length
      ensures ok ==> diskpos == DataStart(blocks.Length) && root == old(root).(isDir := true, name := "/")
      ensures ok ==> forall b :: 0 <= b < bitmap.Length ==> bitmap[b]
    {
      var start;
      start, ok := Alloc(BLKSIZE);
      if !ok { return; }
      start, ok := Alloc(BLKSIZE);
      if !ok { return; }
      root := root.(isDir := true, name := "/");
      var nbit := (blocks.Length + BLKBITSIZE - 1) / BLKBITSIZE;
      assert NBlocks(nbit * BLKSIZE) == nbit;
      start, ok := Alloc(nbit * BLKSIZE);
      if !ok { return; }
      forall b | 0 <= b < bitmap.Length { bitmap[b] := true; }
    }

    // fs/fsformat.c:123
    method FinishDisk()
      requires Separate() && bitmap.Length == blocks.Length && diskpos <= blocks.Length
      modifies bitmap
      ensures forall b :: 0 <= b < bitmap.Length ==> bitmap[b] == (b >= diskpos && old(bitmap[b]))
    {
      var i := 0;
      while i < diskpos
        invariant 0 <= i <= diskpos
        invariant forall b :: 0 <= b < bitmap.Length ==> bitmap[b] == (b >= i && old(bitmap[b]))
      {
        bitmap[i] := false;
        i := i + 1;
      }
    }

    ghost predicate Opened()
      reads this, blocks, bitmap, ents
    {
      && Separate() && Valid() && bitmap.Length == blocks.Length < 0x1_0000 && root == NoFile().(isDir := true, name := "/")
      && diskpos < blocks.Length && forall b :: 0 <= b < bitmap.Length ==> bitmap[b]
    }

    // The state after the first i files.
    ghost predicate Written(files: seq<Source>, i: nat)
      reads this, blocks, bitmap, ents
    {
      && i <= |files| && n == i && Opened() && diskpos == DataStart(blocks.Length) + Needs(files[..i])
      && (forall k :: 0 <= k < i ==> |files[k].content| < MAXFILESIZE)
      && Listed(blocks[..], ents[..], files, i, diskpos)
    }

    method WriteNext(files: seq<Source>, i: nat) returns (ok: bool)
      requires i < |files| && Written(files, i) && GoodName(files[i].name)
      modifies `diskpos, `n, blocks, ents
      ensures ok ==> Written(files, i + 1)
      ensures !ok ==> !FilesFit(blocks.Length, files)
    {
      ghost var was, list, limit := blocks[..], ents[..], diskpos;
      ok := WriteFile(files[i]);
      NeedsMore(files, i);
      NeedsGrow(files, i + 1);
      if !ok { return; }
      assert ents[..i] == ents[..][..i];
      ListedKept(was, blocks[..], list, ents[..], files, i, limit, diskpos);
    }

    method WriteFiles(files: seq<Source>) returns (ok: bool)
      requires Opened() && n == 0 && diskpos == DataStart(blocks.Length)
      requires forall k :: 0 <= k < |files| ==> GoodName(files[k].name)
      modifies this, blocks, ents
      ensures ok <==> FilesFit(blocks.Length, files)
      ensures ok ==> Opened() && n == |files| && diskpos == DataStart(blocks.Length) + Needs(files)
      ensures ok ==> Listed(blocks[..], ents[..], files, n, diskpos)
    {
      var i := 0;
      assert files[..0] == [];
      while i < |files|
        invariant 0 <= i <= |files| && Written(files, i)
      {
        ok := WriteNext(files, i);
        if !ok { return; }
        i := i + 1;
      }
      assert files[..i] == files;
      ok := true;
    }

    // finishdir and finishdisk
    method Finish(files: seq<Source>) returns (ok: bool)
      requires Opened() && n == |files| <= MAX_DIR_ENTS && Listed(blocks[..], ents[..], files, n, diskpos)
      modifies `diskpos, `root, blocks, bitmap
      ensures ok <==> old(diskpos) + NBlocks(256 * |files|) < blocks.Length
      ensures ok ==> diskpos == old(diskpos) + NBlocks(256 * |files|)
      ensures ok ==> Formatted(blocks[..], root, files) && forall b :: 0 <= b < bitmap.Length ==> (bitmap[b] <==> b >= diskpos)
    {
      ghost var was, limit := blocks[..], diskpos;
      ok := FinishDir();
      if !ok { return; }
      ListedKept(was, blocks[..], ents[..], ents[..], files, n, limit, diskpos);
      FinishDisk();
      ListedIsFormatted(blocks[..], root, ents[..], files, limit, diskpos);
    }

    // main: files in, a disk out
    method Format(files: seq<Source>) returns (ok: bool)
      requires Separate() && bitmap.Length == blocks.Length < 0x1_0000 && ents.Length == MAX_DIR_ENTS
      requires diskpos == 0 && n == 0 && root == NoFile() && forall b :: 0 <= b < blocks.Length ==> blocks[b] == Zero
      requires forall k :: 0 <= k < MAX_DIR_ENTS ==> |ents[k].direct| == NDIRECT
      requires forall k :: 0 <= k < |files| ==> GoodName(files[k].name)
      modifies this, blocks, bitmap, ents
      ensures ok <==> Fits(blocks.Length, files)
      ensures ok ==> Formatted(blocks[..], root, files)
      ensures ok ==> forall b :: 0 <= b < bitmap.Length ==> (bitmap[b] <==> b >= diskpos)
      ensures ok ==> diskpos == DataStart(blocks.Length) + Needs(files) + NBlocks(256 * |files|)
    {
      ok := OpenDisk();
      if !ok { return; }
      ok := WriteFiles(files);
      if !ok { return; }
      ok := Finish(files);
    }
  }

  lemma DirSize(n: nat)
    requires n <= MAX_DIR_ENTS
    ensures NBlocks(256 * n) <= 8 && NBlocks(DirBlocks(n) * BLKSIZE) == DirBlocks(n) && DirBlocks(n) * BLKSIZE < MAXFILESIZE
    ensures n > 0 ==> DirBlocks(n) == NBlocks(256 * n) && BLKFILES * (DirBlocks(n) - 1) < n <= BLKFILES * DirBlocks(n)
  {
  }

  lemma ListedIsFormatted(blocks: seq<Block>, root: File, ents: seq<File>, files: seq<Source>, start: nat, limit: nat)
    requires Shaped(blocks) && 0 < start && limit < |blocks| && |ents| == MAX_DIR_ENTS && |files| <= MAX_DIR_ENTS
    requires limit == start + NBlocks(256 * |files|)
    requires forall k :: 0 <= k < |ents| ==> |ents[k].direct| == NDIRECT
    requires Listed(blocks, ents, files, |files|, limit)
    requires root.isDir && root.size == DirBlocks(|files|) * BLKSIZE && |root.direct| == NDIRECT
    requires forall b {:trigger SlotOf(blocks, root, b)} :: 0 <= b < DirBlocks(|files|) ==>
               SlotOf(blocks, root, b) == start + b && blocks[start + b] == if |files| == 0 then Zero else DirBlock(ents, |files|, b)
    ensures Formatted(blocks, root, files)
  {
    DirSize(|files|);
    forall k: nat | k < DirBlocks(|files|) * BLKFILES
      ensures if k < |files|
              then
                && Entry(blocks, root, k).name == files[k].name && !Entry(blocks, root, k).isDir
                && Stored(blocks, Entry(blocks, root, k), files[k].content, |blocks|)
              else Entry(blocks, root, k).name == ""
    {
      var b := k / BLKFILES;
      assert SlotOf(blocks, root, b) == start + b;
      if k < |files| {
        assert Entry(blocks, root, k) == DirSlot(ents, |files|, k) == ents[k];
        StoredKept(blocks, blocks, ents[k], files[k].content, limit, |blocks|);
      } else {
        assert Entry(blocks, root, k) == NoFile();
      }
    }
  }
}
