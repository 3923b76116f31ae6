/** fs/fs.c: finding a file by its path and reading it, on a disk that FsFormat has laid out. */
module FsRead {
  import opened FsDisk
  import opened FsFormat

  const E_INVAL: int := 3
  const E_NO_DISK: int := 9
  const E_BAD_PATH: int := 12
  const E_NOT_FOUND: int := 11

  // A pointer to a struct File: in the super block, or in a directory block.
  datatype Ref = Root | InBlock(b: nat, k: nat)

  // A pointer to a block number: in a struct File, or in an indirect block.
  datatype SlotRef = Direct(i: nat) | Indirect(b: nat, i: nat)

  function Min(a: nat, b: nat): nat { if a <= b then a else b }

  // ---------------------------------------------------------------- paths

  // The end of the component that starts at the front of p, and of the slashes there.
  function Word(p: string): (n: nat)
    ensures n <= |p| && (forall k :: 0 <= k < n ==> p[k] != '/') && (n < |p| ==> p[n] == '/')
  {
    if p == [] || p[0] == '/' then 0 else 1 + Word(p[1..])
  }

  function SkipSlash(p: string): (r: string)
    ensures |r| <= |p| && (r == [] || r[0] != '/')
  {
    if p != [] && p[0] == '/' then SkipSlash(p[1..]) else p
  }

  // The names in a path, between any number of slashes.
  function Components(p: string): seq<string>
    decreases |p|
  {
    var q := SkipSlash(p);
    if q == [] then [] else [q[..Word(q)]] + Components(q[Word(q)..])
  }

  predicate Slashes(s: string) { forall k :: 0 <= k < |s| ==> s[k] == '/' }

  lemma {:induction false} SkipsAll(s: string, p: string)
    requires Slashes(s) && (p == [] || p[0] != '/')
    ensures SkipSlash(s + p) == p
  {
    if s == [] {
      assert s + p == p;
    } else {
      assert (s + p)[1..] == s[1..] + p;
      SkipsAll(s[1..], p);
    }
  }

  lemma {:induction false} WordOf(name: string, rest: string)
    requires (forall k :: 0 <= k < |name| ==> name[k] != '/') && (rest == [] || rest[0] == '/')
    ensures Word(name + rest) == |name|
  {
    if name == [] {
      assert name + rest == rest;
    } else {
      assert (name + rest)[1..] == name[1..] + rest;
      WordOf(name[1..], rest);
    }
  }

  // However many slashes surround a name, it is the path's one component.
  lemma OneComponent(before: string, name: string, after: string)
    requires Slashes(before) && Slashes(after) && GoodName(name)
    ensures Components(before + name + after) == [name]
  {
    var p := before + name + after;
    assert p == before + (name + after);
    SkipsAll(before, name + after);
    WordOf(name, after);
    assert (name + after)[|name|..] == after && (name + after)[..|name|] == name;
    SkipsAll(after, []);
    assert after + [] == after;
  }

  // ---------------------------------------------------------------- what a path names

  datatype Node = TheRoot | AFile(k: nat)
  datatype Walk = Reached(node: Node) | Failed(error: int)

  // The first file of that name.
  function Find(files: seq<Source>, name: string): (k: nat)
    ensures k <= |files| && (k < |files| ==> files[k].name == name)
    ensures forall j :: 0 <= j < k ==> files[j].name != name
  {
    if files == [] || files[0].name == name then 0 else 1 + Find(files[1..], name)
  }

  function Resolve(files: seq<Source>, at: Node, names: seq<string>): Walk
    decreases |names|
  {
    if names == [] then Reached(at)
    else if |names[0]| >= MAXNAMELEN then Failed(-E_BAD_PATH)
    else if at.AFile? || Find(files, names[0]) == |files| then Failed(-E_NOT_FOUND)
    else Resolve(files, AFile(Find(files, names[0])), names[1..])
  }

  // ---------------------------------------------------------------- the server

  class FileServer {
    const blocks: array<Block>
    const bitmap: array<bool>      // a 0 bit is taken to mean free
    var root: File                 // in the super block

    constructor (blocks: array<Block>, bitmap: array<bool>, root: File)
      ensures this.blocks == blocks && this.bitmap == bitmap && this.root == root
    {
      this.blocks, this.bitmap, this.root := blocks, bitmap, root;
    }

    ghost predicate Good()
      reads this, blocks
    {
      Shaped(blocks[..]) && bitmap.Length == blocks.Length && |root.direct| == NDIRECT && blocks as object != bitmap
    }

    predicate RefOk(ref: Ref)
      reads this
    {
      ref.Root? || (ref.b < blocks.Length && ref.k < BLKFILES)
    }

    function Deref(ref: Ref): (f: File)
      requires Good() && RefOk(ref)
      reads this, blocks
      ensures |f.direct| == NDIRECT
    {
      if ref.Root? then root else assert BlockShaped(blocks[..][ref.b]); AsFiles(blocks[ref.b])[ref.k]
    }

    method SetFile(ref: Ref, f: File)
      requires Good() && RefOk(ref) && |f.direct| == NDIRECT
      modifies `root, blocks
      ensures Good()
    {
      if ref.Root? {
        root := f;
      } else {
        ghost var before := blocks[..];
        assert BlockShaped(before[ref.b]);
        blocks[ref.b] := Files(AsFiles(blocks[ref.b])[ref.k := f]);
        assert blocks[..] == before[ref.b := blocks[ref.b]];
      }
    }

    // fs/fs.c:123
    method AllocBlock() returns (r: int)
      requires Good()
      modifies bitmap
      ensures Good()
      ensures r == -E_NO_DISK || 2 <= r < blocks.Length
      ensures r >= 0 ==> !old(bitmap[r]) && forall b :: 2 <= b < r ==> old(bitmap[b])
      ensures r < 0 ==> forall b :: 2 <= b < blocks.Length ==> old(bitmap[b])
    {
      var b := 2;
      while b < blocks.Length
        invariant 2 <= b && bitmap[..] == old(bitmap[..])
        invariant forall c :: 2 <= c < b && c < blocks.Length ==> bitmap[c]
      {
        if !bitmap[b] {
          bitmap[b] := true;
          return b;
        }
        b := b + 1;
      }
      return -E_NO_DISK;
    }

    // The slot is there and filled.
    ghost predicate Present(ref: Ref, i: nat)
      requires Good() && RefOk(ref)
      reads this, blocks
    {
      && i < NDIRECT + NINDIRECT && (i >= NDIRECT ==> 0 < Deref(ref).indirect < blocks.Length)
      && 0 < SlotOf(blocks[..], Deref(ref), i) < blocks.Length
    }

    // fs/fs.c:64
    method FileBlockWalk(ref: Ref, i: nat, alloc: bool) returns (r: int, slot: SlotRef)
      requires Good() && RefOk(ref)
      modifies `root, blocks, bitmap
      ensures Good()
      ensures i >= NDIRECT + NINDIRECT ==> r == -E_INVAL
      ensures r == -E_NOT_FOUND ==> !alloc && old(Deref(ref)).indirect == 0
      ensures r == 0 ==> i < NDIRECT + NINDIRECT && slot == if i < NDIRECT then Direct(i) else Indirect(Deref(ref).indirect, i - NDIRECT)
      ensures i >= NDIRECT + NINDIRECT || i < NDIRECT || old(Deref(ref)).indirect != 0 || !alloc ==>
                blocks[..] == old(blocks[..]) && bitmap[..] == old(bitmap[..]) && root == old(root)
      ensures i < NDIRECT || (i < NDIRECT + NINDIRECT && old(Deref(ref)).indirect != 0) ==> r == 0
    {
      if i < NDIRECT {
        return 0, Direct(i);
      } else if i < NDIRECT + NINDIRECT {
        var f := Deref(ref);
        if f.indirect == 0 {
          if !alloc { return -E_NOT_FOUND, Direct(0); }
          var b := AllocBlock();
          if b < 0 { return -E_NO_DISK, Direct(0); }
          SetFile(ref, f.(indirect := b));
          blocks[b] := Zero;
          assert Good();
        }
        return 0, Indirect(Deref(ref).indirect, i - NDIRECT);
      } else {
        return -E_INVAL, Direct(0);
      }
    }

    // fs/fs.c:96
    method FileGetBlock(ref: Ref, i: nat) returns (r: int, blk: nat)
      requires Good() && RefOk(ref)
      modifies `root, blocks, bitmap
      ensures Good()
      ensures old(Present(ref, i)) ==>
                && r == 0 && blk == old(SlotOf(blocks[..], Deref(ref), i))
                && blocks[..] == old(blocks[..]) && bitmap[..] == old(bitmap[..]) && root == old(root)
    {
      blk := 0;
      var slot;
      r, slot := FileBlockWalk(ref, i, true);
      if r < 0 { return; }
      blk := ReadSlot(ref, slot);
      if blk == 0 {
        r := AllocBlock();
        if r < 0 { return; }
        blk := r;
        WriteSlot(ref, slot, blk);
        ghost var before := blocks[..];
        blocks[blk] := Zero;
        assert blocks[..] == before[blk := Zero];
        r := 0;
      }
    }

    function ReadSlot(ref: Ref, slot: SlotRef): nat
      requires Good() && RefOk(ref)
      reads this, blocks
    {
      match slot
      case Direct(i) => if i < NDIRECT then Deref(ref).direct[i] else 0
      case Indirect(b, i) =>
        if b < blocks.Length && i < NINDIRECT then assert BlockShaped(blocks[..][b]); AsSlots(blocks[b])[i] else 0
    }

    method WriteSlot(ref: Ref, slot: SlotRef, n: nat)
      requires Good() && RefOk(ref)
      modifies `root, blocks
      ensures Good()
    {
      match slot
      case Direct(i) =>
        if i < NDIRECT {
          var f := Deref(ref);
          SetFile(ref, f.(direct := f.direct[i := n]));
        }
      case Indirect(b, i) =>
        if b < blocks.Length && i < NINDIRECT {
          ghost var before := blocks[..];
          assert BlockShaped(before[b]);
          blocks[b] := Slots(AsSlots(blocks[b])[i := n]);
          assert blocks[..] == before[b := blocks[b]];
        }
    }

    // The loop over the entries of one directory block.
    method ScanBlock(blk: nat, name: string) returns (j: nat)
      requires Good() && blk < blocks.Length && BlockShaped(blocks[blk])
      ensures j <= BLKFILES && (forall k :: 0 <= k < j ==> AsFiles(blocks[blk])[k].name != name)
      ensures j < BLKFILES ==> AsFiles(blocks[blk])[j].name == name
    {
      j := 0;
      while j < BLKFILES
        invariant j <= BLKFILES && forall k :: 0 <= k < j ==> AsFiles(blocks[blk])[k].name != name
      {
        if AsFiles(blocks[blk])[j].name == name { return; }
        j := j + 1;
      }
    }

    ghost predicate Unchanged(disk: seq<Block>, bits: seq<bool>, r: File)
      reads this, blocks, bitmap
    {
      blocks[..] == disk && bitmap[..] == bits && root == r
    }

    // One round of dir_lookup's outer loop.
    method SearchBlock(dir: Ref, i: nat, name: string, ghost files: seq<Source>) returns (r: int, blk: nat, j: nat)
      requires Good() && RefOk(dir) && Formatted(blocks[..], Deref(dir), files) && i < DirBlocks(|files|)
      requires Absent(blocks[..], Deref(dir), files, name, BLKFILES * i)
      modifies `root, blocks, bitmap
      ensures Good() && Unchanged(old(blocks[..]), old(bitmap[..]), old(root)) && r == 0 && blk < blocks.Length && j <= BLKFILES
      ensures Absent(blocks[..], Deref(dir), files, name, BLKFILES * i + j)
      ensures j < BLKFILES ==> Deref(InBlock(blk, j)) == Entry(blocks[..], Deref(dir), BLKFILES * i + j)
      ensures j < BLKFILES ==> Deref(InBlock(blk, j)).name == name
    {
      assert Present(dir, i);
      r, blk := FileGetBlock(dir, i);
      ghost var disk, f := blocks[..], Deref(dir);
      assert BlockShaped(disk[blk]);
      j := ScanBlock(blk, name);
      BlockEntries(disk, f, files, name, i, j);
    }

    // fs/fs.c:142, in a directory that lists `files`
    method DirLookup(dir: Ref, name: string, ghost files: seq<Source>) returns (r: int, found: Ref)
      requires Good() && RefOk(dir) && Formatted(blocks[..], Deref(dir), files) && name != ""
      modifies `root, blocks, bitmap
      ensures Good() && Unchanged(old(blocks[..]), old(bitmap[..]), old(root))
      ensures Find(files, name) == |files| ==> r == -E_NOT_FOUND
      ensures Find(files, name) < |files| ==>
                r == 0 && RefOk(found) && Deref(found) == Entry(blocks[..], Deref(dir), Find(files, name))
    {
      DirSize(|files|);
      assert Deref(dir).size % BLKSIZE == 0;
      var nblock := Deref(dir).size / BLKSIZE;
      var i := 0;
      while i < nblock
        invariant 0 <= i <= nblock && Good() && Unchanged(old(blocks[..]), old(bitmap[..]), old(root))
        invariant Absent(blocks[..], Deref(dir), files, name, BLKFILES * i)
      {
        var blk, j;
        r, blk, j := SearchBlock(dir, i, name, files);
        if r < 0 { return r, Root; }
        if j < BLKFILES {
          FirstEntry(blocks[..], Deref(dir), files, name, BLKFILES * i + j);
          return 0, InBlock(blk, j);
        }
        i := i + 1;
      }
      NoEntry(blocks[..], Deref(dir), files, name);
      return -E_NOT_FOUND, Root;
    }

    // fs/fs.c:170
    method SkipSlashes(path: string, from: nat) returns (pos: nat)
      requires from <= |path|
      ensures from <= pos <= |path| && path[pos..] == SkipSlash(path[from..])
    {
      pos := from;
      while pos < |path| && path[pos] == '/'
        invariant from <= pos <= |path| && SkipSlash(path[pos..]) == SkipSlash(path[from..])
      {
        assert path[pos..][1..] == path[pos + 1..];
        pos := pos + 1;
      }
    }

    method SkipWord(path: string, from: nat) returns (pos: nat)
      requires from <= |path|
      ensures pos == from + Word(path[from..])
    {
      pos := from;
      while pos < |path| && path[pos] != '/'
        invariant from <= pos <= |path| && pos + Word(path[pos..]) == from + Word(path[from..])
      {
        assert path[pos..][1..] == path[pos + 1..];
        pos := pos + 1;
      }
    }

    // The component that starts at p, and where the next one starts.
    method NextName(path: string, p: nat) returns (name: string, pos: nat)
      requires p < |path| && path[p] != '/'
      ensures IsNext(path, p, name, pos) && name != ""
    {
      var q := SkipWord(path, p);
      NextComponent(path, p, q);
      name := path[p..q];
      pos := SkipSlashes(path, q);
    }

    // The pointer points at what has been reached.
    ghost predicate At(node: Node, f: Ref, files: seq<Source>)
      requires Good() && Formatted(blocks[..], root, files)
      reads this, blocks
    {
      && RefOk(f)
      && match node
         case TheRoot => f.Root?
         case AFile(k) => k < |files| && k / BLKFILES < NDIRECT && Deref(f) == Entry(blocks[..], root, k)
    }

    // One turn of walk_path's loop: the component path[p..q] is looked up.
    method Descend(f: Ref, name: string, ghost node: Node, ghost files: seq<Source>) returns (r: int, next: Ref)
      requires Good() && Formatted(blocks[..], root, files) && At(node, f, files) && name != ""
      modifies `root, blocks, bitmap
      ensures Good() && Unchanged(old(blocks[..]), old(bitmap[..]), old(root))
      ensures r == 0 <==> node.TheRoot? && Find(files, name) < |files|
      ensures r == 0 || r == -E_NOT_FOUND
      ensures r == 0 ==> At(AFile(Find(files, name)), next, files)
    {
      if node.AFile? { assert !Deref(f).isDir by { NameAt(blocks[..], root, files, node.k); } }
      if !Deref(f).isDir { return -E_NOT_FOUND, f; }
      r, next := DirLookup(f, name, files);
      if r == 0 { NameAt(blocks[..], root, files, Find(files, name)); DirSize(|files|); }
    }

    // One turn of walk_path's loop: the component that starts at p is looked up.
    method Turn(path: string, p: nat, f: Ref, ghost node: Node, ghost files: seq<Source>)
      returns (r: int, pos: nat, next: Ref, ghost reached: Node)
      requires Good() && Formatted(blocks[..], root, files) && At(node, f, files)
      requires p < |path| && OnCourse(files, node, path, p)
      modifies `root, blocks, bitmap
      ensures Good() && Unchanged(old(blocks[..]), old(bitmap[..]), old(root))
      ensures r < 0 ==> Resolve(files, TheRoot, Components(path)) == Failed(r)
      ensures p < pos <= |path| && (r < 0 || r == 0)
      ensures r == 0 ==> OnCourse(files, reached, path, pos) && At(reached, next, files)
    {
      var name, after := NextName(path, p);
      pos, next, reached := after, f, node;
      CourseStep(files, node, path, p, name, pos);
      if |name| >= MAXNAMELEN { return -E_BAD_PATH, pos, f, node; }
      r, next := Descend(f, name, node, files);
      reached := AFile(Find(files, name));
    }

    // fs/fs.c:184, for file_open
    method WalkPath(path: string, ghost files: seq<Source>) returns (r: int, f: Ref)
      requires Good() && Formatted(blocks[..], root, files)
      modifies `root, blocks, bitmap
      ensures Good() && Unchanged(old(blocks[..]), old(bitmap[..]), old(root))
      ensures match Resolve(files, TheRoot, Components(path))
              case Reached(node) => r == 0 && At(node, f, files)
              case Failed(error) => r == error
    {
      var pos := SkipSlashes(path, 0);
      f := Root;
      ghost var node := TheRoot;
      CourseStart(files, path, pos);
      while pos < |path|
        invariant pos <= |path| && OnCourse(files, node, path, pos)
        invariant Good() && Unchanged(old(blocks[..]), old(bitmap[..]), old(root)) && At(node, f, files)
        decreases |path| - pos
      {
        r, pos, f, node := Turn(path, pos, f, node, files);
        if r < 0 { return; }
      }
      CourseEnd(files, node, path, pos);
      return 0, f;
    }

    // fs/fs.c:250, for a file with these contents
    method FileRead(f: Ref, count: nat, offset: nat, ghost content: seq<Byte>) returns (r: int, buf: seq<Byte>)
      requires Good() && RefOk(f) && Stored(blocks[..], Deref(f), content, blocks.Length)
      modifies `root, blocks, bitmap
      ensures Good() && Unchanged(old(blocks[..]), old(bitmap[..]), old(root))
      ensures r == |buf| && buf == if offset >= |content| then [] else content[offset..Min(offset + count, |content|)]
    {
      buf := [];
      if offset >= Deref(f).size { return 0, buf; }
      var n := Min(count, Deref(f).size - offset);
      var pos := offset;
      while pos < offset + n
        invariant offset <= pos <= offset + n && Good() && Unchanged(old(blocks[..]), old(bitmap[..]), old(root))
        invariant buf == content[offset..pos]
      {
        BlockOf(|content|, pos);
        assert SlotOf(blocks[..], Deref(f), pos / BLKSIZE) > 0;
        assert Present(f, pos / BLKSIZE);
        var blk;
        r, blk := FileGetBlock(f, pos / BLKSIZE);
        if r < 0 { return; }
        assert blocks[..][blk] == Bytes(Chunk(content, pos / BLKSIZE));
        var bn := Min(BLKSIZE - pos % BLKSIZE, offset + n - pos);
        ChunkSlice(content, pos, bn);
        buf := buf + AsBytes(blocks[blk])[pos % BLKSIZE..pos % BLKSIZE + bn];
        assert content[offset..pos] + content[pos..pos + bn] == content[offset..pos + bn];
        pos := pos + bn;
      }
      r := n;
    }
  }

  lemma SkippedComponents(p: string, q: string)
    requires q == SkipSlash(p)
    ensures Components(q) == Components(p)
  {
    SkipsAll([], q);
    assert [] + q == q;
  }

  lemma NextComponent(path: string, p: nat, q: nat)
    requires p < |path| && path[p] != '/' && q == p + Word(path[p..])
    ensures p < q <= |path| && Components(path[p..]) == [path[p..q]] + Components(path[q..])
  {
    var rest := path[p..];
    SkipsAll([], rest);
    assert [] + rest == rest;
    assert rest[..q - p] == path[p..q] && rest[q - p..] == path[q..];
  }

  lemma ResolveTurn(files: seq<Source>, at: Node, name: string, rest: seq<string>)
    ensures Resolve(files, at, [name] + rest) ==
              if |name| >= MAXNAMELEN then Failed(-E_BAD_PATH)
              else if at.AFile? || Find(files, name) == |files| then Failed(-E_NOT_FOUND)
              else Resolve(files, AFile(Find(files, name)), rest)
  {
    assert ([name] + rest)[1..] == rest;
  }

  // From `node`, the rest of the path leads where the whole path leads from the root.
  predicate OnCourse(files: seq<Source>, node: Node, path: string, pos: nat)
    requires pos <= |path|
  {
    && (pos < |path| ==> path[pos] != '/')
    && Resolve(files, node, Components(path[pos..])) == Resolve(files, TheRoot, Components(path))
  }

  lemma CourseStart(files: seq<Source>, path: string, pos: nat)
    requires pos <= |path| && path[pos..] == SkipSlash(path[0..])
    ensures OnCourse(files, TheRoot, path, pos)
  {
    assert path[0..] == path;
    SkippedComponents(path, path[pos..]);
    assert pos < |path| ==> path[pos..][0] == path[pos];
  }

  predicate IsNext(path: string, p: nat, name: string, pos: nat) {
    && p + |name| <= pos <= |path| && p < pos && |name| == Word(path[p..]) && name == path[p..p + |name|]
    && path[pos..] == SkipSlash(path[p + |name|..])
  }

  lemma CourseStep(files: seq<Source>, node: Node, path: string, p: nat, name: string, pos: nat)
    requires p < |path| && OnCourse(files, node, path, p) && IsNext(path, p, name, pos)
    ensures if |name| >= MAXNAMELEN then Resolve(files, TheRoot, Components(path)) == Failed(-E_BAD_PATH)
            else if node.AFile? || Find(files, name) == |files| then Resolve(files, TheRoot, Components(path)) == Failed(-E_NOT_FOUND)
            else OnCourse(files, AFile(Find(files, name)), path, pos)
  {
    NameSplits(path, p, name, pos);
    ResolveTurn(files, node, name, Components(path[pos..]));
  }

  lemma NameSplits(path: string, p: nat, name: string, pos: nat)
    requires p < |path| && path[p] != '/' && IsNext(path, p, name, pos)
    ensures Components(path[p..]) == [name] + Components(path[pos..]) && (pos < |path| ==> path[pos] != '/')
  {
    NextComponent(path, p, p + |name|);
    SkippedComponents(path[p + |name|..], path[pos..]);
    assert pos < |path| ==> path[pos..][0] == path[pos];
  }

  lemma CourseEnd(files: seq<Source>, node: Node, path: string, pos: nat)
    requires pos == |path| && OnCourse(files, node, path, pos)
    ensures Resolve(files, TheRoot, Components(path)) == Reached(node)
  {
    assert path[pos..] == [];
  }

  lemma BlockOf(len: nat, pos: nat)
    requires pos < len
    ensures pos / BLKSIZE < NBlocks(len) && pos == BLKSIZE * (pos / BLKSIZE) + pos % BLKSIZE
  {
  }

  lemma ChunkSlice(content: seq<Byte>, pos: nat, bn: nat)
    requires pos + bn <= |content| && pos < |content| && pos % BLKSIZE + bn <= BLKSIZE && pos / BLKSIZE < NBlocks(|content|)
    ensures Chunk(content, pos / BLKSIZE)[pos % BLKSIZE..pos % BLKSIZE + bn] == content[pos..pos + bn]
  {
    BlockOf(|content|, pos);
    var c := Chunk(content, pos / BLKSIZE)[pos % BLKSIZE..pos % BLKSIZE + bn];
    forall k: nat | k < bn ensures c[k] == content[pos..pos + bn][k] {}
  }

  // None of the first n entries has this name.
  ghost predicate Absent(blocks: seq<Block>, dir: File, files: seq<Source>, name: string, n: nat)
    requires Formatted(blocks, dir, files) && n <= BLKFILES * DirBlocks(|files|)
  {
    DirSize(|files|);
    forall k {:trigger Entry(blocks, dir, k)} :: 0 <= k < n ==> Entry(blocks, dir, k).name != name
  }

  lemma BlockEntries(blocks: seq<Block>, dir: File, files: seq<Source>, name: string, i: nat, j: nat)
    requires Formatted(blocks, dir, files) && i < DirBlocks(|files|) && j <= BLKFILES
    requires Absent(blocks, dir, files, name, BLKFILES * i)
    requires i < NDIRECT + NINDIRECT && SlotOf(blocks, dir, i) < |blocks| && BlockShaped(blocks[SlotOf(blocks, dir, i)])
    requires forall k :: 0 <= k < j ==> AsFiles(blocks[SlotOf(blocks, dir, i)])[k].name != name
    ensures Absent(blocks, dir, files, name, BLKFILES * i + j)
    ensures j < BLKFILES ==> Entry(blocks, dir, BLKFILES * i + j) == AsFiles(blocks[SlotOf(blocks, dir, i)])[j]
  {
    DirSize(|files|);
    forall k | BLKFILES * i <= k < BLKFILES * i + j ensures Entry(blocks, dir, k).name != name {
      assert k / BLKFILES == i && k % BLKFILES == k - BLKFILES * i;
      assert Entry(blocks, dir, k) == AsFiles(blocks[SlotOf(blocks, dir, i)])[k - BLKFILES * i];
    }
    if j < BLKFILES {
      assert (BLKFILES * i + j) / BLKFILES == i && (BLKFILES * i + j) % BLKFILES == j;
    }
  }

  lemma NameAt(blocks: seq<Block>, dir: File, files: seq<Source>, m: nat)
    requires Formatted(blocks, dir, files) && m < |files|
    ensures m < BLKFILES * DirBlocks(|files|) && Entry(blocks, dir, m).name == files[m].name
  {
    DirSize(|files|);
  }

  lemma FirstEntry(blocks: seq<Block>, dir: File, files: seq<Source>, name: string, k: nat)
    requires Formatted(blocks, dir, files) && k < DirBlocks(|files|) * BLKFILES && name != ""
    requires Absent(blocks, dir, files, name, k)
    requires k / BLKFILES < NDIRECT + NINDIRECT && Entry(blocks, dir, k).name == name
    ensures k < |files| && Find(files, name) == k
  {
    var m := Find(files, name);
    if m < |files| { NameAt(blocks, dir, files, m); }
  }

  lemma NoEntry(blocks: seq<Block>, dir: File, files: seq<Source>, name: string)
    requires Formatted(blocks, dir, files) && Absent(blocks, dir, files, name, BLKFILES * DirBlocks(|files|))
    ensures Find(files, name) == |files|
  {
    var m := Find(files, name);
    if m < |files| { NameAt(blocks, dir, files, m); }
  }

  // ---------------------------------------------------------------- format, then read

  lemma ResolveName(files: seq<Source>, before: string, name: string, after: string)
    requires Slashes(before) && Slashes(after) && GoodName(name)
    ensures Resolve(files, TheRoot, Components(before + name + after)) ==
              if Find(files, name) < |files| then Reached(AFile(Find(files, name))) else Failed(-E_NOT_FOUND)
  {
    OneComponent(before, name, after);
  }

  // For any files that fit: opening a name, with any slashes around it, and reading from any
  // offset gives exactly that slice of the first file of that name, and neither step changes
  // the disk; a name that is not there is not found.
  method FormatThenRead(nblocks: nat, junk: seq<File>, files: seq<Source>, before: string, name: string, after: string,
      count: nat, offset: nat) returns (formatted: bool, r: int, buf: seq<Byte>)
    requires nblocks < 0x1_0000 && |junk| == MAX_DIR_ENTS && forall k :: 0 <= k < |junk| ==> |junk[k].direct| == NDIRECT
    requires forall k :: 0 <= k < |files| ==> GoodName(files[k].name)
    requires Slashes(before) && Slashes(after) && GoodName(name)
    ensures formatted <==> Fits(nblocks, files)
    ensures formatted && Find(files, name) == |files| ==> r == -E_NOT_FOUND
    ensures formatted && Find(files, name) < |files| ==>
              var content := files[Find(files, name)].content;
              r == |buf| && buf == if offset >= |content| then [] else content[offset..Min(offset + count, |content|)]
  {
    r, buf := 0, [];
    var fmt := new Formatter(nblocks, junk);
    formatted := fmt.Format(files);
    if !formatted { return; }
    var server := new FileServer(fmt.blocks, fmt.bitmap, fmt.root);
    ResolveName(files, before, name, after);
    var f;
    r, f := server.WalkPath(before + name + after, files);
    if r < 0 { return; }
    NameAt(server.blocks[..], server.root, files, Find(files, name));
    r, buf := server.FileRead(f, count, offset, files[Find(files, name)].content);
  }
}
