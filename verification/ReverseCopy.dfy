/** The file copier that reads its source backwards in blocks of ten bytes (ex4) and
    writes each block with a list of one-byte asynchronous writes. */
module ReverseCopy {
  import opened Numbers

  const DISPLACEMENT: nat := 10

  newtype Byte = b: int | 0 <= b < 256

  type Bytes = seq<Byte>

  /** The blocks of ten bytes from the end to the beginning, the short one last. */
  function Blocks(s: Bytes): (r: Bytes)
    ensures |r| == |s|
  {
    if |s| < DISPLACEMENT then s else s[|s| - DISPLACEMENT..] + Blocks(s[..|s| - DISPLACEMENT])
  }

  /** Bytes beyond the end of a file are zero once something is written after them. */
  function WriteByte(file: Bytes, offset: nat, b: Byte): (r: Bytes)
    ensures |r| == if offset < |file| then |file| else offset + 1
    ensures forall i :: 0 <= i < |r| ==>
              r[i] == if i == offset then b else if i < |file| then file[i] else 0
  {
    if offset < |file| then file[offset := b]
    else file + seq(offset - |file|, _ => 0) + [b]
  }

  /** The offsets written are those below n. */
  ghost predicate Tiles(written: set<nat>, n: nat) {
    forall k: nat :: k in written <==> k < n
  }

  /** The target file, with the offsets written so far and whether one of them was
      written again. */
  class Target {
    var bytes: Bytes
    ghost var written: set<nat>
    ghost var rewritten: bool

    constructor ()
      ensures bytes == [] && written == {} && !rewritten
    {
      bytes, written, rewritten := [], {}, false;
    }

    /** One asynchronous write of one byte. */
    method Write(offset: nat, b: Byte)
      modifies this
      ensures bytes == WriteByte(old(bytes), offset, b)
      ensures written == old(written) + {offset}
      ensures rewritten == (old(rewritten) || offset in old(written))
    {
      bytes := WriteByte(bytes, offset, b);
      rewritten := rewritten || offset in written;
      written := written + {offset};
    }

    /** lio_listio(LIO_WAIT) of n one-byte writes at consecutive offsets from the end
        of the file: they are carried out in any order, and all are done at the end. */
    method WriteList(buffer: Bytes, n: nat, base: nat)
      requires n <= |buffer| && base == |bytes| && Tiles(written, base)
      modifies this
      ensures bytes == old(bytes) + buffer[..n]
      ensures Tiles(written, base + n) && rewritten == old(rewritten)
    {
      ghost var before := bytes;
      var todo := Below(n);
      StartList(bytes, written, buffer, n);
      while todo != {}
        invariant forall i: nat :: i in todo ==> i < n
        invariant Partly(before, bytes, written, buffer, n, todo)
        invariant rewritten == old(rewritten)
        decreases |todo|
      {
        var i: nat :| i in todo;
        WriteOne(before, bytes, written, buffer, n, todo, i);
        Write(base + i, buffer[i]);
        todo := todo - {i};
      }
      AllWritten(before, bytes, written, buffer, n, todo);
    }
  }

  /** The list with the writes of `todo` outstanding. */
  ghost predicate Partly(before: Bytes, bytes: Bytes, written: set<nat>, buffer: Bytes, n: nat, todo: set<nat>)
    requires n <= |buffer|
  {
    var base := |before|;
    && base <= |bytes| <= base + n && bytes[..base] == before
    && (forall i: nat :: i < n && i !in todo ==> base + i < |bytes| && bytes[base + i] == buffer[i])
    && (forall k: nat :: k in written <==> k < base || (k < base + n && k - base !in todo))
  }

  /** One of the outstanding writes, whichever it is. */
  lemma WriteOne(before: Bytes, bytes: Bytes, written: set<nat>, buffer: Bytes, n: nat, todo: set<nat>, i: nat)
    requires n <= |buffer| && i in todo && i < n && Partly(before, bytes, written, buffer, n, todo)
    ensures |before| + i !in written
    ensures Partly(before, WriteByte(bytes, |before| + i, buffer[i]), written + {|before| + i}, buffer, n, todo - {i})
  {
    var after := WriteByte(bytes, |before| + i, buffer[i]);
    assert after[..|before|] == before;
  }

  lemma StartList(bytes: Bytes, written: set<nat>, buffer: Bytes, n: nat)
    requires n <= |buffer| && Tiles(written, |bytes|)
    ensures Partly(bytes, bytes, written, buffer, n, Below(n))
  {
  }

  lemma AllWritten(before: Bytes, bytes: Bytes, written: set<nat>, buffer: Bytes, n: nat, todo: set<nat>)
    requires n <= |buffer| && todo == {} && Partly(before, bytes, written, buffer, n, todo)
    ensures bytes == before + buffer[..n] && Tiles(written, |before| + n)
  {
    if n > 0 {
      var last: nat := n - 1;
      assert last !in todo;
    }
    forall k | 0 <= k < |bytes| ensures bytes[k] == (before + buffer[..n])[k] {
      if k < |before| {
        assert bytes[k] == bytes[..|before|][k];
      } else {
        var i: nat := k - |before|;
        assert bytes[|before| + i] == buffer[i];
      }
    }
  }

  /** pread of at most `count` bytes at an offset. */
  function Pread(src: Bytes, count: nat, offset: nat): Bytes {
    if offset >= |src| then [] else if offset + count <= |src| then src[offset..offset + count] else src[offset..]
  }

  /** Where the list after a number of whole blocks has to start. */
  function ListStart(numReading: nat): nat { numReading * DISPLACEMENT }

  /** The source without its last byte. */
  function Body(src: Bytes): Bytes { if src == [] then [] else src[..|src| - 1] }

  /** Before a turn of the loop: what is written is the beginning of the whole copy,
      and the rest of it is the copy of what lies before the next block's end. */
  ghost predicate Underway(src: Bytes, done: Bytes, offset: int, numReading: nat) {
    && 0 <= offset && offset + DISPLACEMENT <= |Body(src)|
    && ListStart(numReading) == |done|
    && done + Blocks(Body(src)[..offset + DISPLACEMENT]) == Blocks(Body(src))
  }

  lemma Begin(src: Bytes)
    requires |src| > DISPLACEMENT
    ensures Underway(src, [], |src| - (DISPLACEMENT + 1), 0)
  {
    assert Body(src)[..|Body(src)|] == Body(src);
  }

  /** The block read at an offset ends the part of the source below its end. */
  lemma BlockRead(src: Bytes, offset: nat)
    requires offset + DISPLACEMENT <= |Body(src)|
    ensures var block := Pread(src, DISPLACEMENT, offset);
            && |block| == DISPLACEMENT && block[..DISPLACEMENT] == block
            && Blocks(Body(src)[..offset + DISPLACEMENT]) == block + Blocks(Body(src)[..offset])
  {
    var block := Pread(src, DISPLACEMENT, offset);
    assert Body(src)[..offset + DISPLACEMENT] == Body(src)[..offset] + block;
    BlocksOfConcat(Body(src)[..offset], block);
  }

  lemma Regroup(a: Bytes, b: Bytes, c: Bytes)
    ensures a + (b + c) == (a + b) + c
  {
  }

  /** A block brings the target nearer to the whole copy. */
  lemma NextBlock(
      src: Bytes, done: Bytes, block: Bytes, now: Bytes, was: nat, offset: nat, before: nat, numReading: nat)
    requires Underway(src, done, was, before)
    requires was == offset + DISPLACEMENT && numReading == before + 1
    requires block == Pread(src, DISPLACEMENT, was) && |block| == DISPLACEMENT && now == done + block[..DISPLACEMENT]
    ensures Underway(src, now, offset, numReading)
  {
    BlockRead(src, was);
    Regroup(done, block, Blocks(Body(src)[..was]));
  }

  /** The last whole block and the short one at the start of the source complete it. */
  lemma LastBlocks(src: Bytes, done: Bytes, offset: nat, numReading: nat)
    requires Underway(src, done, offset, numReading) && offset < DISPLACEMENT
    ensures var block, first := Pread(src, DISPLACEMENT, offset), Pread(src, offset, 0);
            && |block| == DISPLACEMENT && |first| == offset
            && |done| + DISPLACEMENT == ListStart(numReading + 1)
            && done + block[..DISPLACEMENT] + first[..offset] == Blocks(Body(src))
            && |done| + DISPLACEMENT + offset == |src| - 1
  {
    var block := Pread(src, DISPLACEMENT, offset);
    BlockRead(src, offset);
    var first := Body(src)[..offset];
    assert Pread(src, offset, 0) == first == first[..offset];
    Regroup(done, block, first);
  }

  /** Where byte k of a copy of n bytes comes from: blocks of ten from the end of the n
      bytes copied, each in its own order, and then the rest from their beginning. */
  function Origin(n: nat, k: nat): (r: nat)
    requires k < n
    ensures r < n
  {
    if k < n - n % 10 then n - (k / 10 * 10 + 10) + k % 10 else k - (n - n % 10)
  }

  /** What a copy holds, byte by byte: all of the source but its last byte. */
  ghost predicate Copied(src: Bytes, copy: Bytes) {
    && |src| > 0 && |copy| == |src| - 1
    && forall k :: 0 <= k < |copy| ==> copy[k] == src[Origin(|copy|, k)]
  }

  lemma BlocksByte(s: Bytes, k: nat)
    requires k < |s|
    ensures Blocks(s)[k] == s[Origin(|s|, k)]
  {
    if k < |s| - |s| % 10 {
      BlockAt(s, k / 10, k % 10);
    } else {
      RemainderLast(s, k - (|s| - |s| % 10));
    }
  }

  /** A file is a copy exactly when it holds the reversed blocks. */
  lemma CopiedIff(src: Bytes, copy: Bytes)
    requires src != []
    ensures Copied(src, copy) <==> copy == Blocks(Body(src))
  {
    forall k | 0 <= k < |src| - 1 ensures Blocks(Body(src))[k] == src[Origin(|src| - 1, k)] {
      BlocksByte(Body(src), k);
    }
  }

  /** The copy holds the source without its last byte, block by block from the end,
      and every offset of the target is written exactly once.  The loop is left through
      its break.  A source shorter than eleven bytes makes the first lseek fail and
      nothing is written. */
  method Copy(src: Bytes) returns (target: Target, ok: bool, throughBreak: bool)
    ensures ok <==> |src| > 10
    ensures !ok ==> target.bytes == []
    ensures ok ==> throughBreak && Copied(src, target.bytes)
    ensures ok ==> Tiles(target.written, |src| - 1) && !target.rewritten
  {
    target := new Target();
    throughBreak := false;
    var offset: int := |src| - (DISPLACEMENT + 1);
    if offset < 0 {
      return target, false, false;
    }
    var reading: nat := DISPLACEMENT;
    var numReading := 0;
    Begin(src);
    while offset >= 0
      invariant 0 <= offset && reading == DISPLACEMENT
      invariant Underway(src, target.bytes, offset, numReading)
      invariant Tiles(target.written, |target.bytes|) && !target.rewritten
      invariant fresh(target)
      invariant !throughBreak
      decreases offset
    {
      var buffer := Pread(src, reading, offset);
      if offset - DISPLACEMENT < 0 {
        LastBlocks(src, target.bytes, offset, numReading);
        target.WriteList(buffer, DISPLACEMENT, ListStart(numReading));
        numReading := numReading + 1;
        reading := offset;
        offset := 0;
        buffer := Pread(src, reading, offset);
        target.WriteList(buffer, reading, ListStart(numReading));
        throughBreak := true;
        break;
      }
      ghost var done, was, before := target.bytes, offset, numReading;
      target.WriteList(buffer, DISPLACEMENT, ListStart(numReading));
      offset := offset - DISPLACEMENT;
      numReading := numReading + 1;
      NextBlock(src, done, buffer, target.bytes, was, offset, before, numReading);
    }
    CopiedIff(src, target.bytes);
    ok := true;
  }

  // ----- Copying twice -----

  /** Whole blocks are reversed in order: appending blocks in front of the reversal. */
  lemma {:induction false} BlocksOfConcat(s: Bytes, b: Bytes)
    requires |b| == DISPLACEMENT
    ensures Blocks(s + b) == b + Blocks(s)
  {
    assert (s + b)[|s|..] == b && (s + b)[..|s|] == s;
  }

  /** A block put in front of whole blocks comes last. */
  lemma {:induction false} BlocksOfPrepend(b: Bytes, s: Bytes)
    requires |b| == DISPLACEMENT && |s| % DISPLACEMENT == 0
    ensures Blocks(b + s) == Blocks(s) + b
  {
    if s == [] {
      assert b + s == b && Blocks(b) == b + Blocks([]) && Blocks([]) == [];
      assert b[|b| - DISPLACEMENT..] == b && b[..|b| - DISPLACEMENT] == [];
    } else {
      var r, last := s[..|s| - DISPLACEMENT], s[|s| - DISPLACEMENT..];
      assert b + s == (b + r) + last && s == r + last;
      BlocksOfConcat(b + r, last);
      BlocksOfPrepend(b, r);
      assert last + (Blocks(r) + b) == (last + Blocks(r)) + b;
    }
  }

  /** Copying whole blocks twice restores them. */
  lemma {:induction false} TwiceWhole(s: Bytes)
    requires |s| % DISPLACEMENT == 0
    ensures Blocks(Blocks(s)) == s
  {
    if s != [] {
      var r, last := s[..|s| - DISPLACEMENT], s[|s| - DISPLACEMENT..];
      assert s == r + last && |r| % DISPLACEMENT == 0;
      TwiceWhole(r);
      BlocksOfConcat(r, last);
      BlocksOfPrepend(last, Blocks(r));
    }
  }

  /** A short remainder of r bytes goes to the end of the copy, after q blocks. */
  lemma {:induction false} RemainderAfter(s: Bytes, q: nat, r: nat, i: nat)
    requires |s| == q * DISPLACEMENT + r && i < r < DISPLACEMENT
    ensures Blocks(s)[q * DISPLACEMENT + i] == s[i]
    decreases q
  {
    if q > 0 {
      var t := s[..|s| - DISPLACEMENT];
      RemainderAfter(t, q - 1, r, i);
      assert Blocks(s) == s[|s| - DISPLACEMENT..] + Blocks(t);
    }
  }

  lemma RemainderLast(s: Bytes, i: nat)
    requires i < |s| % DISPLACEMENT
    ensures Blocks(s)[|s| - |s| % DISPLACEMENT + i] == s[i]
  {
    RemainderAfter(s, |s| / DISPLACEMENT, |s| % DISPLACEMENT, i);
  }

  /** Byte i of block j of the copy is byte i of the j-th block from the end. */
  lemma {:induction false} BlockAt(s: Bytes, j: nat, i: nat)
    requires i < DISPLACEMENT && (j + 1) * DISPLACEMENT <= |s|
    ensures Blocks(s)[j * DISPLACEMENT + i] == s[|s| - (j + 1) * DISPLACEMENT + i]
    decreases j
  {
    if j > 0 {
      var r := s[..|s| - DISPLACEMENT];
      BlockAt(r, j - 1, i);
      assert Blocks(s)[DISPLACEMENT..] == Blocks(r);
      assert Blocks(s)[DISPLACEMENT..][(j - 1) * DISPLACEMENT + i] == Blocks(s)[j * DISPLACEMENT + i];
    }
  }

  /** A file of n bytes, one at the start and zeros after it. */
  function Marked(n: nat): Bytes
    requires n > 0
  {
    [1] + seq(n - 1, _ => 0)
  }

  /** With a remainder the two copies move the mark. */
  lemma TwiceMovesMark(n: nat)
    requires n >= DISPLACEMENT && n % DISPLACEMENT != 0
    ensures Blocks(Blocks(Marked(n))) != Marked(n)
  {
    var s := Marked(n);
    var r := n % DISPLACEMENT;
    var t := Blocks(s);
    RemainderLast(s, 0);
    assert t[n - r] == 1;
    BlockAt(t, 0, DISPLACEMENT - r);
    assert Blocks(t)[DISPLACEMENT - r] == 1;
    assert s[DISPLACEMENT - r] == 0;
  }

  /** A copy, a byte appended to it, and the copy of that. */
  ghost predicate CopiedTwice(src: Bytes, copy: Bytes, b: Byte, again: Bytes) {
    Copied(src, copy) && Copied(copy + [b], again)
  }

  lemma CopiedTwiceIff(src: Bytes, copy: Bytes, b: Byte, again: Bytes)
    requires src != []
    ensures CopiedTwice(src, copy, b, again) <==> copy == Blocks(Body(src)) && again == Blocks(Blocks(Body(src)))
  {
    CopiedIff(src, copy);
    CopiedIff(copy + [b], again);
    assert Body(copy + [b]) == copy;
  }

  /** Appending a byte to the copy and copying again restores every source of `size`
      bytes, without its last, exactly when size - 1 is a multiple of ten. */
  lemma TwiceRestoresIff(size: nat)
    requires size > 10
    ensures (size - 1) % 10 == 0 <==>
            forall src, copy, b, again :: |src| == size && CopiedTwice(src, copy, b, again) ==> again == src[..size - 1]
  {
    if (size - 1) % 10 == 0 {
      forall src, copy, b, again | |src| == size && CopiedTwice(src, copy, b, again) ensures again == src[..size - 1] {
        CopiedTwiceIff(src, copy, b, again);
        TwiceWhole(Body(src));
      }
    } else {
      TwiceMovesMark(size - 1);
      var src := Marked(size - 1) + [0];
      assert Body(src) == Marked(size - 1);
      CopiedTwiceIff(src, Blocks(Body(src)), 0, Blocks(Blocks(Body(src))));
      assert CopiedTwice(src, Blocks(Body(src)), 0, Blocks(Blocks(Body(src))));
    }
  }
}
