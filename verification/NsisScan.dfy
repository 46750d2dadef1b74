/** The signer's search for an NSIS header, block by block. */
module NsisScan {
  import opened Basics

  /** The signature: four flag bytes stand before it, on a 512-byte boundary. */
  const SIG: seq<Byte> := [
    0xef, 0xbe, 0xad, 0xde, 0x4e, 0x75, 0x6c, 0x6c, 0x73, 0x6f, 0x66, 0x74, 0x49, 0x6e, 0x73, 0x74
  ]

  /** The little-endian number 0xdeadbeef, then the characters. */
  lemma SignatureIs()
    ensures var a: int, b: int, c: int, d: int := SIG[0], SIG[1], SIG[2], SIG[3];
            a + 0x100 * b + 0x1_0000 * c + 0x100_0000 * d == 0xdeadbeef
    ensures |SIG| == 4 + |"NullsoftInst"| && forall i | 0 <= i < |SIG| - 4 :: SIG[4 + i] as char == "NullsoftInst"[i]
  {
    var name := "NullsoftInst";
    assert name[0] == SIG[4] as char && name[1] == SIG[5] as char && name[2] == SIG[6] as char;
    assert name[3] == SIG[7] as char && name[4] == SIG[8] as char && name[5] == SIG[9] as char;
    assert name[6] == SIG[10] as char && name[7] == SIG[11] as char && name[8] == SIG[12] as char;
    assert name[9] == SIG[13] as char && name[10] == SIG[14] as char && name[11] == SIG[15] as char;
  }

  predicate At(buf: seq<Byte>, i: int) {
    0 <= i && i + |SIG| <= |buf| && buf[i..i + |SIG|] == SIG
  }

  /** The whole file holds a header. */
  predicate HasHeader(file: seq<Byte>) {
    exists i | 0 <= i < |file| :: At(file, i) && (i - 4) % 512 == 0
  }

  /** A fitting signature in a buffer that starts at byte `start` of the file. */
  predicate InBuffer(buf: seq<Byte>, start: nat) {
    exists i | 0 <= i < |buf| :: At(buf, i) && (start + i - 4) % 512 == 0
  }

  /** The last bytes of the file so far, enough for a header cut by a read. */
  predicate Carried(file: seq<Byte>, tail: seq<Byte>) {
    |tail| == (if |file| < |SIG| + 4 then |file| else |SIG| + 4) && tail == file[|file| - |tail|..]
  }

  /** `buf.find(SIG, from)`; -1 when there is none. */
  method Find(buf: seq<Byte>, from: nat) returns (i: int)
    ensures i == -1 || (from <= i && At(buf, i))
    ensures forall k | from <= k && (i == -1 || k < i) :: !At(buf, k)
  {
    i := from;
    while i + |SIG| <= |buf|
      invariant from <= i
      invariant forall k | from <= k < i :: !At(buf, k)
    {
      if buf[i..i + |SIG|] == SIG {
        return;
      }
      i := i + 1;
    }
    i := -1;
  }

  /** The search within one buffer whose first byte is byte `start` of the file. */
  method ScanBuffer(buf: seq<Byte>, start: nat) returns (found: bool)
    ensures found <==> InBuffer(buf, start)
  {
    found := false;
    var i := Find(buf, 0);
    while i >= 0
      invariant i == -1 || (0 <= i && At(buf, i))
      invariant forall k | 0 <= k && (i == -1 || k < i) && At(buf, k) :: (start + k - 4) % 512 != 0
      decreases if i == -1 then 0 else |buf| + 1 - i
    {
      if (start + i - 4) % 512 == 0 {
        found := true;
        assert 0 <= i < |buf|;
        return;
      }
      i := Find(buf, i + 1);
    }
  }

  /** A match in the file so far with more bytes read is in the old part or in
      the carried tail with the new block. */
  lemma SeenInBuffer(file: seq<Byte>, tail: seq<Byte>, block: seq<Byte>, i: int)
    requires Carried(file, tail)
    ensures At(file + block, i) <==> At(file, i) || At(tail + block, i - (|file| - |tail|))
  {
    var start := |file| - |tail|;
    var whole := file + block;
    assert whole[start..] == tail + block;
    SeenFrom(whole, start, i);
    SeenUpTo(whole, |file|, i);
    assert whole[..|file|] == file;
  }

  lemma SeenFrom(whole: seq<Byte>, start: nat, i: int)
    requires start <= |whole|
    ensures At(whole[start..], i - start) <==> i >= start && At(whole, i)
  {
    if start <= i && i + |SIG| <= |whole| {
      assert whole[start..][i - start..i - start + |SIG|] == whole[i..i + |SIG|];
    }
  }

  lemma SeenUpTo(whole: seq<Byte>, end: nat, i: int)
    requires end <= |whole|
    ensures At(whole[..end], i) <==> i + |SIG| <= end && At(whole, i)
  {
    if 0 <= i && i + |SIG| <= end {
      assert whole[..end][i..i + |SIG|] == whole[i..i + |SIG|];
    }
  }

  lemma CarriedOn(file: seq<Byte>, tail: seq<Byte>, block: seq<Byte>)
    requires Carried(file, tail)
    ensures var buf := tail + block;
            Carried(file + block, if |buf| < |SIG| + 4 then buf else buf[|buf| - (|SIG| + 4)..])
  {
    assert tail + block == (file + block)[|file| - |tail|..];
  }

  /** What the search of one buffer adds to what was known of the file. */
  lemma BlockScanned(file: seq<Byte>, tail: seq<Byte>, block: seq<Byte>)
    requires Carried(file, tail) && !HasHeader(file)
    ensures InBuffer(tail + block, |file| - |tail|) <==> HasHeader(file + block)
  {
    hide At;
    var whole, buf, start := file + block, tail + block, |file| - |tail|;
    if InBuffer(buf, start) {
      var i :| 0 <= i < |buf| && At(buf, i) && (start + i - 4) % 512 == 0;
      SeenInBuffer(file, tail, block, start + i);
      assert At(whole, start + i);
    }
    if HasHeader(whole) {
      var i :| 0 <= i < |whole| && At(whole, i) && (i - 4) % 512 == 0;
      SeenInBuffer(file, tail, block, i);
      AtIsInside(buf, i - start);
      AtIsInside(file, i);
      assert At(buf, i - start) && (start + (i - start) - 4) % 512 == 0;
    }
  }

  lemma AtIsInside(buf: seq<Byte>, i: int)
    ensures At(buf, i) ==> 0 <= i < |buf|
  {}

  /** The read loop: each read gave a block, an empty one at the end. */
  method Scan(blocks: seq<seq<Byte>>) returns (found: bool)
    requires forall b | b in blocks :: b != []
    ensures found <==> HasHeader(Joined(blocks))
  {
    hide HasHeader, At, Carried, Joined;
    found := false;
    var off, tail: seq<Byte> := 0, [];
    var n := 0;
    ghost var file: seq<Byte> := [];
    NothingScanned();
    while !found && n < |blocks|
      invariant 0 <= n <= |blocks|
      invariant file == Joined(blocks[..n]) && off == |file| && |tail| <= off
      invariant Carried(file, tail)
      invariant found <==> HasHeader(file)
    {
      var block := blocks[n];
      var buf := tail + block;
      var start := off - |tail|;
      BlockScanned(file, tail, block);
      CarriedOn(file, tail, block);
      found := ScanBuffer(buf, start);
      assert blocks[..n + 1] == blocks[..n] + [blocks[n]];
      JoinedOneMore(blocks[..n], blocks[n]);
      tail := if |buf| < |SIG| + 4 then buf else buf[|buf| - (|SIG| + 4)..];
      off := off + |block|;
      file := file + block;
      n := n + 1;
      CarriedIsShort(file, tail);
    }
    if found {
      HeaderStays(blocks, n);
    } else {
      assert blocks[..n] == blocks;
    }
  }

  lemma NothingScanned()
    ensures Carried([], []) && !HasHeader([]) && Joined<Byte>([]) == []
  {}

  lemma CarriedIsShort(file: seq<Byte>, tail: seq<Byte>)
    requires Carried(file, tail)
    ensures |tail| <= |file|
  {}

  lemma {:induction false} HeaderStays(blocks: seq<seq<Byte>>, n: nat)
    requires n <= |blocks| && HasHeader(Joined(blocks[..n]))
    ensures HasHeader(Joined(blocks))
    decreases |blocks| - n
  {
    if n == |blocks| {
      assert blocks[..n] == blocks;
    } else {
      assert blocks[..n + 1] == blocks[..n] + [blocks[n]];
      JoinedOneMore(blocks[..n], blocks[n]);
      var file, more := Joined(blocks[..n]), Joined(blocks[..n + 1]);
      var i :| 0 <= i < |file| && At(file, i) && (i - 4) % 512 == 0;
      assert more[i..i + |SIG|] == file[i..i + |SIG|];
      assert At(more, i);
      HeaderStays(blocks, n + 1);
    }
  }
}
