/** Splitting a text into chunks whose JSON fits a transaction part. */
module Chunks {
  import opened Basics
  import opened Utf16
  import opened Json
  import opened Parts

  const CHUNK_BYTES := 49152
  const CHUNKED_MAX := 1048576

  /** How a well-formed text may be cut: no surrogate pair is split, no chunk
      is empty unless the text is, every chunk fits and all but the last are
      within six bytes of full. */
  predicate Chunked(text: Text, chunks: seq<Text>) {
    && chunks != [] && Joined(chunks) == text
    && (forall i | 0 <= i < |chunks| :: ChunkFits(chunks[i]) && (text != [] ==> chunks[i] != []))
    && (forall i | 0 <= i < |chunks| - 1 :: NearlyFull(chunks[i]))
  }

  predicate ChunkFits(chunk: Text) { WellFormed(chunk) && BodyBytes(chunk) <= 49152 }

  predicate NearlyFull(chunk: Text) { BodyBytes(chunk) > 49152 - 6 }

  /** Characters JSON writes as themselves in one byte. */
  predicate Plain(u: Unit) { 0x20 <= u < 0x7f && u != 0x22 && u != 0x5c }

  /** The bytes the loop counts for the text's start. */
  function PieceBytes(t: Text): int
    requires t != []
  {
    if Plain(t[0]) then 1 else JsonBytes(String(t[..StepUnits(t)])) - 2
  }

  lemma QuotedBytes(t: Text)
    ensures WellFormed(Stringify(String(t))) && JsonBytes(String(t)) == BodyBytes(t) + 2
  {
    BodyWellFormed(t);
    AsciiUnits([0x22]);
    Concatenation([0x22], Body(t));
    Concatenation([0x22] + Body(t), [0x22]);
  }

  lemma PlainBody(t: Text)
    requires t != [] && Plain(t[0])
    ensures BodyBytes(t[..1]) == 1
  {
    AsciiUnits(t[..1]);
    BodyWellFormed(t[..1]);
    assert t[..1][1..] == [];
  }

  lemma ShortBody(p: Text)
    requires 1 <= |p| <= 2
    ensures 1 <= BodyBytes(p) <= 12
    ensures FirstUnits(p) == |p| ==> BodyBytes(p) <= 6
  {
    hide EscapeFirst;
    EscapeBytes(p);
    BodyWellFormed(p);
    var rest := p[FirstUnits(p)..];
    if rest != [] {
      EscapeBytes(rest);
      BodyWellFormed(rest);
      assert rest[FirstUnits(rest)..] == [];
    }
  }

  /** The loop's count is the JSON size of the text's first character. */
  lemma PieceIsBody(t: Text)
    requires t != []
    ensures PieceBytes(t) == BodyBytes(t[..StepUnits(t)])
    ensures 1 <= PieceBytes(t) <= 12
    ensures WellFormed(t) ==> PieceBytes(t) <= 6 && StepUnits(t) == FirstUnits(t)
  {
    hide JsonBytes, BodyBytes;
    var p := t[..StepUnits(t)];
    QuotedBytes(p);
    ShortBody(p);
    if Plain(t[0]) {
      PlainBody(t);
    }
    if WellFormed(t) {
      StepIsFirst(t);
    }
  }

  // ── The loop ────────────────────────────────────────────────────────────

  /** The loop's state before unit `i`: closed chunks, the start of the open
      one and its size. */
  predicate Chunking(text: Text, chunks: seq<Text>, start: nat, i: nat, size: nat) {
    && start <= i <= |text| && (i == start ==> i == 0 && size == 0 && chunks == [])
    && Joined(chunks) == text[..start] && size <= CHUNK_BYTES
    && (forall k | 0 <= k < |chunks| :: chunks[k] != [])
    && (WellFormed(text) ==>
          && WellFormed(text[i..]) && WellFormed(text[start..i]) && size == BodyBytes(text[start..i])
          && forall k | 0 <= k < |chunks| :: ChunkFits(chunks[k]) && NearlyFull(chunks[k]))
  }

  /** Taking the next character, into a new chunk when this one is full. */
  lemma ChunkingStep(text: Text, chunks: seq<Text>, start: nat, i: nat, size: nat)
    requires Chunking(text, chunks, start, i, size) && i < |text|
    ensures var b, n := PieceBytes(text[i..]), StepUnits(text[i..]);
            if size + b > CHUNK_BYTES then b >= 0 && Chunking(text, chunks + [text[start..i]], i, i + n, b)
            else size + b >= 0 && Chunking(text, chunks, start, i + n, size + b)
  {
    hide PieceBytes, BodyBytes, StepUnits, Joined, WellFormed;
    var t := text[i..];
    var b, n := PieceBytes(t), StepUnits(t);
    PieceIsBody(t);
    assert t[..n] == text[i..i + n] && t[n..] == text[i + n..];
    if WellFormed(text) {
      FirstWellFormed(t);
    }
    if size + b > CHUNK_BYTES {
      ChunkingClose(text, chunks, start, i, size, n);
    } else {
      ChunkingGrow(text, chunks, start, i, size, n);
    }
  }

  lemma ChunkingGrow(text: Text, chunks: seq<Text>, start: nat, i: nat, size: nat, n: nat)
    requires Chunking(text, chunks, start, i, size) && 0 < n && i + n <= |text|
    requires WellFormed(text) ==> WellFormed(text[i..i + n]) && WellFormed(text[i + n..])
    requires size + BodyBytes(text[i..i + n]) <= CHUNK_BYTES
    ensures Chunking(text, chunks, start, i + n, size + BodyBytes(text[i..i + n]))
  {
    hide BodyBytes, Joined, WellFormed, ChunkFits, NearlyFull, Utf8, Utf8Len, Body;
    if WellFormed(text) {
      var open, piece := text[start..i], text[i..i + n];
      assert open + piece == text[start..i + n];
      Concatenation(open, piece);
      BodyConcatenation(open, piece);
    }
  }

  lemma ChunkingClose(text: Text, chunks: seq<Text>, start: nat, i: nat, size: nat, n: nat)
    requires Chunking(text, chunks, start, i, size) && 0 < n && i + n <= |text| && start < i
    requires WellFormed(text) ==> size > CHUNK_BYTES - 6
    requires WellFormed(text) ==> WellFormed(text[i..i + n]) && WellFormed(text[i + n..])
    requires BodyBytes(text[i..i + n]) <= CHUNK_BYTES
    ensures Chunking(text, chunks + [text[start..i]], i, i + n, BodyBytes(text[i..i + n]))
  {
    hide BodyBytes, Joined, WellFormed;
    JoinedOneMore(chunks, text[start..i]);
    assert text[..start] + text[start..i] == text[..i];
  }

  lemma FirstWellFormed(t: Text)
    requires t != [] && WellFormed(t)
    ensures WellFormed(t[..FirstUnits(t)]) && WellFormed(t[FirstUnits(t)..])
  {}

  lemma ChunkingEnd(text: Text, chunks: seq<Text>, start: nat, size: nat)
    requires Chunking(text, chunks, start, |text|, size)
    ensures start < |text| || chunks == []
    ensures var all := chunks + [text[start..]];
            && Joined(all) == text && (WellFormed(text) ==> Chunked(text, all))
            && (text != [] ==> forall k | 0 <= k < |all| :: all[k] != [])
  {
    hide BodyBytes, Joined;
    JoinedOneMore(chunks, text[start..]);
    assert text[..start] + text[start..] == text;
    assert text[start..|text|] == text[start..];
    if chunks == [] {
      JoinedNothing();
    }
  }

  lemma JoinedNothing()
    ensures Joined<Unit>([]) == []
  {}

  /** The chunk loop of `putChunked`. */
  method SplitChunks(text: Text) returns (chunks: seq<Text>)
    ensures chunks != [] && Joined(chunks) == text
    ensures text != [] ==> forall k | 0 <= k < |chunks| :: chunks[k] != []
    ensures WellFormed(text) ==> Chunked(text, chunks)
  {
    hide Chunking, Chunked, Joined, PieceBytes, WellFormed, StepUnits, JsonBytes;
    ChunkingStart(text);
    chunks := [];
    var start, size := 0, 0;
    var i := 0;
    while i < |text|
      invariant 0 <= start <= i <= |text| && 0 <= size
      invariant Chunking(text, chunks, start, i, size)
    {
      ChunkingStep(text, chunks, start, i, size);
      PieceBytesRead(text, i);
      var c := text[i];
      var pair := 0xD800 <= c <= 0xDBFF && i + 1 < |text|;
      var b := if 0x20 <= c < 0x7f && c != 0x22 && c != 0x5c then 1
               else JsonBytes(String(if pair then text[i..i + 2] else [text[i]])) - 2;
      if size + b > CHUNK_BYTES {
        chunks := chunks + [text[start..i]];
        start := i;
        size := 0;
      }
      size := size + b;
      if pair {
        i := i + 1;
      }
      i := i + 1;
    }
    ChunkingEnd(text, chunks, start, size);
    if start < |text| || chunks == [] {
      chunks := chunks + [text[start..]];
    }
  }

  lemma ChunkingStart(text: Text)
    ensures Chunking(text, [], 0, 0, 0)
  {
    assert text[0..] == text && text[0..0] == [] == text[..0];
  }

  lemma PieceBytesRead(text: Text, i: nat)
    requires i < |text|
    ensures var pair := 0xD800 <= text[i] <= 0xDBFF && i + 1 < |text|;
            && StepUnits(text[i..]) == (if pair then 2 else 1)
            && PieceBytes(text[i..])
               == if Plain(text[i]) then 1
                  else JsonBytes(String(if pair then text[i..i + 2] else [text[i]])) - 2
  {
    hide JsonBytes;
    assert text[i..][..1] == [text[i]];
    assert i + 1 < |text| ==> text[i..][..2] == text[i..i + 2];
  }

  // ── How many chunks, and how big ────────────────────────────────────────

  lemma {:induction false} ChunksHoldBody(chunks: seq<Text>)
    requires forall i | 0 <= i < |chunks| :: ChunkFits(chunks[i]) && NearlyFull(chunks[i])
    ensures WellFormed(Joined(chunks)) && BodyBytes(Joined(chunks)) >= (CHUNK_BYTES - 5) * |chunks|
  {
    hide BodyBytes;
    if chunks == [] {
    } else {
      var n := |chunks| - 1;
      ChunksHoldBody(chunks[..n]);
      Concatenation(Joined(chunks[..n]), chunks[n]);
      BodyConcatenation(Joined(chunks[..n]), chunks[n]);
    }
  }

  /** A text of at most 1 MiB makes at most 129 chunks. */
  lemma ChunkCount(text: Text, chunks: seq<Text>)
    requires WellFormed(text) && Chunked(text, chunks) && Utf8Len(text) <= 1048576
    ensures |chunks| <= 129
  {
    hide BodyBytes;
    var n := |chunks| - 1;
    ChunksHoldBody(chunks[..n]);
    BodyConcatenation(Joined(chunks[..n]), chunks[n]);
    BodyAtMostSixfold(text);
  }
}
