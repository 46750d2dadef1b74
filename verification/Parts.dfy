/** Packing store operations into transaction parts. */
module Parts {
  import opened Basics
  import opened Utf16
  import opened Json

  const PART_OPS := 64
  const PART_BYTES := 61440

  datatype Op =
    | Put(key: Text, value: Value, ifRev: Option<int>)
    | Patch(key: Text, value: Value, ifRev: Option<int>)
    | Delete(key: Text)

  /** What an operation counts toward its part. */
  function OpBytes(op: Op): nat {
    if op.Delete? then 0 else JsonBytes(op.value)
  }

  function PartBytes(part: seq<Op>): nat {
    if part == [] then 0 else PartBytes(part[..|part| - 1]) + OpBytes(part[|part| - 1])
  }

  /** A part the daemon can take, or a single operation too big for any part. */
  predicate Fits(part: seq<Op>) {
    1 <= |part| <= 64 && (PartBytes(part) <= 61440 || |part| == 1)
  }

  /** An order-preserving split of `ops` into parts that fit. */
  predicate Split(parts: seq<seq<Op>>, ops: seq<Op>) {
    Joined(parts) == ops && forall i | 0 <= i < |parts| :: Fits(parts[i])
  }

  /** A part that could not take the first operation of the next one. */
  predicate Full(part: seq<Op>, next: seq<Op>) {
    next != [] && !Fits(part + [next[0]])
  }

  predicate Greedy(parts: seq<seq<Op>>) {
    forall i {:trigger parts[i]} | 0 < i < |parts| :: Full(parts[i - 1], parts[i])
  }

  /** No split of the same operations into parts that fit has fewer parts. */
  ghost predicate Minimal(out: seq<seq<Op>>, ops: seq<Op>) {
    forall parts | Split(parts, ops) :: |out| <= |parts|
  }

  /** Closed parts and an open one, over the operations so far. */
  predicate Packing(out: seq<seq<Op>>, cur: seq<Op>, done: seq<Op>) {
    && Joined(out) + cur == done
    && (forall k | 0 <= k < |out| :: Fits(out[k]))
    && if done == [] then out == [] && cur == [] else Fits(cur) && Greedy(out + [cur])
  }

  /** `parts` */
  method Pack(ops: seq<Op>) returns (out: seq<seq<Op>>)
    ensures Split(out, ops)
    ensures Minimal(out, ops)
  {
    hide Packing, PartBytes, JsonBytes, Split, Minimal;
    PackingStart();
    out := [];
    var cur: seq<Op> := [];
    var bytes := 0;
    var i := 0;
    while i < |ops|
      invariant 0 <= i <= |ops|
      invariant bytes == PartBytes(cur) && Packing(out, cur, ops[..i])
    {
      var op := ops[i];
      var b := if op.Put? || op.Patch? then JsonBytes(op.value) else 0;
      PackingStep(out, cur, ops[..i], op);
      assert ops[..i + 1] == ops[..i] + [op];
      if cur != [] && (|cur| >= PART_OPS || bytes + b > PART_BYTES) {
        out := out + [cur];
        cur := [];
        bytes := 0;
        PackingStart();
      }
      PartBytesOneMore(cur, op);
      cur := cur + [op];
      bytes := bytes + b;
      i := i + 1;
    }
    assert ops[..|ops|] == ops;
    PackingEnd(out, cur, ops);
    if cur != [] {
      out := out + [cur];
    }
  }

  lemma PackingStart()
    ensures Packing([], [], []) && PartBytes([]) == 0
  {}

  lemma PackingEnd(out: seq<seq<Op>>, cur: seq<Op>, ops: seq<Op>)
    requires Packing(out, cur, ops)
    ensures var all := if cur != [] then out + [cur] else out;
            Split(all, ops) && Minimal(all, ops)
  {
    hide Minimal, Greedy;
    var all := if cur != [] then out + [cur] else out;
    JoinedOneMore(out, cur);
    GreedyIsMinimal(all, ops);
  }

  /** Either the open part takes the operation or a new part does. */
  lemma PackingStep(out: seq<seq<Op>>, cur: seq<Op>, done: seq<Op>, op: Op)
    requires Packing(out, cur, done)
    ensures if cur != [] && (|cur| >= PART_OPS || PartBytes(cur) + OpBytes(op) > PART_BYTES)
            then Packing(out + [cur], [] + [op], done + [op])
            else Packing(out, cur + [op], done + [op])
  {
    hide PartBytes, Joined, Greedy, OpBytes;
    if cur != [] {
      FitsOneMore(cur, op);
      if Fits(cur + [op]) {
        GreedyGrow(out, cur, op);
      } else {
        PackingFlush(out, cur, done, op);
      }
    } else {
      FitsOneMore([], op);
      GreedyOne(cur + [op]);
    }
    assert Joined(out) + (cur + [op]) == done + [op];
  }

  lemma PackingFlush(out: seq<seq<Op>>, cur: seq<Op>, done: seq<Op>, op: Op)
    requires Packing(out, cur, done) && cur != [] && !Fits(cur + [op])
    ensures Packing(out + [cur], [] + [op], done + [op])
  {
    hide PartBytes, Greedy, Joined;
    PackingStart();
    FitsOneMore([], op);
    GreedyFlush(out, cur, op);
    JoinedOneMore(out, cur);
    assert Joined(out + [cur]) + ([] + [op]) == done + [op];
  }

  lemma FitsOneMore(part: seq<Op>, op: Op)
    requires part == [] || Fits(part)
    ensures Fits(part + [op]) <==> part == [] || (|part| < PART_OPS && PartBytes(part) + OpBytes(op) <= PART_BYTES)
  {
    PartBytesOneMore(part, op);
  }

  lemma GreedyOne(part: seq<Op>)
    ensures Greedy([] + [part])
  {}

  lemma GreedyGrow(out: seq<seq<Op>>, cur: seq<Op>, op: Op)
    requires Greedy(out + [cur]) && cur != []
    ensures Greedy(out + [cur + [op]])
  {
    var was, now := out + [cur], out + [cur + [op]];
    forall i {:trigger now[i]} | 0 < i < |now|
      ensures Full(now[i - 1], now[i])
    {
      assert Full(was[i - 1], was[i]);
    }
  }

  lemma GreedyFlush(out: seq<seq<Op>>, cur: seq<Op>, op: Op)
    requires Greedy(out + [cur]) && !Fits(cur + [op])
    ensures Greedy(out + [cur] + [[] + [op]])
  {
    var was, now := out + [cur], out + [cur] + [[] + [op]];
    forall i {:trigger now[i]} | 0 < i < |now|
      ensures Full(now[i - 1], now[i])
    {
      if i < |was| {
        assert Full(was[i - 1], was[i]);
      }
    }
  }

  lemma PartBytesOneMore(part: seq<Op>, op: Op)
    ensures PartBytes(part + [op]) == PartBytes(part) + OpBytes(op)
  {
    assert (part + [op])[..|part|] == part;
  }

  // ── The greedy split is minimal ─────────────────────────────────────────

  /** The operations in the first `k` parts. */
  function Reach<T>(parts: seq<seq<T>>, k: nat): nat
    requires k <= |parts|
  {
    |Joined(parts[..k])|
  }

  /** A full part and the operation after it hold no part that fits. */
  lemma NoLongerPart(out: seq<seq<Op>>, ops: seq<Op>, k: nat, p: nat, r: nat)
    requires Split(out, ops) && Greedy(out) && k + 1 < |out|
    requires p <= Reach(out, k) && p <= r && Reach(out, k + 1) < r <= |ops|
    ensures !Fits(ops[p..r])
  {
    hide Fits, Joined, Reach;
    ReachNext(out, ops, k);
    ReachNext(out, ops, k + 1);
    var i, j := Reach(out, k), Reach(out, k + 1);
    var more := out[k] + [out[k + 1][0]];
    assert Full(out[k + 1 - 1], out[k + 1]);
    assert more == ops[i..j + 1] == ops[p..r][i - p..j + 1 - p];
    if Fits(ops[p..r]) {
      SubpartFits(ops[p..r], i - p, j + 1 - p);
    }
  }

  /** After any number of parts the greedy split has taken at least as many
      operations as another split. */
  lemma {:induction false} GreedyStaysAhead(out: seq<seq<Op>>, parts: seq<seq<Op>>, ops: seq<Op>, k: nat)
    requires Split(out, ops) && Greedy(out) && Split(parts, ops)
    requires k < |out| && k <= |parts|
    ensures Reach(out, k) >= Reach(parts, k)
  {
    if k > 0 {
      GreedyStaysAhead(out, parts, ops, k - 1);
      ReachNext(parts, ops, k - 1);
      if Reach(out, k) < Reach(parts, k) {
        NoLongerPart(out, ops, k - 1, Reach(parts, k - 1), Reach(parts, k));
      }
    }
  }

  lemma GreedyIsMinimal(out: seq<seq<Op>>, ops: seq<Op>)
    requires Split(out, ops) && (out == [] || Greedy(out))
    ensures Minimal(out, ops)
  {
    hide Greedy;
    forall parts | Split(parts, ops)
      ensures |out| <= |parts|
    {
      if |parts| < |out| {
        GreedyStaysAhead(out, parts, ops, |parts|);
        assert parts[..|parts|] == parts;
        ReachNext(out, ops, |parts|);
      }
    }
  }

  lemma PartHasOps(parts: seq<seq<Op>>, ops: seq<Op>, k: nat)
    requires Split(parts, ops) && k < |parts|
    ensures parts[k] != []
  {
    assert Fits(parts[k]);
  }

  /** Part `k` is the slice of `ops` between two reaches. */
  lemma {:induction false} ReachNext(parts: seq<seq<Op>>, ops: seq<Op>, k: nat)
    requires Split(parts, ops) && k < |parts|
    ensures Reach(parts, k) < Reach(parts, k + 1) <= |ops|
    ensures parts[k] == ops[Reach(parts, k)..Reach(parts, k + 1)]
    ensures ops[..Reach(parts, k + 1)] == Joined(parts[..k + 1])
    decreases |parts| - k
  {
    hide Fits, Joined;
    PartHasOps(parts, ops, k);
    var before, upTo := Joined(parts[..k]), Joined(parts[..k + 1]);
    assert parts[..k + 1] == parts[..k] + [parts[k]];
    JoinedOneMore(parts[..k], parts[k]);
    if k + 1 == |parts| {
      assert parts[..k + 1] == parts;
    } else {
      ReachNext(parts, ops, k + 1);
      assert parts[..k + 2] == parts[..k + 1] + [parts[k + 1]];
      JoinedOneMore(parts[..k + 1], parts[k + 1]);
      assert ops[..Reach(parts, k + 2)] == upTo + parts[k + 1];
      assert ops[..|upTo|] == ops[..Reach(parts, k + 2)][..|upTo|];
    }
    assert ops[..|upTo|] == upTo && upTo == before + parts[k];
  }

  lemma SubpartFits(part: seq<Op>, i: nat, j: nat)
    requires Fits(part) && i < j <= |part|
    ensures Fits(part[i..j])
  {
    hide PartBytes;
    var rest, head, mid, tail := part[..j], part[..i], part[i..j], part[j..];
    PartBytesConcat(rest, tail);
    assert rest + tail == part;
    PartBytesConcat(head, mid);
    assert head + mid == rest;
    assert PartBytes(mid) <= PartBytes(part);
    assert |part| == 1 ==> mid == part;
  }

  lemma {:induction false} PartBytesConcat(a: seq<Op>, b: seq<Op>)
    ensures PartBytes(a + b) == PartBytes(a) + PartBytes(b)
    decreases |b|
  {
    if b == [] {
      assert a + b == a;
    } else {
      var n := |b| - 1;
      assert (a + b)[..|a + b| - 1] == a + b[..n];
      PartBytesConcat(a, b[..n]);
    }
  }
}
