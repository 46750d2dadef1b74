/** Callback-form subscriptions to one source: the list of them, and what a new one does to it. */
module Registry {
  import opened Basics
  import opened Watch

  /** The old form: raw values, K2's own state handler. */
  const OLD_FORM := Config(false, true, true, true)
  const STAY := Quits(false, false, false)

  /** All watches made for the source, and the list kept under its key. */
  datatype Reg = Reg(watches: seq<State>, list: seq<nat>)

  predicate InRange(r: Reg) {
    forall i | 0 <= i < |r.list| :: r.list[i] < |r.watches|
  }

  predicate IsRetrying(r: Reg, w: nat) {
    w < |r.watches| && r.watches[w].now == Retrying
  }

  function Cut(list: seq<nat>, k: nat): (rest: seq<nat>)
    requires k < |list|
    ensures |rest| == |list| - 1
  {
    list[..k] + list[k + 1..]
  }

  /** A watch's `stop`, when it stands at `k` in the list. */
  function StopAt(r: Reg, k: nat): (t: Reg)
    requires k < |r.list| && InRange(r)
    ensures InRange(t) && |t.watches| == |r.watches|
  {
    Reg(r.watches[r.list[k] := DoUnsubscribe(r.watches[r.list[k]])], Cut(r.list, k))
  }

  /** The filter from index `k` on. It reads the list that `stop` shortens, so
      after a stop the next watch has moved to an index already passed. */
  function FilterStop(r: Reg, k: nat, kept: seq<nat>): (Reg, seq<nat>)
    requires InRange(r)
    decreases |r.list| - k
  {
    if k >= |r.list| then (r, kept)
    else if IsRetrying(r, r.list[k]) then FilterStop(StopAt(r, k), k + 1, kept)
    else FilterStop(r, k + 1, kept + [r.list[k]])
  }

  /** What the filter is meant to keep. */
  function Others(r: Reg, list: seq<nat>): seq<nat> {
    if list == [] then []
    else (if IsRetrying(r, list[0]) then [] else [list[0]]) + Others(r, list[1..])
  }

  /** Every retrying watch of the list stopped, every other kept. */
  predicate ReplacesAll(r: Reg, t: Reg, kept: seq<nat>) {
    && kept == Others(r, r.list)
    && forall i | 0 <= i < |r.list| && IsRetrying(r, r.list[i]) ::
         r.list[i] < |t.watches| && !t.watches[r.list[i]].live
  }

  predicate OnlyLastRetries(r: Reg) {
    forall i | 0 <= i < |r.list| - 1 :: !IsRetrying(r, r.list[i])
  }

  /** A listed watch that is retrying is live: `stop` takes it off the list. */
  predicate RetryingIsLive(r: Reg) {
    forall i | 0 <= i < |r.list| && IsRetrying(r, r.list[i]) :: r.watches[r.list[i]].live
  }

  // ── The filter, exactly ─────────────────────────────────────────────────

  lemma {:induction false} FilterKeepsQuiet(r: Reg, k: nat, n: nat)
    requires InRange(r) && k <= n <= |r.list|
    requires forall i | k <= i < n :: !IsRetrying(r, r.list[i])
    ensures FilterStop(r, k, r.list[..k]) == FilterStop(r, n, r.list[..n])
    decreases n - k
  {
    if k < n {
      assert r.list[..k] + [r.list[k]] == r.list[..k + 1];
      FilterKeepsQuiet(r, k + 1, n);
    }
  }

  /** With no retrying watch but the last the filter does what it is meant to. */
  lemma FilterWhenLast(r: Reg)
    requires InRange(r) && OnlyLastRetries(r)
    ensures FilterStop(r, 0, [])
         == if r.list != [] && IsRetrying(r, r.list[|r.list| - 1])
            then (StopAt(r, |r.list| - 1), r.list[..|r.list| - 1]) else (r, r.list)
  {
    var n := |r.list|;
    assert r.list[..0] == [];
    if n > 0 && IsRetrying(r, r.list[n - 1]) {
      FilterKeepsQuiet(r, 0, n - 1);
    } else {
      assert forall i | 0 <= i < n :: !IsRetrying(r, r.list[i]);
      FilterKeepsQuiet(r, 0, n);
      assert r.list[..n] == r.list;
    }
  }

  lemma Apart(list: seq<nat>, i: nat, k: nat)
    requires Distinct(list) && i < k < |list|
    ensures list[i] != list[k]
  {}

  lemma CutDistinct(list: seq<nat>, k: nat)
    requires k < |list| && Distinct(list)
    ensures Distinct(Cut(list, k))
  {
    var rest := Cut(list, k);
    forall a, b | 0 <= a < b < |rest| ensures rest[a] != rest[b] {
      assert rest[a] == list[if a < k then a else a + 1];
      assert rest[b] == list[if b < k then b else b + 1];
    }
  }

  /** What the filter has passed it neither keeps nor stops. */
  lemma {:induction false} PassedIsLeft(r: Reg, k: nat, kept: seq<nat>, x: nat)
    requires InRange(r) && Distinct(r.list) && k <= |r.list| && x in r.list[..k] && x !in kept
    ensures var (t, all) := FilterStop(r, k, kept);
            x !in all && |t.watches| == |r.watches| && x < |r.watches| && t.watches[x] == r.watches[x]
    decreases |r.list| - k
  {
    hide Distinct;
    var i :| 0 <= i < k && r.list[..k][i] == x;
    assert r.list[i] == x;
    if k < |r.list| {
      assert r.list[k] != x by { Apart(r.list, i, k); }
      if IsRetrying(r, r.list[k]) {
        var t := StopAt(r, k);
        assert t.list[i] == x;
        CutDistinct(r.list, k);
        if k + 1 <= |t.list| {
          assert t.list[..k + 1][i] == x;
          PassedIsLeft(t, k + 1, kept, x);
        }
      } else {
        assert r.list[..k + 1][i] == x;
        PassedIsLeft(r, k + 1, kept + [r.list[k]], x);
      }
    }
  }

  /** The watch after the first retrying one is skipped: it is off the list
      and, retrying or not, goes on as before. */
  lemma SkippedIsLost(r: Reg, j: nat)
    requires InRange(r) && Distinct(r.list) && j + 1 < |r.list| && IsRetrying(r, r.list[j])
    requires forall i | 0 <= i < j :: !IsRetrying(r, r.list[i])
    ensures var (t, kept) := FilterStop(r, 0, []);
            var x := r.list[j + 1];
            x !in kept && x < |t.watches| && t.watches[x] == r.watches[x]
  {
    hide Distinct;
    assert r.list[..0] == [];
    FilterKeepsQuiet(r, 0, j);
    var t, x := StopAt(r, j), r.list[j + 1];
    assert t.list[j] == x && t.list[..j + 1][j] == x;
    forall i | 0 <= i <= j ensures r.list[i] != x {
      Apart(r.list, i, j + 1);
    }
    assert x !in r.list[..j];
    CutDistinct(r.list, j);
    PassedIsLeft(t, j + 1, r.list[..j], x);
  }

  lemma {:induction false} OthersAre(r: Reg, list: seq<nat>)
    ensures forall x :: x in Others(r, list) <==> x in list && !IsRetrying(r, x)
  {
    if list != [] {
      OthersAre(r, list[1..]);
      assert forall x :: x in list <==> x == list[0] || x in list[1..];
    }
  }

  lemma {:induction false} OthersOfQuiet(r: Reg, list: seq<nat>)
    requires forall i | 0 <= i < |list| - 1 :: !IsRetrying(r, list[i])
    ensures Others(r, list)
         == if list != [] && IsRetrying(r, list[|list| - 1]) then list[..|list| - 1] else list
  {
    if |list| == 1 {
      assert Others(r, list[1..]) == [];
    } else if |list| > 1 {
      OthersOfQuiet(r, list[1..]);
      assert list == [list[0]] + list[1..];
      assert list[..|list| - 1] == [list[0]] + list[1..][..|list[1..]| - 1];
    }
  }

  /** A new subscription replaces every retrying one and keeps every other
      exactly when no watch of the list but the last is retrying. */
  lemma ReplacesAllExactly(r: Reg)
    requires InRange(r) && Distinct(r.list) && RetryingIsLive(r)
    ensures var (t, kept) := FilterStop(r, 0, []);
            ReplacesAll(r, t, kept) <==> OnlyLastRetries(r)
  {
    hide FilterStop, Others;
    if OnlyLastRetries(r) {
      FilterWhenLast(r);
      OthersOfQuiet(r, r.list);
    } else {
      var j := FirstRetrying(r, 0);
      SkippedIsLost(r, j);
      OthersAre(r, r.list);
    }
  }

  lemma FirstRetrying(r: Reg, k: nat) returns (j: nat)
    requires k <= |r.list| && !OnlyLastRetries(r)
    requires forall i | 0 <= i < k :: !IsRetrying(r, r.list[i])
    ensures j < |r.list| - 1 && IsRetrying(r, r.list[j])
    ensures forall i | 0 <= i < j :: !IsRetrying(r, r.list[i])
    decreases |r.list| - k
  {
    if IsRetrying(r, r.list[k]) {
      j := k;
    } else {
      j := FirstRetrying(r, k + 1);
    }
  }
}
