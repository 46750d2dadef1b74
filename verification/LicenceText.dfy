/** The licence check on text: what the splits and the trim do to an expression as written. */
module LicenceText {
  import opened Basics
  import opened Licence

  // ── The text ────────────────────────────────────────────────────────────

  /** What `\s` matches and `trim` drops. */
  predicate Space(c: char) {
    var n := c as int;
    n == 0x20 || 0x09 <= n <= 0x0d || n == 0xa0 || n == 0x1680 || 0x2000 <= n <= 0x200a || n == 0x2028 || n == 0x2029
    || n == 0x202f || n == 0x205f || n == 0x3000 || n == 0xfeff
  }

  /** The white space and line ends of ECMAScript, sections 12.2 and 12.3, one by one. */
  const SPACES: set<int> := {
    0x09, 0x0a, 0x0b, 0x0c, 0x0d, 0x20, 0xa0, 0x1680, 0x2000, 0x2001, 0x2002, 0x2003, 0x2004, 0x2005, 0x2006, 0x2007,
    0x2008, 0x2009, 0x200a, 0x2028, 0x2029, 0x202f, 0x205f, 0x3000, 0xfeff
  }

  lemma SpacesAre(c: char)
    ensures Space(c) <==> c as int in SPACES
  {}

  predicate Bracket(c: char) {
    c == '(' || c == ')'
  }

  function NoBrackets(s: string): (r: string)
    ensures (forall c | c in s :: !Bracket(c)) ==> r == s
  {
    if s == [] then [] else (if Bracket(s[0]) then [] else [s[0]]) + NoBrackets(s[1..])
  }

  function SkipSpaces(s: string): (r: string)
    ensures |r| <= |s|
  {
    if s != [] && Space(s[0]) then SkipSpaces(s[1..]) else s
  }

  function DropSpaces(s: string): (r: string) {
    if s != [] && Space(s[|s| - 1]) then DropSpaces(s[..|s| - 1]) else s
  }

  function Trim(s: string): string {
    DropSpaces(SkipSpaces(s))
  }

  /** `\s+word\s+` at the front of `s`: what follows the match. */
  function Match(word: string, s: string): (m: Option<string>)
    ensures m.Some? ==> |m.value| < |s|
  {
    if s == [] || !Space(s[0]) then None
    else
      var r := SkipSpaces(s);
      if word <= r && |word| < |r| && Space(r[|word|]) then Some(SkipSpaces(r[|word| + 1..])) else None
  }

  /** `s.split(/\s+word\s+/)`. */
  function Split(word: string, s: string): (pieces: seq<string>)
    ensures pieces != []
    decreases |s|
  {
    if s == [] then [[]]
    else
      var m := Match(word, s);
      if m.Some? then [[]] + Split(word, m.value)
      else
        var rest := Split(word, s[1..]);
        [[s[0]] + rest[0]] + rest[1..]
  }

  predicate SomeAllowed(ids: seq<string>, allowed: set<string>) {
    exists i | 0 <= i < |ids| :: Trim(ids[i]) in allowed
  }

  predicate LicenceOk(text: string) {
    var terms := Split("AND", NoBrackets(text));
    forall i | 0 <= i < |terms| :: SomeAllowed(Split("OR", terms[i]), ALLOWED)
  }

  // ── Expressions written out ─────────────────────────────────────────────

  /** An expression as written: ids and operators with what stands around them. */
  datatype Written =
    | Last(before: string, id: string, after: string)
    | More(before: string, id: string, after: string, op: Token, rest: Written)

  function Name(op: Token): string
    requires !op.Id?
  {
    if op.AndOp? then "AND" else "OR"
  }

  function Text(w: Written): string
    requires Ordered(w)
    decreases w, 1
  {
    w.before + (w.id + After(w))
  }

  function After(w: Written): string
    requires Ordered(w)
    decreases w, 0
  {
    if w.Last? then w.after else w.after + (Name(w.op) + Text(w.rest))
  }

  predicate Ordered(w: Written) {
    w.More? ==> !w.op.Id? && Ordered(w.rest)
  }

  function Toks(w: Written): seq<Token> {
    [Id(w.id)] + if w.Last? then [] else [w.op] + Toks(w.rest)
  }

  /** Spaces and brackets only. */
  predicate Gap(s: string) {
    forall c | c in s :: Space(c) || Bracket(c)
  }

  /** A name: not an operator, no space or bracket in it. */
  predicate IsId(s: string) {
    s != [] && s != "AND" && s != "OR" && forall c | c in s :: !Space(c) && !Bracket(c)
  }

  /** Gaps, names and operators, brackets anywhere. */
  predicate WellWritten(w: Written) {
    Gap(w.before) && IsId(w.id) && Gap(w.after) && (w.More? ==> !w.op.Id? && WellWritten(w.rest))
  }

  predicate HasSpace(gap: string) {
    exists i | 0 <= i < |gap| :: Space(gap[i])
  }

  /** A space on both sides of the first operator. */
  predicate SpacedHere(w: Written) {
    w.More? && HasSpace(w.after) && HasSpace(w.rest.before)
  }

  /** A space on both sides of each operator. */
  predicate Spaced(w: Written) {
    w.More? ==> SpacedHere(w) && Spaced(w.rest)
  }

  // ── What the splits find ────────────────────────────────────────────────

  predicate Spaces(s: string) {
    forall c | c in s :: Space(c)
  }

  predicate Solid(s: string) {
    s != [] && forall c | c in s :: !Space(c)
  }

  function Prepend(u: string, pieces: seq<string>): seq<string>
    requires pieces != []
  {
    [u + pieces[0]] + pieces[1..]
  }

  lemma PrependTwice(u: string, v: string, pieces: seq<string>)
    requires pieces != []
    ensures Prepend(u, Prepend(v, pieces)) == Prepend(u + v, pieces)
  {
    assert u + (v + pieces[0]) == u + v + pieces[0];
  }

  lemma PrependNothing(pieces: seq<string>)
    requires pieces != []
    ensures Prepend([], pieces) == pieces
  {
    assert [] + pieces[0] == pieces[0];
  }

  lemma {:induction false} SkipIs(g: string, v: string)
    requires Spaces(g) && (v == [] || !Space(v[0]))
    ensures SkipSpaces(g + v) == v
  {
    if g == [] {
      assert g + v == v;
    } else {
      assert (g + v)[1..] == g[1..] + v;
      SkipIs(g[1..], v);
    }
  }

  /** No match starts inside a solid word. */
  lemma {:induction false} SplitSolid(word: string, u: string, v: string)
    requires forall c | c in u :: !Space(c)
    ensures Split(word, u + v) == Prepend(u, Split(word, v))
  {
    if u == [] {
      assert u + v == v;
      PrependNothing(Split(word, v));
    } else {
      assert (u + v)[1..] == u[1..] + v;
      SplitSolid(word, u[1..], v);
      PrependTwice([u[0]], u[1..], Split(word, v));
      assert [u[0]] + u[1..] == u;
    }
  }

  /** `v` does not start with `word` and a space. */
  predicate Other(word: string, v: string) {
    !(word <= v && |word| < |v| && Space(v[|word|]))
  }

  /** No match starts in a gap that another word follows. */
  lemma {:induction false} SplitGap(word: string, g: string, v: string)
    requires Spaces(g) && (v == [] || !Space(v[0])) && Other(word, v)
    ensures Split(word, g + v) == Prepend(g, Split(word, v))
  {
    if g == [] {
      assert g + v == v;
      PrependNothing(Split(word, v));
    } else {
      assert (g + v)[1..] == g[1..] + v;
      SkipIs(g, v);
      SplitGap(word, g[1..], v);
      PrependTwice([g[0]], g[1..], Split(word, v));
      assert [g[0]] + g[1..] == g;
    }
  }

  lemma SplitMatch(word: string, g: string, h: string, x: string)
    requires Spaces(g) && g != [] && Solid(word) && Spaces(h) && h != [] && (x == [] || !Space(x[0]))
    ensures Split(word, g + word + h + x) == [[]] + Split(word, x)
  {
    var v := word + h + x;
    assert g + word + h + x == g + v;
    SkipIs(g, v);
    assert v[|word|] == h[0] && word <= v;
    assert v[|word| + 1..] == h[1..] + x;
    SkipIs(h[1..], x);
    assert Match(word, g + v) == Some(x);
  }

  /** A solid word that is not `word`, before a space or the end. */
  lemma SolidIsOther(word: string, id: string, rest: string)
    requires Solid(word) && Solid(id) && id != word && (rest == [] || Space(rest[0]))
    ensures Other(word, id + rest)
  {
    var v := id + rest;
    assert |id| < |word| && rest != [] ==> v[|id|] == rest[0];
    assert |word| < |id| ==> v[|word|] == id[|word|];
  }

  /** Gaps hold spaces only. */
  predicate Clean(w: Written) {
    && Spaces(w.before) && IsId(w.id) && Spaces(w.after)
    && (w.More? ==> !w.op.Id? && Clean(w.rest))
  }

  /** The operator after the first name has a gap on both sides. */
  predicate Loose(w: Written) {
    w.More? && w.after != [] && w.rest.before != []
  }

  predicate CutsHere(w: Written, op: Token) {
    Loose(w) && w.op == op
  }

  function Unspaced(w: Written): Written {
    w.(before := [])
  }

  /** `w` cut at its loose operators `op`. */
  function Cut(w: Written, op: Token): (runs: seq<Written>)
    ensures runs != []
    decreases w
  {
    if w.Last? then [w]
    else
      var rs := Cut(w.rest, op);
      if CutsHere(w, op) then [Last(w.before, w.id, [])] + [Unspaced(rs[0])] + rs[1..]
      else [More(w.before, w.id, w.after, w.op, rs[0])] + rs[1..]
  }

  lemma {:induction false} CutClean(w: Written, op: Token)
    requires Clean(w)
    ensures forall i | 0 <= i < |Cut(w, op)| :: Clean(Cut(w, op)[i]) && Ordered(Cut(w, op)[i])
    ensures Cut(w, op)[0].before == w.before && Ordered(w)
    decreases w
  {
    if w.More? {
      CutClean(w.rest, op);
    }
  }

  function Texts(ws: seq<Written>): (r: seq<string>)
    requires forall i | 0 <= i < |ws| :: Ordered(ws[i])
    ensures |r| == |ws| && forall i | 0 <= i < |ws| :: r[i] == Text(ws[i])
  {
    if ws == [] then [] else [Text(ws[0])] + Texts(ws[1..])
  }

  lemma NameIsSolid(op: Token)
    requires !op.Id?
    ensures Solid(Name(op))
  {}

  lemma TextParts(w: Written)
    requires Ordered(w)
    ensures Ordered(Unspaced(w)) && After(Unspaced(w)) == After(w)
    ensures Text(w) == w.before + Text(Unspaced(w)) && Text(Unspaced(w)) == w.id + After(w)
  {
    assert [] + (w.id + After(w)) == w.id + After(w);
  }

  /** A name that touches the next operator. */
  lemma JoinedIsOther(word: string, id: string, name: string, rest: string)
    requires (word == "AND" || word == "OR") && (name == "AND" || name == "OR") && Solid(id)
    ensures Other(word, id + (name + rest))
  {
    var v := id + (name + rest);
    assert v[|id|] == name[0] && v[|id| + 1] == name[1];
    assert !Space(name[0]) && !Space(name[1]);
    assert forall i | 0 <= i < |id| :: v[i] == id[i];
    assert |word| == 2 ==> v[2] == if |id| == 1 then name[1] else if |id| == 2 then name[0] else id[2];
  }

  lemma IdIsOther(w: Written, op: Token)
    requires Clean(w) && Ordered(w) && !op.Id?
    ensures Other(Name(op), w.id + After(w))
  {
    hide Space;
    NameIsSolid(op);
    if w.More? && w.after == [] {
      assert After(w) == Name(w.op) + Text(w.rest);
      JoinedIsOther(Name(op), w.id, Name(w.op), Text(w.rest));
    } else {
      SolidIsOther(Name(op), w.id, After(w));
    }
  }

  lemma FrontOfText(w: Written, op: Token)
    requires Clean(w) && Ordered(w) && !op.Id?
    ensures Split(Name(op), Text(w)) == Prepend(w.before + w.id, Split(Name(op), After(w)))
  {
    hide Split, Space;
    var word := Name(op);
    NameIsSolid(op);
    TextParts(w);
    IdIsOther(w, op);
    SplitGap(word, w.before, w.id + After(w));
    SplitSolid(word, w.id, After(w));
    PrependTwice(w.before, w.id, Split(word, After(w)));
  }

  lemma PastGap(w: Written, op: Token)
    requires Clean(w) && Ordered(w) && !op.Id?
    ensures Ordered(Unspaced(w))
    ensures Split(Name(op), Text(w)) == Prepend(w.before, Split(Name(op), Text(Unspaced(w))))
  {
    hide Split, Space;
    TextParts(w);
    FrontOfText(w, op);
    FrontOfText(Unspaced(w), op);
    assert Unspaced(w).before + w.id == w.id;
    PrependTwice(w.before, w.id, Split(Name(op), After(w)));
  }

  /** The split at an operator finds exactly the cuts. */
  lemma {:induction false} SplitIsCut(w: Written, op: Token)
    requires Clean(w) && !op.Id?
    ensures forall i | 0 <= i < |Cut(w, op)| :: Ordered(Cut(w, op)[i])
    ensures Ordered(w) && Split(Name(op), Text(w)) == Texts(Cut(w, op))
    decreases w
  {
    hide *;
    var word := Name(op);
    CutClean(w, op);
    FrontOfText(w, op);
    if w.Last? {
      SplitLast(w, op);
    } else {
      CleanRest(w, op);
      CutClean(w.rest, op);
      SplitIsCut(w.rest, op);
      if CutsHere(w, op) {
        SplitAtOp(w, op);
      } else {
        SplitPastOp(w, op);
      }
    }
  }

  lemma CleanRest(w: Written, op: Token)
    requires Clean(w)
    ensures w.More? ==> Clean(w.rest)
    ensures Spaces(w.after)
  {}

  lemma SplitNothing(word: string)
    ensures Split(word, []) == [[]]
  {}

  lemma SplitLast(w: Written, op: Token)
    requires Clean(w) && w.Last? && Ordered(w) && !op.Id?
    requires Split(Name(op), Text(w)) == Prepend(w.before + w.id, Split(Name(op), After(w)))
    ensures forall i | 0 <= i < |Cut(w, op)| :: Ordered(Cut(w, op)[i])
    ensures Split(Name(op), Text(w)) == Texts(Cut(w, op))
  {
    hide Split, Space, Clean;
    NameIsSolid(op);
    SplitGap(Name(op), w.after, []) by { CleanRest(w, op); }
    assert After(w) == w.after + [];
    SplitNothing(Name(op));
    assert w.after + [] == w.after && w.before + w.id + w.after == w.before + (w.id + w.after) == Text(w);
    assert Cut(w, op) == [w] && Texts([w]) == [Text(w)];
  }

  lemma AfterAtOp(w: Written, op: Token)
    requires Clean(w) && CutsHere(w, op) && !op.Id? && Ordered(w) && Clean(w.rest) && Ordered(w.rest)
    ensures Ordered(Unspaced(w.rest))
    ensures Split(Name(op), After(w)) == [[]] + Split(Name(op), Text(Unspaced(w.rest)))
  {
    hide Split, Space, Text;
    var rest := w.rest;
    TextParts(rest);
    var y := Text(Unspaced(rest));
    assert After(w) == w.after + (Name(op) + (rest.before + y));
    assert w.after + (Name(op) + (rest.before + y)) == w.after + Name(op) + rest.before + y;
    NameIsSolid(op);
    assert y[0] == rest.id[0];
    SplitMatch(Name(op), w.after, rest.before, y);
  }

  lemma NameIsOther(w: Written, op: Token)
    requires Clean(w) && w.More? && !CutsHere(w, op) && !op.Id? && w.after != [] && Ordered(w.rest)
    ensures Other(Name(op), Name(w.op) + Text(w.rest))
  {
    NameIsSolid(op);
    NameIsSolid(w.op);
    TextParts(w.rest);
    var rest := w.rest;
    if rest.before == [] {
      assert Text(rest)[0] == rest.id[0];
      assert (Name(w.op) + Text(rest))[|Name(w.op)|] == rest.id[0];
      NamesDiffer(op, w.op, Text(rest));
    } else {
      assert Text(rest)[0] == rest.before[0];
      SolidIsOther(Name(op), Name(w.op), Text(rest));
    }
  }

  lemma NamesDiffer(a: Token, b: Token, rest: string)
    requires !a.Id? && !b.Id?
    ensures Name(a) <= Name(b) + rest ==> a == b
  {
    assert (Name(b) + rest)[0] == Name(b)[0];
  }

  lemma AfterPastOp(w: Written, op: Token)
    requires Clean(w) && w.More? && !CutsHere(w, op) && !op.Id? && Ordered(w) && Clean(w.rest) && Ordered(w.rest)
    ensures Split(Name(op), After(w)) == Prepend(w.after + Name(w.op), Split(Name(op), Text(w.rest)))
  {
    hide Split, Space, Text;
    var word, name, rest := Name(op), Name(w.op), w.rest;
    NameIsSolid(op);
    NameIsSolid(w.op);
    TextParts(rest);
    if w.after == [] {
      PrependNothing(Split(word, name + Text(rest)));
      assert [] + (name + Text(rest)) == name + Text(rest);
    } else {
      NameIsOther(w, op);
      SplitGap(word, w.after, name + Text(rest));
    }
    SplitSolid(word, name, Text(rest));
    PrependTwice(w.after, name, Split(word, Text(rest)));
  }

  lemma CutsBefore(w: Written, op: Token, x: seq<string>)
    requires Clean(w) && CutsHere(w, op) && x != []
    requires forall i | 0 <= i < |Cut(w, op)| :: Ordered(Cut(w, op)[i])
    requires forall i | 0 <= i < |Cut(w.rest, op)| :: Ordered(Cut(w.rest, op)[i])
    requires Cut(w.rest, op)[0].before == w.rest.before
    requires Prepend(w.rest.before, x) == Texts(Cut(w.rest, op))
    ensures Texts(Cut(w, op)) == [w.before + w.id] + x
  {
    hide Texts, Cut, Text, Clean;
    var rs, cuts := Cut(w.rest, op), Cut(w, op);
    CutAtOp(w, op);
    TextParts(rs[0]);
    var u := Text(Unspaced(rs[0]));
    var b := w.rest.before;
    assert b + x[0] == b + u;
    assert x[0] == (b + x[0])[|b|..] == (b + u)[|b|..] == u;
    TextOfLast(w.before, w.id);
    assert |cuts| == |x| + 1;
    forall i | 0 < i < |cuts| ensures Text(cuts[i]) == x[i - 1] {
      if i > 1 {
        assert cuts[i] == rs[i - 1] && Texts(rs)[i - 1] == x[i - 1];
      }
    }
    assert Texts(cuts) == [w.before + w.id] + x;
  }

  lemma CutsPast(w: Written, op: Token)
    requires Clean(w) && w.More? && !CutsHere(w, op) && !w.op.Id?
    requires forall i | 0 <= i < |Cut(w, op)| :: Ordered(Cut(w, op)[i])
    requires forall i | 0 <= i < |Cut(w.rest, op)| :: Ordered(Cut(w.rest, op)[i])
    ensures Texts(Cut(w, op)) == Prepend(w.before + w.id + (w.after + Name(w.op)), Texts(Cut(w.rest, op)))
  {
    hide Texts, Cut, Text, Clean;
    var rs, cuts, name := Cut(w.rest, op), Cut(w, op), Name(w.op);
    CutPastOp(w, op);
    TextOfMore(w.before, w.id, w.after, w.op, rs[0]);
    var t := Text(rs[0]);
    assert w.before + w.id + (w.after + name) + t == w.before + (w.id + (w.after + (name + t)));
    forall i | 0 < i < |cuts| ensures Text(cuts[i]) == Texts(rs)[i] {
      assert cuts[i] == rs[i];
    }
  }

  lemma SplitAtOp(w: Written, op: Token)
    requires Clean(w) && CutsHere(w, op) && !op.Id? && Ordered(w) && Clean(w.rest) && Ordered(w.rest)
    requires Split(Name(op), Text(w)) == Prepend(w.before + w.id, Split(Name(op), After(w)))
    requires forall i | 0 <= i < |Cut(w, op)| :: Ordered(Cut(w, op)[i])
    requires forall i | 0 <= i < |Cut(w.rest, op)| :: Ordered(Cut(w.rest, op)[i])
    requires Cut(w.rest, op)[0].before == w.rest.before
    requires Split(Name(op), Text(w.rest)) == Texts(Cut(w.rest, op))
    ensures Split(Name(op), Text(w)) == Texts(Cut(w, op))
  {
    hide Split, Texts, Cut, Text, After, Clean;
    PastGap(w.rest, op);
    AfterAtOp(w, op);
    var x := Split(Name(op), Text(Unspaced(w.rest)));
    CutsBefore(w, op, x);
    assert w.before + w.id + [] == w.before + w.id;
    assert ([[]] + x)[1..] == x;
  }

  lemma CutAtOp(w: Written, op: Token)
    requires CutsHere(w, op)
    ensures Cut(w, op) == [Last(w.before, w.id, [])] + [Unspaced(Cut(w.rest, op)[0])] + Cut(w.rest, op)[1..]
  {}

  lemma CutPastOp(w: Written, op: Token)
    requires w.More? && !CutsHere(w, op)
    ensures Cut(w, op) == [More(w.before, w.id, w.after, w.op, Cut(w.rest, op)[0])] + Cut(w.rest, op)[1..]
  {}

  lemma TextOfMore(before: string, id: string, after: string, op: Token, rest: Written)
    requires !op.Id? && Ordered(rest)
    ensures Text(More(before, id, after, op, rest)) == before + (id + (after + (Name(op) + Text(rest))))
  {}

  lemma TextOfLast(before: string, id: string)
    ensures Text(Last(before, id, [])) == before + id
  {
    assert before + (id + []) == before + id;
  }

  lemma SplitPastOp(w: Written, op: Token)
    requires Clean(w) && w.More? && !CutsHere(w, op) && !op.Id? && Ordered(w) && Clean(w.rest) && Ordered(w.rest)
    requires Split(Name(op), Text(w)) == Prepend(w.before + w.id, Split(Name(op), After(w)))
    requires forall i | 0 <= i < |Cut(w, op)| :: Ordered(Cut(w, op)[i])
    requires forall i | 0 <= i < |Cut(w.rest, op)| :: Ordered(Cut(w.rest, op)[i])
    requires Split(Name(op), Text(w.rest)) == Texts(Cut(w.rest, op))
    ensures Split(Name(op), Text(w)) == Texts(Cut(w, op))
  {
    hide Split, Texts, Cut, Text, After, Clean;
    AfterPastOp(w, op);
    CutsPast(w, op);
    PrependTwice(w.before + w.id, w.after + Name(w.op), Texts(Cut(w.rest, op)));
  }

  // ── The verdict ─────────────────────────────────────────────────────────

  lemma {:induction false} DropIs(id: string, a: string)
    requires Solid(id) && Spaces(a)
    ensures DropSpaces(id + a) == id
  {
    if a == [] {
      assert id + a == id && !Space(id[|id| - 1]);
    } else {
      assert (id + a)[..|id + a| - 1] == id + a[..|a| - 1];
      DropIs(id, a[..|a| - 1]);
    }
  }

  lemma TrimIs(before: string, id: string, after: string)
    requires Spaces(before) && Solid(id) && Spaces(after)
    ensures Trim(before + (id + after)) == id
  {
    hide SkipSpaces, DropSpaces;
    assert (id + after)[0] == id[0];
    SkipIs(before, id + after);
    DropIs(id, after);
  }

  /** An allowed name that stands alone: `joined` tells whether the operator
      before it touches it, and so hides it from the splits. */
  predicate Plain(w: Written, joined: bool) {
    !joined && (w.Last? || Loose(w))
  }

  /** No loose AND: one stretch for the split at AND. */
  predicate OneRun(w: Written) {
    w.More? ==> !CutsHere(w, AndOp) && OneRun(w.rest)
  }

  predicate HasPlain(w: Written, joined: bool, allowed: set<string>) {
    (Plain(w, joined) && w.id in allowed) || (w.More? && HasPlain(w.rest, !Loose(w), allowed))
  }

  predicate PlainPiece(w: Written, allowed: set<string>) {
    w.Last? && w.id in allowed
  }

  predicate LaterPiece(pieces: seq<Written>, allowed: set<string>) {
    exists i | 0 < i < |pieces| :: PlainPiece(pieces[i], allowed)
  }

  lemma {:induction false} OrPieces(w: Written, joined: bool, allowed: set<string>)
    requires OneRun(w) && Clean(w)
    ensures var pieces := Cut(w, OrOp);
            HasPlain(w, joined, allowed) <==>
            (!joined && PlainPiece(pieces[0], allowed)) || LaterPiece(pieces, allowed)
    decreases w
  {
    if w.More? {
      OrPieces(w.rest, !Loose(w), allowed);
      hide Cut;
      var rs, pieces := Cut(w.rest, OrOp), Cut(w, OrOp);
      if CutsHere(w, OrOp) {
        CutAtOp(w, OrOp);
        assert pieces[1] == Unspaced(rs[0]);
        assert forall i | 1 < i < |pieces| :: pieces[i] == rs[i - 1];
        assert forall i | 0 < i < |rs| :: rs[i] == pieces[i + 1];
      } else {
        CutPastOp(w, OrOp);
        assert forall i | 0 < i < |pieces| :: pieces[i] == rs[i];
      }
    }
  }

  /** No allowed name has an operator's letters in it. */
  lemma AllowedHoldNoOperator(s: string, n: nat)
    requires s in ALLOWED && n + 1 < |s|
    ensures !(s[n] == 'A' && s[n + 1] == 'N') && !(s[n] == 'O' && s[n + 1] == 'R')
  {}

  lemma {:induction false} DropKeeps(u: string, v: string)
    requires u != [] && !Space(u[|u| - 1])
    ensures u <= DropSpaces(u + v)
    decreases |v|
  {
    if v == [] {
      assert u + v == u;
    } else {
      assert (u + v)[..|u + v| - 1] == u + v[..|v| - 1];
      DropKeeps(u, v[..|v| - 1]);
    }
  }

  /** A piece with an operator in it is no allowed name. */
  lemma LongPieceIsRefused(piece: Written)
    requires Clean(piece) && piece.More? && Ordered(piece)
    ensures Trim(Text(piece)) !in ALLOWED
  {
    hide SkipSpaces, DropSpaces, Space;
    var name, t := Name(piece.op), Text(piece.rest);
    var u := piece.id + piece.after + name;
    NameIsSolid(piece.op);
    assert piece.id + (piece.after + (name + t)) == u + t;
    assert (u + t)[0] == piece.id[0] && u[|u| - 1] == name[|name| - 1];
    assert Text(piece) == piece.before + (u + t);
    SkipIs(piece.before, u + t);
    DropKeeps(u, t);
    var x := Trim(Text(piece));
    var n := |piece.id + piece.after|;
    assert x[n] == u[n] == name[0] && x[n + 1] == u[n + 1] == name[1];
    if x in ALLOWED {
      AllowedHoldNoOperator(x, n);
    }
  }

  lemma PieceIsPlain(piece: Written)
    requires Clean(piece) && Ordered(piece)
    ensures Trim(Text(piece)) in ALLOWED <==> PlainPiece(piece, ALLOWED)
  {
    hide Trim;
    if piece.Last? {
      TrimIs(piece.before, piece.id, piece.after);
    } else {
      LongPieceIsRefused(piece);
    }
  }

  lemma RunIsAllowed(w: Written)
    requires Clean(w) && OneRun(w) && Ordered(w)
    ensures SomeAllowed(Split("OR", Text(w)), ALLOWED) <==> HasPlain(w, false, ALLOWED)
  {
    hide Split, Cut, Text, Texts, Trim, OneRun, HasPlain, Space, PlainPiece, Clean;
    SplitIsCut(w, OrOp);
    CutClean(w, OrOp);
    OrPieces(w, false, ALLOWED);
    var pieces := Cut(w, OrOp);
    forall i | 0 <= i < |pieces| ensures Trim(Texts(pieces)[i]) in ALLOWED <==> PlainPiece(pieces[i], ALLOWED) {
      PieceIsPlain(pieces[i]);
    }
  }

  /** Reading the names and operators as the splits see them. */
  function Look(w: Written, joined: bool, r: Reading, allowed: set<string>): Reading {
    var after := Reading(r.fine, r.got || (Plain(w, joined) && w.id in allowed));
    if w.Last? then after
    else if CutsHere(w, AndOp) then Look(w.rest, false, Reading(after.fine && after.got, false), allowed)
    else Look(w.rest, !Loose(w), after, allowed)
  }

  /** All runs but the first hold a plain allowed name. */
  predicate LaterPlain(rs: seq<Written>, allowed: set<string>) {
    forall i | 0 < i < |rs| :: HasPlain(rs[i], false, allowed)
  }

  lemma LaterRuns(w: Written, joined: bool, allowed: set<string>)
    requires w.More? && Clean(w)
    requires forall i | 0 <= i < |Cut(w.rest, AndOp)| :: OneRun(Cut(w.rest, AndOp)[i])
    requires Cut(w.rest, AndOp)[0].before == w.rest.before
    ensures var rs, cuts := Cut(w.rest, AndOp), Cut(w, AndOp);
            && (forall i | 0 <= i < |cuts| :: OneRun(cuts[i]))
            && (CutsHere(w, AndOp) ==>
                  && HasPlain(cuts[0], joined, allowed) == (!joined && w.id in allowed)
                  && LaterPlain(cuts, allowed) == (HasPlain(rs[0], false, allowed) && LaterPlain(rs, allowed)))
            && (!CutsHere(w, AndOp) ==>
                  && HasPlain(cuts[0], joined, allowed)
                     == ((Plain(w, joined) && w.id in allowed) || HasPlain(rs[0], !Loose(w), allowed))
                  && LaterPlain(cuts, allowed) == LaterPlain(rs, allowed))
  {
    hide Cut;
    var rs, cuts := Cut(w.rest, AndOp), Cut(w, AndOp);
    if CutsHere(w, AndOp) {
      CutAtOp(w, AndOp);
      assert cuts[1] == Unspaced(rs[0]);
      assert OneRun(cuts[1]) == OneRun(rs[0]);
      assert forall i | 1 < i < |cuts| :: cuts[i] == rs[i - 1];
      assert forall i | 0 < i < |rs| :: rs[i] == cuts[i + 1];
    } else {
      CutPastOp(w, AndOp);
      assert forall i | 0 < i < |cuts| :: cuts[i] == rs[i];
    }
  }

  lemma {:induction false} AndRuns(w: Written, joined: bool, r: Reading, allowed: set<string>)
    requires Clean(w)
    ensures var rs := Cut(w, AndOp);
            && (forall i | 0 <= i < |rs| :: OneRun(rs[i]))
            && (Look(w, joined, r, allowed) == Reading(true, true) <==>
                r.fine && (r.got || HasPlain(rs[0], joined, allowed)) && LaterPlain(rs, allowed))
    decreases w
  {
    hide LaterPlain;
    if w.Last? {
      assert Cut(w, AndOp) == [w] && LaterPlain([w], allowed) by { NoLater(w, allowed); }
    } else {
      var after := Reading(r.fine, r.got || (Plain(w, joined) && w.id in allowed));
      CutClean(w.rest, AndOp);
      hide Cut, HasPlain, OneRun;
      if CutsHere(w, AndOp) {
        AndRuns(w.rest, false, Reading(after.fine && after.got, false), allowed);
      } else {
        AndRuns(w.rest, !Loose(w), after, allowed);
      }
      LaterRuns(w, joined, allowed);
    }
  }

  lemma NoLater(w: Written, allowed: set<string>)
    ensures LaterPlain([w], allowed)
  {}

  /** What the two splits decide, however the gaps are. */
  lemma CleanVerdict(w: Written)
    requires Clean(w) && Ordered(w)
    ensures var terms := Split("AND", Text(w));
            Look(w, false, START, ALLOWED) == Reading(true, true) <==>
            forall i | 0 <= i < |terms| :: SomeAllowed(Split("OR", terms[i]), ALLOWED)
  {
    hide Split, Cut, Text, Texts, OneRun, HasPlain, Space, SomeAllowed, Clean, Look;
    SplitIsCut(w, AndOp);
    CutClean(w, AndOp);
    AndRuns(w, false, START, ALLOWED);
    var runs := Cut(w, AndOp);
    forall i | 0 <= i < |runs|
      ensures SomeAllowed(Split("OR", Texts(runs)[i]), ALLOWED) <==> HasPlain(runs[i], false, ALLOWED)
    {
      RunIsAllowed(runs[i]);
    }
  }

  // ── Brackets ────────────────────────────────────────────────────────────

  lemma {:induction false} NoBracketsOn(a: string, b: string)
    ensures NoBrackets(a + b) == NoBrackets(a) + NoBrackets(b)
  {
    if a == [] {
      assert a + b == b;
    } else {
      assert (a + b)[1..] == a[1..] + b;
      NoBracketsOn(a[1..], b);
    }
  }

  lemma {:induction false} GapKeepsSpaces(g: string)
    requires Gap(g)
    ensures Spaces(NoBrackets(g))
    ensures HasSpace(g) <==> NoBrackets(g) != []
  {
    if g != [] {
      GapKeepsSpaces(g[1..]);
      if HasSpace(g) {
        var i :| 0 <= i < |g| && Space(g[i]);
        assert i > 0 ==> g[1..][i - 1] == g[i];
      }
      if HasSpace(g[1..]) {
        var i :| 0 <= i < |g[1..]| && Space(g[1..][i]);
        assert g[i + 1] == g[1..][i];
      }
    }
  }

  predicate AllLoose(w: Written) {
    w.More? ==> Loose(w) && AllLoose(w.rest)
  }

  function Strip(w: Written): Written {
    match w
    case Last(b, id, a) => Last(NoBrackets(b), id, NoBrackets(a))
    case More(b, id, a, op, rest) => More(NoBrackets(b), id, NoBrackets(a), op, Strip(rest))
  }

  lemma {:induction false} StripIsClean(w: Written)
    requires WellWritten(w)
    ensures Clean(Strip(w)) && Toks(Strip(w)) == Toks(w) && Ordered(w) && Ordered(Strip(w))
    ensures Strip(w).before == NoBrackets(w.before)
    ensures Spaced(w) <==> AllLoose(Strip(w))
    ensures SpacedHere(w) <==> Loose(Strip(w))
    decreases w
  {
    hide NoBrackets, Space;
    GapKeepsSpaces(w.before);
    GapKeepsSpaces(w.after);
    if w.More? {
      GapKeepsSpaces(w.rest.before);
      StripIsClean(w.rest);
    }
  }

  lemma {:induction false} StripText(w: Written)
    requires WellWritten(w) && Ordered(w) && Ordered(Strip(w))
    ensures NoBrackets(Text(w)) == Text(Strip(w))
    decreases w
  {
    hide NoBrackets, Space;
    NoBracketsOn(w.before, w.id + After(w));
    NoBracketsOn(w.id, After(w));
    SolidStays(w.id);
    if w.More? {
      SolidStays(Name(w.op));
      NoBracketsOn(w.after, Name(w.op) + Text(w.rest));
      NoBracketsOn(Name(w.op), Text(w.rest));
      StripText(w.rest);
    }
  }

  lemma SolidStays(s: string)
    requires forall c | c in s :: !Bracket(c)
    ensures NoBrackets(s) == s
  {}

  lemma OkIs(text: string)
    ensures var terms := Split("AND", NoBrackets(text));
            LicenceOk(text) <==> forall i | 0 <= i < |terms| :: SomeAllowed(Split("OR", terms[i]), ALLOWED)
  {}

  lemma {:induction false} ToksAlternate(w: Written)
    requires Ordered(w)
    ensures Alternates(Toks(w))
  {
    if w.More? {
      ToksAlternate(w.rest);
      assert Toks(w)[2..] == Toks(w.rest);
    }
  }

  // ── The verdict on a text ───────────────────────────────────────────────

  lemma AllMetIsAccepted(w: Written)
    requires Ordered(w)
    ensures AllMet(Toks(w), ALLOWED) <==> Accepts(Toks(w), ALLOWED)
  {
    hide *;
    ToksAlternate(w);
    AcceptsMeansAllTreesMet(Toks(w), ALLOWED);
  }

  /** Whatever stands between names and operators, the verdict is the reading
      in which a name that touches an operator does not count and an operator
      that touches a name does not part. */
  lemma Verdict(w: Written)
    requires WellWritten(w)
    ensures Ordered(w)
    ensures LicenceOk(Text(w)) <==> Look(Strip(w), false, START, ALLOWED) == Reading(true, true)
  {
    hide *;
    StripIsClean(w);
    StripText(w);
    CleanVerdict(Strip(w));
    OkIs(Text(w));
  }

  lemma {:induction false} LookIsRead(w: Written, r: Reading)
    requires AllLoose(w) && Ordered(w)
    ensures Look(w, false, r, ALLOWED) == Read(Toks(w), r, ALLOWED)
    decreases w
  {
    var after := Reading(r.fine, r.got || w.id in ALLOWED);
    assert Toks(w)[0] == Id(w.id);
    if w.Last? {
      assert Toks(w)[1..] == [];
    } else {
      assert Toks(w)[1..][1..] == Toks(w.rest) && Toks(w)[1] == w.op;
      LookIsRead(w.rest, if w.op.AndOp? then Reading(after.fine && after.got, false) else after);
    }
  }

  /** With brackets anywhere and a space on both sides of each operator, a
      licence is accepted exactly when every expression with its names and
      operators in that order can be met with allowed licences. */
  lemma SpacedIsExact(w: Written)
    requires WellWritten(w) && Spaced(w)
    ensures Ordered(w) && (LicenceOk(Text(w)) <==> AllMet(Toks(w), ALLOWED))
  {
    hide Look, Read, Toks, LicenceOk, AllMet, Text;
    Verdict(w);
    StripIsClean(w);
    LookIsRead(Strip(w), START);
    AllMetIsAccepted(w);
  }

  // ── Texts without those spaces ──────────────────────────────────────────

  predicate SameLayout(v: Written, w: Written) {
    && v.before == w.before && v.after == w.after && v.More? == w.More?
    && (v.More? ==> v.op == w.op && SameLayout(v.rest, w.rest))
  }

  const YES := "MIT"
  const NO := "GPL-2.0-only"

  /** Refused names up to the next AND when `inRun`, allowed ones after. */
  function Fill(w: Written, inRun: bool): Written {
    var name := if inRun then NO else YES;
    match w
    case Last(b, _, a) => Last(b, name, a)
    case More(b, _, a, op, rest) => More(b, name, a, op, Fill(rest, inRun && op.OrOp?))
  }

  /** No AND before the first tight operator. */
  predicate RunsTo(w: Written) {
    w.More? && (!SpacedHere(w) || (w.op.OrOp? && RunsTo(w.rest)))
  }

  /** `name` before the first tight operator, refused names in the rest of its
      run, allowed ones elsewhere. */
  function Probe(w: Written, name: string): Written
    requires !Spaced(w)
  {
    if !SpacedHere(w) then More(w.before, name, w.after, w.op, Fill(w.rest, w.op.OrOp?))
    else More(w.before, if RunsTo(w) then NO else YES, w.after, w.op, Probe(w.rest, name))
  }

  lemma NamesAreIds()
    ensures IsId(YES) && IsId(NO) && YES in ALLOWED && NO !in ALLOWED
  {
    NamesAreChosen();
    hide ALLOWED;
  }

  lemma NamesAreChosen()
    ensures YES in ALLOWED && NO !in ALLOWED
  {}

  lemma {:induction false} FillFits(w: Written, inRun: bool)
    requires WellWritten(w)
    ensures WellWritten(Fill(w, inRun)) && SameLayout(Fill(w, inRun), w)
    decreases w
  {
    hide Gap, IsId;
    NamesAreIds();
    if w.More? {
      FillFits(w.rest, inRun && w.op.OrOp?);
    }
  }

  lemma {:induction false} ProbeFits(w: Written, name: string)
    requires WellWritten(w) && !Spaced(w) && IsId(name)
    ensures WellWritten(Probe(w, name)) && SameLayout(Probe(w, name), w)
    decreases w
  {
    hide Gap, IsId, SpacedHere, RunsTo;
    NamesAreIds();
    if SpacedHere(w) {
      ProbeFits(w.rest, name);
    } else {
      FillFits(w.rest, w.op.OrOp?);
    }
  }

  lemma ReadMore(w: Written, r: Reading)
    requires w.More? && !w.op.Id?
    ensures var after := Reading(r.fine, r.got || w.id in ALLOWED);
            Read(Toks(w), r, ALLOWED)
            == Read(Toks(w.rest), if w.op.AndOp? then Reading(after.fine && after.got, false) else after, ALLOWED)
  {
    assert Toks(w)[0] == Id(w.id) && Toks(w)[1..][1..] == Toks(w.rest) && Toks(w)[1] == w.op;
  }

  lemma ReadLast(w: Written, r: Reading)
    requires w.Last?
    ensures Read(Toks(w), r, ALLOWED) == Reading(r.fine, r.got || w.id in ALLOWED)
  {
    assert Toks(w)[1..] == [];
  }

  lemma {:induction false} FillReads(w: Written, inRun: bool, r: Reading)
    requires WellWritten(w)
    ensures Read(Toks(Fill(w, inRun)), r, ALLOWED) == Reading(true, true) <==> r.fine && (r.got || !inRun)
    decreases w
  {
    hide Read, Toks, IsId, Gap;
    NamesAreIds();
    var f := Fill(w, inRun);
    if w.Last? {
      ReadLast(f, r);
    } else {
      ReadMore(f, r);
      var after := Reading(r.fine, r.got || !inRun);
      FillReads(w.rest, inRun && w.op.OrOp?, if w.op.AndOp? then Reading(after.fine && after.got, false) else after);
    }
  }

  lemma {:induction false} ProbeReads(w: Written, name: string, r: Reading)
    requires WellWritten(w) && !Spaced(w) && (name == YES || name == NO)
    ensures Read(Toks(Probe(w, name)), r, ALLOWED) == Reading(true, true)
        <==> r.fine && (name == YES || (RunsTo(w) && r.got))
    decreases w
  {
    hide Read, Toks, IsId, Gap, HasSpace, Fill;
    NamesAreIds();
    var p := Probe(w, name);
    ReadMore(p, r);
    if SpacedHere(w) {
      var after := Reading(r.fine, r.got || !RunsTo(w));
      ProbeReads(w.rest, name, if w.op.AndOp? then Reading(after.fine && after.got, false) else after);
    } else {
      var after := Reading(r.fine, r.got || name == YES);
      FillReads(w.rest, w.op.OrOp?, if w.op.AndOp? then Reading(after.fine && after.got, false) else after);
    }
  }

  /** Whether the first operator is loose does not depend on the names. */
  lemma LooseIs(v: Written, w: Written)
    requires WellWritten(v) && SameLayout(v, w) && v.More?
    ensures Loose(Strip(v)) <==> SpacedHere(w)
  {
    StripIsClean(v);
    assert v.rest.before == w.rest.before;
  }

  /** The splits do not see the name that the probe varies. */
  lemma {:induction false} ProbeLooks(w: Written, joined: bool, r: Reading)
    requires WellWritten(w) && !Spaced(w)
    ensures Look(Strip(Probe(w, YES)), joined, r, ALLOWED) == Look(Strip(Probe(w, NO)), joined, r, ALLOWED)
    decreases w
  {
    hide IsId, Gap, HasSpace, Fill, RunsTo, NoBrackets, Space, SpacedHere, Loose, SameLayout, WellWritten;
    NamesAreIds();
    ProbeFits(w, YES);
    ProbeFits(w, NO);
    LooseIs(Probe(w, YES), w);
    LooseIs(Probe(w, NO), w);
    var p, q := Strip(Probe(w, YES)), Strip(Probe(w, NO));
    if SpacedHere(w) {
      RestIsWritten(w);
      var after := Reading(r.fine, r.got || (Plain(p, joined) && p.id in ALLOWED));
      ProbeLooks(w.rest, !Loose(p), if CutsHere(p, AndOp) then Reading(after.fine && after.got, false) else after);
    } else {
      assert p.rest == q.rest;
    }
  }

  lemma RestIsWritten(w: Written)
    requires WellWritten(w) && w.More?
    ensures WellWritten(w.rest)
  {}

  /** The text is accepted exactly when all its readings can be met. */
  ghost predicate Right(w: Written) {
    Ordered(w) && (LicenceOk(Text(w)) <==> AllMet(Toks(w), ALLOWED))
  }

  lemma SpacedIsRight(w: Written)
    requires WellWritten(w) && Spaced(w)
    ensures Right(w)
  {
    SpacedIsExact(w);
  }

  lemma RightIs(w: Written)
    requires Right(w)
    ensures Ordered(w) && (LicenceOk(Text(w)) <==> AllMet(Toks(w), ALLOWED))
  {}

  /** The verdict is right for every choice of names exactly when each operator
      has a space on both sides. */
  lemma RightExactlyWhenSpaced(w: Written)
    requires WellWritten(w)
    ensures Spaced(w) <==> forall v | WellWritten(v) && SameLayout(v, w) :: Right(v)
  {
    hide *;
    if Spaced(w) {
      forall v | WellWritten(v) && SameLayout(v, w) ensures Right(v) {
        SameSpaces(v, w);
        SpacedIsRight(v);
      }
    } else {
      NamesAreIds();
      var p, q := Probe(w, YES), Probe(w, NO);
      ProbeFits(w, YES);
      ProbeFits(w, NO);
      Verdict(p);
      Verdict(q);
      ProbeLooks(w, false, START);
      AllMetIsAccepted(p);
      AllMetIsAccepted(q);
      ProbeAccepts(w);
      if forall v | WellWritten(v) && SameLayout(v, w) :: Right(v) {
        RightIs(p);
        RightIs(q);
      }
    }
  }

  lemma ProbeAccepts(w: Written)
    requires WellWritten(w) && !Spaced(w)
    ensures Accepts(Toks(Probe(w, YES)), ALLOWED) && !Accepts(Toks(Probe(w, NO)), ALLOWED)
  {
    hide Read, Toks, WellWritten, Spaced, Probe;
    ProbeReads(w, YES, START);
    ProbeReads(w, NO, START);
  }

  lemma {:induction false} SameSpaces(v: Written, w: Written)
    requires SameLayout(v, w)
    ensures Spaced(v) <==> Spaced(w)
    decreases w
  {
    if w.More? {
      assert v.rest.before == w.rest.before;
      SameSpaces(v.rest, w.rest);
    }
  }

  /** `(a OR b) AND(c)`. */
  function Tight(a: string, b: string, c: string): (w: Written)
    ensures Ordered(w)
  {
    var second := More(" ", b, ") ", AndOp, Last("(", c, ")"));
    assert Ordered(second);
    More("(", a, " ", OrOp, second)
  }

  lemma TightTokens(a: string, b: string, c: string)
    requires IsId(a) && IsId(b) && IsId(c)
    ensures WellWritten(Tight(a, b, c))
    ensures Tokens(And(Or(Leaf(a), Leaf(b)), Leaf(c))) == Toks(Tight(a, b, c))
    ensures Strip(Tight(a, b, c)) == More([], a, " ", OrOp, More(" ", b, " ", AndOp, Last([], c, [])))
  {
    hide Space, IsId, NoBrackets;
    Marks();
    var last := Last("(", c, ")");
    var second := More(" ", b, ") ", AndOp, last);
    assert WellWritten(last) && Toks(last) == [Id(c)];
    assert WellWritten(second) && Toks(second) == [Id(b), AndOp, Id(c)];
    assert Tokens(Or(Leaf(a), Leaf(b))) == [Id(a), OrOp, Id(b)];
    assert Strip(second) == More(" ", b, " ", AndOp, Last([], c, []));
  }

  lemma Marks()
    ensures NoBrackets("(") == [] && NoBrackets(")") == [] && NoBrackets(" ") == " " && NoBrackets(") ") == " "
    ensures Space(' ')
  {
    assert ") "[1..] == " ";
  }

  /** The unsafe side of it: an AND with a bracket and no space on one side is
      missed, and the text is accepted for its first name whatever stands
      after the AND. */
  lemma TightAndIsMissed(a: string, b: string, c: string)
    requires IsId(a) && IsId(b) && IsId(c) && a in ALLOWED && c !in ALLOWED
    ensures LicenceOk(Text(Tight(a, b, c))) && !AllMet(Toks(Tight(a, b, c)), ALLOWED)
  {
    hide Text, LicenceOk, IsId, NoBrackets, Strip, Tight;
    var w := Tight(a, b, c);
    TightTokens(a, b, c);
    Verdict(w);
    var second := More(" ", b, " ", AndOp, Last([], c, []));
    assert Look(second, false, Reading(true, true), ALLOWED) == Reading(true, true);
    assert !Met(And(Or(Leaf(a), Leaf(b)), Leaf(c)), ALLOWED);
  }
}
