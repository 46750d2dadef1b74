/** The licence check: brackets are dropped, AND splits first, OR second. */
module Licence {

  // ── Expressions and their tokens ────────────────────────────────────────

  datatype Expr = Leaf(id: string) | And(left: Expr, right: Expr) | Or(left: Expr, right: Expr)

  datatype Token = Id(id: string) | AndOp | OrOp

  const ALLOWED: set<string> := {
    "MIT", "MIT-0", "ISC", "BSD-2-Clause", "BSD-3-Clause", "Apache-2.0", "0BSD", "Zlib", "CC0-1.0", "Unlicense",
    "BlueOak-1.0.0", "OFL-1.1"
  }

  /** The expression can be met with licences from `allowed` only. */
  predicate Met(e: Expr, allowed: set<string>) {
    match e
    case Leaf(id) => id in allowed
    case And(l, r) => Met(l, allowed) && Met(r, allowed)
    case Or(l, r) => Met(l, allowed) || Met(r, allowed)
  }

  /** The tokens of an expression, brackets forgotten. */
  function Tokens(e: Expr): (t: seq<Token>)
    ensures t != []
  {
    match e
    case Leaf(id) => [Id(id)]
    case And(l, r) => Tokens(l) + [AndOp] + Tokens(r)
    case Or(l, r) => Tokens(l) + [OrOp] + Tokens(r)
  }

  /** Reading tokens from the left: whether each finished OR run had an
      allowed id, and whether the current one has. */
  datatype Reading = Reading(fine: bool, got: bool)

  const START := Reading(true, false)

  function Read(t: seq<Token>, r: Reading, allowed: set<string>): Reading {
    if t == [] then r
    else
      var next := match t[0]
        case Id(id) => Reading(r.fine, r.got || id in allowed)
        case AndOp => Reading(r.fine && r.got, false)
        case OrOp => r;
      Read(t[1..], next, allowed)
  }

  /** Every stretch between ANDs holds an allowed id. */
  predicate Accepts(t: seq<Token>, allowed: set<string>) {
    Read(t, START, allowed) == Reading(true, true)
  }

  lemma {:induction false} ReadOn(a: seq<Token>, b: seq<Token>, r: Reading, allowed: set<string>)
    ensures Read(a + b, r, allowed) == Read(b, Read(a, r, allowed), allowed)
  {
    if a == [] {
      assert a + b == b;
    } else {
      assert (a + b)[1..] == a[1..] + b;
      var next := match a[0]
        case Id(id) => Reading(r.fine, r.got || id in allowed)
        case AndOp => Reading(r.fine && r.got, false)
        case OrOp => r;
      ReadOn(a[1..], b, next, allowed);
    }
  }

  /** A run that ended without an allowed id is not made good later. */
  lemma {:induction false} FineFromStart(t: seq<Token>, r: Reading, allowed: set<string>)
    ensures Read(t, r, allowed).fine ==> r.fine
  {
    if t != [] {
      var next := match t[0]
        case Id(id) => Reading(r.fine, r.got || id in allowed)
        case AndOp => Reading(r.fine && r.got, false)
        case OrOp => r;
      FineFromStart(t[1..], next, allowed);
    }
  }

  /** Dropping brackets is safe: accepted tokens make any tree over them met. */
  lemma {:induction false} AcceptedIsMet(e: Expr, allowed: set<string>)
    requires Accepts(Tokens(e), allowed)
    ensures Met(e, allowed)
  {
    match e
    case Leaf(id) =>
      assert Read([Id(id)][1..], Reading(true, id in allowed), allowed) == Reading(true, id in allowed);
    case And(l, r) =>
      ReadOp(l, AndOp, r, allowed);
      FineFromStart(Tokens(r), Reading(false, false), allowed);
      AcceptedIsMet(l, allowed);
      AcceptedIsMet(r, allowed);
    case Or(l, r) =>
      ReadOp(l, OrOp, r, allowed);
      var middle := Read(Tokens(l), START, allowed);
      FineFromStart(Tokens(r), middle, allowed);
      if middle.got {
        AcceptedIsMet(l, allowed);
      } else {
        AcceptedIsMet(r, allowed);
      }
  }

  lemma ReadOp(l: Expr, op: Token, r: Expr, allowed: set<string>)
    requires !op.Id?
    ensures var m := Read(Tokens(l), START, allowed);
            Read(Tokens(l) + [op] + Tokens(r), START, allowed)
            == Read(Tokens(r), if op.AndOp? then Reading(m.fine && m.got, false) else m, allowed)
  {
    hide Tokens;
    ReadOn(Tokens(l) + [op], Tokens(r), START, allowed);
    ReadOn(Tokens(l), [op], START, allowed);
    assert [op][1..] == [];
  }

  // ── Refused tokens have a tree that is not met ──────────────────────────

  /** Ids and operators take turns, an id at each end. */
  predicate Alternates(t: seq<Token>) {
    t != [] && t[0].Id? && (|t| == 1 || (|t| > 2 && !t[1].Id? && Alternates(t[2..])))
  }

  lemma {:induction false} AlternatesOn(a: seq<Token>, op: Token, b: seq<Token>)
    requires Alternates(a) && Alternates(b) && !op.Id?
    ensures Alternates(a + [op] + b)
  {
    if |a| == 1 {
      assert (a + [op] + b)[2..] == b;
    } else {
      AlternatesOn(a[2..], op, b);
      assert (a + [op] + b)[2..] == a[2..] + [op] + b;
    }
  }

  lemma {:induction false} TokensAlternate(e: Expr)
    ensures Alternates(Tokens(e))
  {
    if !e.Leaf? {
      TokensAlternate(e.left);
      TokensAlternate(e.right);
      AlternatesOn(Tokens(e.left), if e.And? then AndOp else OrOp, Tokens(e.right));
    }
  }

  /** The tree that binds OR tightest. */
  function OrFirst(t: seq<Token>): Expr
    requires Alternates(t)
  {
    if |t| == 1 then Leaf(t[0].id)
    else
      var rest := OrFirst(t[2..]);
      if t[1].AndOp? then And(Leaf(t[0].id), rest)
      else if rest.And? then And(Or(Leaf(t[0].id), rest.left), rest.right)
      else Or(Leaf(t[0].id), rest)
  }

  lemma {:induction false} OrFirstTokens(t: seq<Token>)
    requires Alternates(t)
    ensures Tokens(OrFirst(t)) == t
  {
    if |t| > 1 {
      var rest := OrFirst(t[2..]);
      OrFirstTokens(t[2..]);
      assert t == [t[0]] + [t[1]] + t[2..];
      var first := Leaf(t[0].id);
      assert Tokens(first) == [t[0]];
      if t[1].OrOp? && rest.And? {
        assert Tokens(Or(first, rest.left)) == [t[0]] + [OrOp] + Tokens(rest.left);
        assert [t[0]] + [OrOp] + Tokens(rest.left) + [AndOp] + Tokens(rest.right)
            == [t[0]] + [OrOp] + (Tokens(rest.left) + [AndOp] + Tokens(rest.right));
      }
    }
  }

  lemma {:induction false} OrFirstMet(t: seq<Token>, r: Reading, allowed: set<string>)
    requires Alternates(t)
    ensures var e := OrFirst(t);
            Read(t, r, allowed) == Reading(true, true) <==>
            r.fine && (if e.And? then (r.got || Met(e.left, allowed)) && Met(e.right, allowed)
                       else r.got || Met(e, allowed))
  {
    var after := Reading(r.fine, r.got || t[0].id in allowed);
    if |t| == 1 {
      assert t[1..] == [];
    } else {
      var rest := OrFirst(t[2..]);
      assert t[1..][1..] == t[2..];
      var next := if t[1].AndOp? then Reading(after.fine && after.got, false) else after;
      assert Read(t, r, allowed) == Read(t[1..], after, allowed) == Read(t[2..], next, allowed);
      OrFirstMet(t[2..], next, allowed);
    }
  }

  /** Every expression over these tokens, however bracketed, can be met. */
  ghost predicate AllMet(t: seq<Token>, allowed: set<string>) {
    forall e | Tokens(e) == t :: Met(e, allowed)
  }

  /** The exact meaning of an accepted token order. */
  lemma AcceptsMeansAllTreesMet(t: seq<Token>, allowed: set<string>)
    requires Alternates(t)
    ensures Accepts(t, allowed) <==> AllMet(t, allowed)
  {
    hide Met, Tokens, Read, Alternates, OrFirst;
    if Accepts(t, allowed) {
      forall e | Tokens(e) == t ensures Met(e, allowed) {
        AcceptedIsMet(e, allowed);
      }
    } else {
      OrFirstTokens(t);
      RefusedIsUnmet(t, allowed);
    }
  }

  lemma RefusedIsUnmet(t: seq<Token>, allowed: set<string>)
    requires Alternates(t) && !Accepts(t, allowed)
    ensures !Met(OrFirst(t), allowed)
  {
    OrFirstMet(t, START, allowed);
  }
}
