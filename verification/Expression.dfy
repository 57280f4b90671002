/** Expressions: their parser by recursive descent, and their printer, on the level of tokens. */
module Expression {
  import opened Hiding
  import opened Grammar

  // ---------- operators and their symbols ----------

  const MUL_OPS := {SyAsterisk, SySlash, SyPercent, SyHash, SyAmpersand}
  const ADD_OPS := {SyPlus, SyMinus, SyVBar}
  const REL_OPS := {SyEq, SyNEq, SyLss, SyGtr, SyLEq, SyGEq}
  const FACT_STARTS := {SyFlt, SyIdStr, SyQStr, SyLParen}
  const EXP_STARTS := {SyFlt, SyIdStr, SyQStr, SyLParen, SyPlus, SyMinus}

  function OpOfSym(s: Sym): Op
    requires s in MUL_OPS + ADD_OPS + REL_OPS
  {
    match s
    case SyPlus => Plus
    case SyMinus => Minus
    case SyAsterisk => Mul
    case SySlash => Div
    case SyPercent => Mod
    case SyVBar => Or
    case SyAmpersand => And
    case SyHash => IDiv
    case SyEq => Eq
    case SyNEq => NEq
    case SyLss => Lss
    case SyGtr => Gtr
    case SyLEq => LEq
    case SyGEq => GEq
  }

  function SymOfOp(op: Op): Sym {
    match op
    case UPlus => SyPlus
    case UMinus => SyMinus
    case Not => SyExclamation
    case Plus => SyPlus
    case Minus => SyMinus
    case Mul => SyAsterisk
    case Div => SySlash
    case IDiv => SyHash
    case Mod => SyPercent
    case And => SyAmpersand
    case Or => SyVBar
    case Eq => SyEq
    case NEq => SyNEq
    case Lss => SyLss
    case Gtr => SyGtr
    case LEq => SyLEq
    case GEq => SyGEq
    case If => SyQuestion
  }

  predicate IsMulOp(op: Op) { op in {Mul, Div, Mod, IDiv, And} }

  predicate IsAddOp(op: Op) { op in {Plus, Minus, Or} }

  predicate IsRelOp(op: Op) { op in {Eq, NEq, Lss, Gtr, LEq, GEq} }

  /** The two tables agree on the binary operators. */
  lemma OpTables(op: Op)
    ensures IsMulOp(op) <==> SymOfOp(op) in MUL_OPS
    ensures IsAddOp(op) <==> SymOfOp(op) in ADD_OPS && op != UPlus && op != UMinus
    ensures IsRelOp(op) <==> SymOfOp(op) in REL_OPS
    ensures IsMulOp(op) || IsAddOp(op) || IsRelOp(op) ==> OpOfSym(SymOfOp(op)) == op
  {
  }

  lemma SymTables(s: Sym)
    requires s in MUL_OPS + ADD_OPS + REL_OPS
    ensures SymOfOp(OpOfSym(s)) == s
    ensures (s in MUL_OPS <==> IsMulOp(OpOfSym(s))) && (s in ADD_OPS <==> IsAddOp(OpOfSym(s))) && (s in REL_OPS <==> IsRelOp(OpOfSym(s)))
  {
  }

  lemma SymStands(s: Sym)
    requires s in MUL_OPS + ADD_OPS + REL_OPS
    ensures Stands(OpOfSym(s), s)
  {
  }

  // ---------- the trees of the grammar ----------

  const FACT: nat := 0
  const MUL: nat := 1
  const ADD: nat := 2
  const REL: nat := 3
  const EXP: nat := 4

  /** e is a tree of the grammar at this level of precedence; in parentheses it may be any expression. */
  ghost predicate Is(e: Exp, level: nat) {
    var high := if e.paren then EXP else level;
    match e
    case Flt(_, _) => true
    case Str(_, _) => true
    case Name(_, _) => true
    case Call(_, _, args) => forall i | 0 <= i < |args| :: Is(args[i], EXP)
    case Unary(_, op, a) => high >= ADD && (op == UPlus || op == UMinus) && Is(a, MUL)
    case Binary(_, op, a, b) =>
      || (IsMulOp(op) && high >= MUL && Is(a, MUL) && Is(b, FACT))
      || (IsAddOp(op) && high >= ADD && Is(a, ADD) && Is(b, MUL))
      || (IsRelOp(op) && high >= REL && Is(a, ADD) && Is(b, ADD))
    case Cond(_, c, a, b) => high >= EXP && Is(c, REL) && Is(a, EXP) && Is(b, EXP)
  }

  lemma Higher(e: Exp, low: nat, high: nat)
    requires Is(e, low) && low <= high
    ensures Is(e, high)
  {
  }

  /** In parentheses an expression is as good as a number. */
  lemma InParens(e: Exp)
    requires Is(e, EXP)
    ensures Is(e.(paren := true), FACT)
  {
  }

  // ---------- the printer ----------

  /** The tokens of an operator and its operands in terms of those of the operands. */
  ghost function OpShape(e: Exp): (ts: seq<Token>)
    requires e.Unary? || e.Binary? || e.Cond?
    ensures |ts| >= 1
    decreases e, 0
  {
    match e
    case Unary(_, op, a) => [SymTok(SymOfOp(op))] + Print(a)
    case Binary(_, op, a, b) => Print(a) + [SymTok(SymOfOp(op))] + Print(b)
    case Cond(_, c, a, b) => Print(c) + [SymTok(SyQuestion)] + Print(a) + [SymTok(SyColon)] + Print(b)
  }

  /** The tokens of an expression without its parentheses. */
  ghost function Bare(e: Exp): (ts: seq<Token>)
    ensures |ts| >= 1
    decreases e, 1
  {
    match e
    case Flt(_, x) => [FltTok(x)]
    case Str(_, s) => [StrTok(s)]
    case Name(_, n) => [IdTok(n)]
    case Call(_, n, args) => [IdTok(n), SymTok(SyLParen)] + PrintArgs(args) + [SymTok(SyRParen)]
    case _ => OpShape(e)
  }

  /** The tokens of an expression in terms of those of its parts. */
  ghost function Shape(e: Exp): (ts: seq<Token>)
    ensures |ts| >= 1
    decreases e, 2
  {
    if e.paren then [SymTok(SyLParen)] + Bare(e) + [SymTok(SyRParen)] else Bare(e)
  }

  ghost predicate InPrint(s: seq<Token>, e: Exp, piece: Piece)
    decreases e, 3
  {
    match piece case Whole => s == Shape(e)
  }

  ghost predicate IsPrint(s: seq<Token>, e: Exp)
    decreases e, 4
  {
    |s| >= 1 && forall piece: Piece :: InPrint(s, e, piece)
  }

  /** The tokens of an expression. They are behind a quantifier, so that only the proofs that ask for
    * them with PrintIs have them.
    */
  ghost function Print(e: Exp): (s: seq<Token>)
    ensures |s| >= 1
    decreases e, 5
  {
    assert IsPrint(Shape(e), e);
    var s :| IsPrint(s, e);
    s
  }

  lemma ShapeIs(e: Exp)
    ensures Shape(e) == if e.paren then [SymTok(SyLParen)] + Bare(e) + [SymTok(SyRParen)] else Bare(e)
  {
  }

  lemma OpIs(e: Exp)
    requires e.Unary? || e.Binary? || e.Cond?
    ensures Bare(e) == OpShape(e)
  {
  }

  lemma PrintIs(e: Exp)
    ensures Print(e) == if e.paren then [SymTok(SyLParen)] + Bare(e) + [SymTok(SyRParen)] else Bare(e)
    ensures e.Unary? || e.Binary? || e.Cond? ==> Bare(e) == OpShape(e)
  {
    assert InPrint(Print(e), e, Whole);
    ShapeIs(e);
    if e.Unary? || e.Binary? || e.Cond? { OpIs(e); }
  }

  ghost function PrintArgs(args: seq<Exp>): seq<Token>
    decreases args, 8
  {
    if args == [] then [] else Print(args[0]) + PrintMore(args[1..])
  }

  ghost function MoreShape(args: seq<Exp>): seq<Token>
    decreases args, 4
  {
    if args == [] then [] else [SymTok(SyComma)] + Print(args[0]) + PrintMore(args[1..])
  }

  ghost predicate InMore(s: seq<Token>, args: seq<Exp>, piece: Piece)
    decreases args, 5
  {
    match piece case Whole => s == MoreShape(args)
  }

  ghost predicate IsMore(s: seq<Token>, args: seq<Exp>)
    decreases args, 6
  {
    forall piece: Piece :: InMore(s, args, piece)
  }

  /** The arguments of a call but the first, each after a comma. */
  ghost function PrintMore(args: seq<Exp>): seq<Token>
    decreases args, 7
  {
    assert IsMore(MoreShape(args), args);
    var s :| IsMore(s, args);
    s
  }

  lemma MoreIs(args: seq<Exp>)
    ensures PrintMore(args) == if args == [] then [] else [SymTok(SyComma)] + PrintArgs(args)
  {
    assert InMore(PrintMore(args), args, Whole);
    assert PrintMore(args) == MoreShape(args);
    if args != [] {
      var comma, first, more := [SymTok(SyComma)], Print(args[0]), PrintMore(args[1..]);
      assert MoreShape(args) == comma + first + more;
      assert PrintArgs(args) == first + more;
      assert comma + first + more == comma + (first + more);
    }
  }

  // ---------- where the parts of an expression are in its tokens ----------

  ghost predicate ReadsPiece(ts: seq<Token>, p: nat, s: seq<Token>, piece: Piece) {
    match piece case Whole => p + |s| <= |ts| && ts[p..][..|s|] == s
  }

  /** The tokens s are in ts at p; behind a quantifier, so that proofs see it only through the lemmas below. */
  ghost predicate Reads(ts: seq<Token>, p: nat, s: seq<Token>) {
    p + |s| <= |ts| && forall piece: Piece :: ReadsPiece(ts, p, s, piece)
  }

  lemma ReadsParts(ts: seq<Token>, p: nat, a: seq<Token>, b: seq<Token>)
    requires Reads(ts, p, a + b)
    ensures Reads(ts, p, a) && Reads(ts, p + |a|, b)
  {
    assert ReadsPiece(ts, p, a + b, Whole);
    var s := ts[p..][..|a + b|];
    assert ts[p..][..|a|] == s[..|a|];
    assert ts[p + |a|..][..|b|] == s[|a|..];
  }

  lemma ReadsFirst(ts: seq<Token>, p: nat, s: seq<Token>)
    requires Reads(ts, p, s) && s != []
    ensures p < |ts| && ts[p] == s[0]
  {
    assert ReadsPiece(ts, p, s, Whole);
    assert ts[p..][..|s|][0] == ts[p];
  }

  lemma {:induction false} FirstSym(e: Exp, level: nat)
    requires Is(e, level)
    ensures SymOf(Print(e)[0]) in EXP_STARTS
    ensures level <= MUL ==> SymOf(Print(e)[0]) in FACT_STARTS
  {
    PrintIs(e);
    if !e.paren {
      match e
      case Binary(_, op, a, b) => FirstSym(a, if IsMulOp(op) then MUL else ADD);
      case Cond(_, c, a, b) => FirstSym(c, REL);
      case _ =>
    }
  }

  /** s may follow what is printed at this level: it is expected and does not go on the expression. */
  ghost predicate Stops(s: Sym, level: nat, follow: set<Sym>) {
    && s in follow && s != SyLParen
    && (level >= MUL ==> s !in MUL_OPS) && (level >= ADD ==> s !in ADD_OPS) && (level >= REL ==> s !in REL_OPS)
    && (level >= EXP ==> s != SyQuestion)
  }

  lemma UnaryReads(ts: seq<Token>, p: nat, e: Exp)
    requires !e.paren && e.Unary? && Reads(ts, p, Print(e))
    ensures |Print(e)| == 1 + |Print(e.arg)| && SymAt(ts, p) == SymOfOp(e.op)
    ensures Reads(ts, p + 1, Print(e.arg)) && SymAt(ts, p + 1) == SymOf(Print(e.arg)[0])
  {
    PrintIs(e);
    var sign, a := [SymTok(SymOfOp(e.op))], Print(e.arg);
    ReadsParts(ts, p, sign, a);
    ReadsFirst(ts, p, sign);
    ReadsFirst(ts, p + 1, a);
  }

  lemma BinaryReads(ts: seq<Token>, p: nat, e: Exp)
    requires !e.paren && e.Binary? && Reads(ts, p, Print(e))
    ensures var q := p + |Print(e.left)|;
            && |Print(e)| == |Print(e.left)| + 1 + |Print(e.right)|
            && Reads(ts, p, Print(e.left)) && q < |ts| && SymAt(ts, q) == SymOfOp(e.op)
            && Reads(ts, q + 1, Print(e.right)) && SymAt(ts, q + 1) == SymOf(Print(e.right)[0])
  {
    PrintIs(e);
    var a, op, b := Print(e.left), [SymTok(SymOfOp(e.op))], Print(e.right);
    ReadsParts(ts, p, a + op, b);
    ReadsParts(ts, p, a, op);
    ReadsFirst(ts, p + |a|, op);
    ReadsFirst(ts, p + |a| + 1, b);
  }

  lemma CondReads(ts: seq<Token>, p: nat, e: Exp)
    requires !e.paren && e.Cond? && Reads(ts, p, Print(e))
    ensures var q := p + |Print(e.test)|;
            var s := q + 1 + |Print(e.thenExp)|;
            && |Print(e)| == |Print(e.test)| + 1 + |Print(e.thenExp)| + 1 + |Print(e.elseExp)|
            && Reads(ts, p, Print(e.test)) && q < |ts| && SymAt(ts, q) == SyQuestion
            && Reads(ts, q + 1, Print(e.thenExp)) && SymAt(ts, q + 1) == SymOf(Print(e.thenExp)[0])
            && s < |ts| && SymAt(ts, s) == SyColon
            && Reads(ts, s + 1, Print(e.elseExp)) && SymAt(ts, s + 1) == SymOf(Print(e.elseExp)[0])
  {
    PrintIs(e);
    FiveReads(ts, p, Print(e.test), SyQuestion, Print(e.thenExp), SyColon, Print(e.elseExp));
  }

  lemma FiveReads(ts: seq<Token>, p: nat, c: seq<Token>, s1: Sym, a: seq<Token>, s2: Sym, b: seq<Token>)
    requires c != [] && a != [] && b != [] && Reads(ts, p, c + [SymTok(s1)] + a + [SymTok(s2)] + b)
    ensures var q := p + |c|;
            var s := q + 1 + |a|;
            && Reads(ts, p, c) && q < |ts| && SymAt(ts, q) == s1
            && Reads(ts, q + 1, a) && SymAt(ts, q + 1) == SymOf(a[0])
            && s < |ts| && SymAt(ts, s) == s2
            && Reads(ts, s + 1, b) && SymAt(ts, s + 1) == SymOf(b[0])
  {
    ReadsParts(ts, p, c + [SymTok(s1)] + a + [SymTok(s2)], b);
    ReadsParts(ts, p, c + [SymTok(s1)] + a, [SymTok(s2)]);
    ReadsParts(ts, p, c + [SymTok(s1)], a);
    ReadsParts(ts, p, c, [SymTok(s1)]);
    ReadsFirst(ts, p + |c|, [SymTok(s1)]);
    ReadsFirst(ts, p + |c| + 1, a);
    ReadsFirst(ts, p + |c| + 1 + |a|, [SymTok(s2)]);
    ReadsFirst(ts, p + |c| + 1 + |a| + 1, b);
  }

  lemma ParenReads(ts: seq<Token>, p: nat, e: Exp)
    requires e.paren && Reads(ts, p, Print(e))
    ensures var bare := e.(paren := false);
            var q := p + 1 + |Print(bare)|;
            && |Print(e)| == |Print(bare)| + 2 && p < |ts| && ts[p] == SymTok(SyLParen)
            && Reads(ts, p + 1, Print(bare)) && SymAt(ts, p + 1) == SymOf(Print(bare)[0])
            && q < |ts| && SymAt(ts, q) == SyRParen
  {
    PrintIs(e);
    PrintIs(e.(paren := false));
    var s := Print(e.(paren := false));
    assert Print(e) == [SymTok(SyLParen)] + s + [SymTok(SyRParen)];
    ReadsParts(ts, p, [SymTok(SyLParen)] + s, [SymTok(SyRParen)]);
    ReadsParts(ts, p, [SymTok(SyLParen)], s);
    ReadsFirst(ts, p, [SymTok(SyLParen)]);
    ReadsFirst(ts, p + 1, s);
    ReadsFirst(ts, p + 1 + |s|, [SymTok(SyRParen)]);
  }

  lemma CallReads(ts: seq<Token>, p: nat, e: Exp)
    requires !e.paren && e.Call? && Reads(ts, p, Print(e))
    ensures var q := p + 2 + |PrintArgs(e.args)|;
            && |Print(e)| == |PrintArgs(e.args)| + 3
            && p + 1 < |ts| && ts[p] == IdTok(e.name) && SymAt(ts, p + 1) == SyLParen
            && Reads(ts, p + 2, PrintArgs(e.args)) && q < |ts| && SymAt(ts, q) == SyRParen
  {
    PrintIs(e);
    var head, args := [IdTok(e.name), SymTok(SyLParen)], PrintArgs(e.args);
    assert Print(e) == head + args + [SymTok(SyRParen)];
    ReadsParts(ts, p, head + args, [SymTok(SyRParen)]);
    ReadsParts(ts, p, head, args);
    ReadsFirst(ts, p + 2 + |args|, [SymTok(SyRParen)]);
    ReadsFirst(ts, p, head);
    assert head == [IdTok(e.name)] + [SymTok(SyLParen)];
    ReadsParts(ts, p, [IdTok(e.name)], [SymTok(SyLParen)]);
    ReadsFirst(ts, p + 1, [SymTok(SyLParen)]);
  }

  /** The rest of the arguments begins with a comma, or there are none. */
  lemma ArgsRead(ts: seq<Token>, p: nat, args: seq<Exp>)
    requires args != [] && Reads(ts, p, PrintArgs(args)) && SymAt(ts, p + |PrintArgs(args)|) == SyRParen
    ensures var q := p + |Print(args[0])|;
            && |PrintArgs(args)| == |Print(args[0])| + |PrintMore(args[1..])|
            && Reads(ts, p, Print(args[0])) && SymAt(ts, p) == SymOf(Print(args[0])[0])
            && Reads(ts, q, PrintMore(args[1..])) && SymAt(ts, q) in {SyComma, SyRParen}
  {
    var first, more := ArgsParts(args);
    TwoRead(ts, p, first, more);
  }

  lemma ArgsParts(args: seq<Exp>) returns (first: seq<Token>, more: seq<Token>)
    requires args != []
    ensures PrintArgs(args) == first + more && first == Print(args[0]) && more == PrintMore(args[1..])
    ensures more != [] ==> more[0] == SymTok(SyComma)
  {
    first, more := Print(args[0]), PrintMore(args[1..]);
    MoreBegins(args[1..]);
  }

  lemma MoreBegins(args: seq<Exp>)
    ensures PrintMore(args) != [] ==> PrintMore(args)[0] == SymTok(SyComma)
  {
    MoreIs(args);
  }

  lemma TwoRead(ts: seq<Token>, p: nat, first: seq<Token>, more: seq<Token>)
    requires first != [] && Reads(ts, p, first + more) && SymAt(ts, p + |first + more|) == SyRParen
    requires more != [] ==> more[0] == SymTok(SyComma)
    ensures Reads(ts, p, first) && SymAt(ts, p) == SymOf(first[0])
    ensures Reads(ts, p + |first|, more) && SymAt(ts, p + |first|) in {SyComma, SyRParen}
  {
    ReadsParts(ts, p, first, more);
    ReadsFirst(ts, p, first);
    if more != [] { ReadsFirst(ts, p + |first|, more); }
  }

  lemma MoreRead(ts: seq<Token>, p: nat, args: seq<Exp>)
    requires args != [] && Reads(ts, p, PrintMore(args)) && SymAt(ts, p + |PrintMore(args)|) == SyRParen
    ensures |PrintMore(args)| == 1 + |PrintArgs(args)|
    ensures p < |ts| && SymAt(ts, p) == SyComma && Reads(ts, p + 1, PrintArgs(args))
  {
    MoreIs(args);
    ReadsParts(ts, p, [SymTok(SyComma)], PrintArgs(args));
    ReadsFirst(ts, p, [SymTok(SyComma)]);
  }

  /** The first token of a factor tells what it is. */
  lemma FactReads(ts: seq<Token>, p: nat, e: Exp)
    requires Is(e, FACT) && Reads(ts, p, Print(e))
    ensures p < |ts| && (!e.paren && e.Flt? ==> ts[p] == FltTok(e.flt) && |Print(e)| == 1)
    ensures !e.paren && e.Str? ==> ts[p] == StrTok(e.text) && |Print(e)| == 1
    ensures !e.paren && e.Name? ==> ts[p] == IdTok(e.name) && |Print(e)| == 1
    ensures !e.paren && e.Call? ==> ts[p] == IdTok(e.name)
    ensures e.paren ==> ts[p] == SymTok(SyLParen)
    ensures e.paren ==> var q := p + 1 + |Print(e.(paren := false))|;
      && Is(e.(paren := false), EXP) && Reads(ts, p + 1, Print(e.(paren := false))) && SymAt(ts, p + 1) in EXP_STARTS
      && q < |ts| && SymAt(ts, q) == SyRParen && q + 1 == p + |Print(e)|
    ensures !e.paren && e.Call? ==> SymAt(ts, p + 1) == SyLParen
  {
    PrintIs(e);
    ReadsFirst(ts, p, Print(e));
    if e.paren {
      ParenReads(ts, p, e);
      FirstSym(e.(paren := false), EXP);
    } else if e.Call? {
      CallReads(ts, p, e);
    }
  }

  lemma CallStarts(ts: seq<Token>, p: nat, e: Exp)
    requires Is(e, FACT) && !e.paren && e.Call? && Reads(ts, p, Print(e))
    ensures SymAt(ts, p + 2) in EXP_STARTS + {SyRParen}
  {
    CallReads(ts, p, e);
    if e.args != [] {
      ArgsRead(ts, p + 2, e.args);
      FirstSym(e.args[0], EXP);
    }
  }

  ghost predicate AreExps(args: seq<Exp>) {
    forall i | 0 <= i < |args| :: Is(args[i], EXP)
  }

  ghost predicate InRest(s: seq<Token>, args: seq<Exp>, k: nat, piece: Piece) {
    match piece case Whole => k <= |args| && s == if k == 0 then PrintArgs(args) else PrintMore(args[k..])
  }

  ghost predicate IsRest(s: seq<Token>, args: seq<Exp>, k: nat) {
    forall piece: Piece :: InRest(s, args, k, piece)
  }

  /** What is printed of a list of arguments after the first k. */
  ghost function RestOfArgs(args: seq<Exp>, k: nat): seq<Token>
    requires k <= |args|
  {
    assert IsRest(if k == 0 then PrintArgs(args) else PrintMore(args[k..]), args, k);
    var s :| IsRest(s, args, k);
    s
  }

  lemma RestIs(args: seq<Exp>, k: nat)
    requires k <= |args|
    ensures RestOfArgs(args, k) == if k == 0 then PrintArgs(args) else PrintMore(args[k..])
    ensures k == |args| ==> RestOfArgs(args, k) == []
  {
    assert InRest(RestOfArgs(args, k), args, k, Whole);
    if k == |args| { MoreIs(args[k..]); }
  }

  lemma RestStep(args: seq<Exp>, k: nat)
    requires k < |args|
    ensures RestOfArgs(args, k) == (if k > 0 then [SymTok(SyComma)] else []) + Print(args[k]) + RestOfArgs(args, k + 1)
  {
    RestIs(args, k);
    RestIs(args, k + 1);
    if k > 0 { MoreIs(args[k..]); }
    assert args[k..][1..] == args[k + 1..];
    assert k == 0 ==> args[k..] == args;
    assert k + 1 == |args| ==> args[k + 1..] == [];
  }

  lemma RestReads(ts: seq<Token>, p: nat, args: seq<Exp>, k: nat)
    requires AreExps(args) && k <= |args| && Reads(ts, p, RestOfArgs(args, k)) && SymAt(ts, p) != SyRParen
    requires SymAt(ts, p + |RestOfArgs(args, k)|) == SyRParen
    ensures k < |args| && (SymAt(ts, p) == SyComma <==> k > 0)
    ensures var q := if k == 0 then p else p + 1;
            var r := q + |Print(args[k])|;
            && Reads(ts, q, Print(args[k])) && SymAt(ts, q) in EXP_STARTS
            && Reads(ts, r, RestOfArgs(args, k + 1)) && SymAt(ts, r) in {SyComma, SyRParen}
            && r + |RestOfArgs(args, k + 1)| == p + |RestOfArgs(args, k)|
  {
    RestIs(args, k);
    if k < |args| { RestIs(args, k + 1); }
    var rest := args[k..];
    if rest != [] {
      if k > 0 { MoreRead(ts, p, rest); }
      assert k == 0 ==> rest == args;
      ArgsRead(ts, if k == 0 then p else p + 1, rest);
      FirstSym(rest[0], EXP);
      assert rest[1..] == args[k + 1..];
    }
  }

  lemma RestEnds(ts: seq<Token>, p: nat, args: seq<Exp>, k: nat)
    requires AreExps(args) && k <= |args| && Reads(ts, p, RestOfArgs(args, k)) && SymAt(ts, p) == SyRParen
    requires SymAt(ts, p + |RestOfArgs(args, k)|) == SyRParen
    ensures k == |args|
  {
    RestIs(args, k);
    var rest := args[k..];
    if rest != [] {
      if k > 0 { MoreRead(ts, p, rest); } else { assert rest == args; ArgsRead(ts, p, rest); FirstSym(rest[0], EXP); }
    }
  }

  /** The first arguments are args, and the rest is printed from p up to the end. */
  ghost predicate ArgsLeft(ts: seq<Token>, p: nat, want: seq<Exp>, args: seq<Exp>, end: nat) {
    |args| <= |want| && args == want[..|args|] && Reads(ts, p, RestOfArgs(want, |args|)) && p + |RestOfArgs(want, |args|)| == end
  }

  /** The next argument and what follows it. */
  lemma NextArg(ts: seq<Token>, p: nat, want: seq<Exp>, args: seq<Exp>, end: nat) returns (next: Exp)
    requires AreExps(want) && ArgsLeft(ts, p, want, args, end) && SymAt(ts, end) == SyRParen && SymAt(ts, p) != SyRParen
    ensures var q := if SymAt(ts, p) == SyComma then p + 1 else p;
            && SymAt(ts, q) in EXP_STARTS && PrintsAt(ts, q, next, EXP, {SyComma, SyRParen})
            && ArgsLeft(ts, q + |Print(next)|, want, args + [next], end)
  {
    RestReads(ts, p, want, |args|);
    next := want[|args|];
  }

  lemma ArgAdded(ts: seq<Token>, start: nat, p: nat, from: nat, q: nat, args: seq<Exp>, arg: Exp, more: seq<Exp>)
    requires AreExps(args) && Is(arg, EXP) && more == args + [arg] && SpellsArgs(ts, start, p, args) && Spells(ts, from, q, arg)
    requires if args == [] then from == p else from == p + 1 && Has(ts, p, SyComma)
    ensures AreExps(more) && more != [] && SpellsArgs(ts, start, q, more)
  {
    OneMoreArg(ts, start, p, q, args, arg);
  }

  lemma NoArgLeft(ts: seq<Token>, p: nat, want: seq<Exp>, args: seq<Exp>, end: nat)
    requires AreExps(want) && ArgsLeft(ts, p, want, args, end) && SymAt(ts, p) == SyRParen && SymAt(ts, end) == SyRParen
    ensures args == want && p == end
  {
    RestEnds(ts, p, want, |args|);
    RestIs(want, |want|);
  }

  // ---------- what is printed is a way to write it ----------

  lemma OpStands(op: Op)
    requires IsMulOp(op) || IsAddOp(op) || IsRelOp(op)
    ensures Stands(op, SymOfOp(op))
    ensures SymOfOp(UPlus) == SyPlus && SymOfOp(UMinus) == SyMinus
  {
  }

  lemma OperandsAre(e: Exp)
    requires Is(e, EXP)
    ensures e.Unary? ==> Is(e.arg, EXP)
    ensures e.Binary? ==> Is(e.left, EXP) && Is(e.right, EXP) && (IsMulOp(e.op) || IsAddOp(e.op) || IsRelOp(e.op))
    ensures e.Cond? ==> Is(e.test, EXP) && Is(e.thenExp, EXP) && Is(e.elseExp, EXP)
    ensures e.Unary? ==> e.op == UPlus || e.op == UMinus
  {
    if e.Unary? {
      Higher(e.arg, MUL, EXP);
    } else if e.Cond? {
      Higher(e.test, REL, EXP);
    } else if e.Binary? {
      var l, r := if IsMulOp(e.op) then MUL else ADD, if IsMulOp(e.op) then FACT else if IsAddOp(e.op) then MUL else ADD;
      Higher(e.left, l, EXP);
      Higher(e.right, r, EXP);
    }
  }

  lemma {:induction false} UnaryReadsSpell(ts: seq<Token>, p: nat, e: Exp, bare: Exp)
    requires Is(e, EXP) && bare == e.(paren := false) && Reads(ts, p, Print(bare)) && e.Unary?
    ensures Spells(ts, p, p + |Print(bare)|, bare)
    decreases e, 0
  {
    OperandsAre(e);
    UnaryReads(ts, p, bare);
    ReadsSpell(ts, p + 1, e.arg);
    UnarySpells(ts, p, p + |Print(bare)|, e.op, e.arg);
  }

  lemma {:induction false} BinaryReadsSpell(ts: seq<Token>, p: nat, e: Exp, bare: Exp)
    requires Is(e, EXP) && bare == e.(paren := false) && Reads(ts, p, Print(bare)) && e.Binary?
    ensures Spells(ts, p, p + |Print(bare)|, bare)
    decreases e, 0
  {
    OperandsAre(e);
    BinaryReads(ts, p, bare);
    OpStands(e.op);
    var m := p + |Print(e.left)|;
    ReadsSpell(ts, p, e.left);
    ReadsSpell(ts, m + 1, e.right);
    BinarySpells(ts, p, m, p + |Print(bare)|, e.op, e.left, e.right);
  }

  lemma {:induction false} CondReadsSpell(ts: seq<Token>, p: nat, e: Exp, bare: Exp)
    requires Is(e, EXP) && bare == e.(paren := false) && Reads(ts, p, Print(bare)) && e.Cond?
    ensures Spells(ts, p, p + |Print(bare)|, bare)
    decreases e, 0
  {
    OperandsAre(e);
    CondReads(ts, p, bare);
    var m := p + |Print(e.test)|;
    var n := m + 1 + |Print(e.thenExp)|;
    ReadsSpell(ts, p, e.test);
    ReadsSpell(ts, m + 1, e.thenExp);
    ReadsSpell(ts, n + 1, e.elseExp);
    CondSpells(ts, p, m, n, p + |Print(bare)|, e.test, e.thenExp, e.elseExp);
  }

  /** What is printed of an expression without its parentheses. */
  lemma {:induction false} BareReadsSpell(ts: seq<Token>, p: nat, e: Exp, bare: Exp)
    requires Is(e, EXP) && bare == e.(paren := false) && Reads(ts, p, Print(bare))
    ensures Spells(ts, p, p + |Print(bare)|, bare)
    decreases e, 1
  {
    if e.Unary? {
      UnaryReadsSpell(ts, p, e, bare);
    } else if e.Binary? {
      BinaryReadsSpell(ts, p, e, bare);
    } else if e.Cond? {
      CondReadsSpell(ts, p, e, bare);
    } else if e.Call? {
      CallReads(ts, p, bare);
      var end := p + |Print(bare)| - 1;
      var m := ArgsReadSpell(ts, p + 2, e, e.args, |e.args|, end);
      ArgsEnd(ts, p + 2, m, e.args, end);
      CallSpells(ts, p, p + |Print(bare)| - 1, e.name, e.args);
    } else {
      PrintIs(bare);
      ReadsFirst(ts, p, Print(bare));
      OneTokenSpells(ts, p, bare);
    }
  }

  lemma {:induction false} ReadsSpell(ts: seq<Token>, p: nat, e: Exp)
    requires Is(e, EXP) && Reads(ts, p, Print(e))
    ensures Spells(ts, p, p + |Print(e)|, e)
    decreases e, 2
  {
    var bare := e.(paren := false);
    if e.paren {
      ParenReads(ts, p, e);
      BareReadsSpell(ts, p + 1, e, bare);
      ParensSpell(ts, p, p + 1 + |Print(bare)|, bare);
    } else {
      BareReadsSpell(ts, p, e, bare);
    }
  }

  /** The first k arguments are written from p up to m, and the rest is printed from m on. */
  ghost predicate ArgsUpTo(ts: seq<Token>, p: nat, m: nat, args: seq<Exp>, k: nat, end: nat)
    requires k <= |args|
  {
    SpellsArgs(ts, p, m, args[..k]) && Reads(ts, m, RestOfArgs(args, k)) && m + |RestOfArgs(args, k)| == end
  }

  lemma ArgsStart(ts: seq<Token>, p: nat, args: seq<Exp>)
    requires Reads(ts, p, PrintArgs(args))
    ensures ArgsUpTo(ts, p, p, args, 0, p + |PrintArgs(args)|)
  {
    NoArgs(ts, p);
    assert args[..0] == [];
    RestIs(args, 0);
  }

  lemma OneArgOn(ts: seq<Token>, p: nat, m: nat, args: seq<Exp>, k: nat, end: nat, q: nat) returns (r: nat)
    requires AreExps(args) && k < |args| && ArgsUpTo(ts, p, m, args, k, end) && SymAt(ts, end) == SyRParen
    requires q == if k == 0 then m else m + 1
    requires Reads(ts, q, Print(args[k])) ==> Spells(ts, q, q + |Print(args[k])|, args[k])
    ensures ArgsUpTo(ts, p, r, args, k + 1, end)
  {
    NextArgReads(ts, m, args, k);
    r := q + |Print(args[k])|;
    OneMoreArg(ts, p, m, r, args[..k], args[k]);
    assert args[..k + 1] == args[..k] + [args[k]];
  }

  lemma ArgsEnd(ts: seq<Token>, p: nat, m: nat, args: seq<Exp>, end: nat)
    requires ArgsUpTo(ts, p, m, args, |args|, end)
    ensures SpellsArgs(ts, p, end, args)
  {
    RestIs(args, |args|);
    assert args[..|args|] == args;
  }

  /** The first k arguments of a call that is printed. */
  lemma {:induction false} ArgsReadSpell(ts: seq<Token>, p: nat, e: Exp, args: seq<Exp>, k: nat, end: nat) returns (m: nat)
    requires e.Call? && e.args == args && AreExps(args) && k <= |args|
    requires Reads(ts, p, PrintArgs(args)) && end == p + |PrintArgs(args)| && SymAt(ts, end) == SyRParen
    ensures ArgsUpTo(ts, p, m, args, k, end)
    decreases e, 0, k
  {
    if k == 0 {
      m := p;
      ArgsStart(ts, p, args);
    } else {
      m := ArgsReadSpell(ts, p, e, args, k - 1, end);
      var q: nat := if k == 1 then m else m + 1;
      if Reads(ts, q, Print(args[k - 1])) { ReadsSpell(ts, q, args[k - 1]); }
      m := OneArgOn(ts, p, m, args, k - 1, end, q);
    }
  }

  lemma NextArgReads(ts: seq<Token>, p: nat, args: seq<Exp>, k: nat)
    requires AreExps(args) && k < |args| && Reads(ts, p, RestOfArgs(args, k)) && SymAt(ts, p + |RestOfArgs(args, k)|) == SyRParen
    ensures var q := if k == 0 then p else p + 1;
            var r := q + |Print(args[k])|;
            && Reads(ts, q, Print(args[k])) && (k > 0 ==> Has(ts, p, SyComma))
            && Reads(ts, r, RestOfArgs(args, k + 1)) && r + |RestOfArgs(args, k + 1)| == p + |RestOfArgs(args, k)|
  {
    RestStep(args, k);
    var comma, first, more := if k > 0 then [SymTok(SyComma)] else [], Print(args[k]), RestOfArgs(args, k + 1);
    ReadsParts(ts, p, comma + first, more);
    ReadsParts(ts, p, comma, first);
    if k > 0 { ReadsFirst(ts, p, comma); }
  }

  // ---------- the left spine of a chain of operators ----------

  /** e is a bare application of an operator of this level. */
  predicate IsChain(e: Exp, level: nat) {
    !e.paren && e.Binary? && if level == MUL then IsMulOp(e.op) else IsAddOp(e.op)
  }

  /** x is e or, in a chain, the left operand of its left operand and so on. */
  ghost predicate OnSpine(x: Exp, e: Exp, level: nat) {
    x == e || (IsChain(e, level) && OnSpine(x, e.left, level))
  }

  ghost function Leftmost(e: Exp, level: nat): Exp {
    if IsChain(e, level) then Leftmost(e.left, level) else e
  }

  /** The node of the spine above x. */
  ghost function Above(x: Exp, e: Exp, level: nat): (y: Exp)
    requires OnSpine(x, e, level) && x != e
    ensures OnSpine(y, e, level) && IsChain(y, level) && y.left == x
  {
    if e.left == x then e else Above(x, e.left, level)
  }

  lemma {:induction false} LeftmostOnSpine(e: Exp, level: nat)
    ensures OnSpine(Leftmost(e, level), e, level)
  {
    if IsChain(e, level) { LeftmostOnSpine(e.left, level); }
  }

  /** What is on the spine comes first in the tokens. */
  lemma {:induction false} SpineReads(ts: seq<Token>, p: nat, x: Exp, e: Exp, level: nat)
    requires OnSpine(x, e, level) && Reads(ts, p, Print(e))
    ensures Reads(ts, p, Print(x)) && |Print(x)| <= |Print(e)|
  {
    if x != e {
      BinaryReads(ts, p, e);
      SpineReads(ts, p, x, e.left, level);
    }
  }

  lemma {:induction false} SpineIs(x: Exp, e: Exp, level: nat)
    requires OnSpine(x, e, level) && Is(e, level) && (level == MUL || level == ADD)
    ensures Is(x, level)
  {
    if x != e { SpineIs(x, e.left, level); }
  }

  function OpSyms(level: nat): set<Sym> {
    if level == MUL then MUL_OPS else ADD_OPS
  }

  /** What comes after x on the spine: the operator above it, or what comes after e. */
  lemma SpineStops(ts: seq<Token>, p: nat, x: Exp, e: Exp, level: nat, follow: set<Sym>)
    requires (level == MUL || level == ADD) && Is(e, level) && OnSpine(x, e, level) && Reads(ts, p, Print(e))
    requires Stops(SymAt(ts, p + |Print(e)|), level, follow)
    ensures Stops(SymAt(ts, p + |Print(x)|), level - 1, follow + OpSyms(level))
  {
    if x != e {
      var y := Above(x, e, level);
      SpineReads(ts, p, y, e, level);
      BinaryReads(ts, p, y);
      OpTables(y.op);
    }
  }

  /** The operator above x and its right operand are printed behind x. */
  lemma SpineNext(ts: seq<Token>, p: nat, x: Exp, e: Exp, level: nat, follow: set<Sym>) returns (op: Op, right: Exp)
    requires (level == MUL || level == ADD) && Is(e, level) && OnSpine(x, e, level) && x != e && Reads(ts, p, Print(e))
    requires Stops(SymAt(ts, p + |Print(e)|), level, follow)
    ensures var q, up := p + |Print(x)|, Binary(false, op, x, right);
            && q < |ts| && SymAt(ts, q) in OpSyms(level) && OpOfSym(SymAt(ts, q)) == op
            && Is(right, level - 1) && Reads(ts, q + 1, Print(right)) && SymAt(ts, q + 1) in FACT_STARTS
            && OnSpine(up, e, level) && p + |Print(up)| == q + 1 + |Print(right)|
            && Stops(SymAt(ts, q + 1 + |Print(right)|), level - 1, follow + OpSyms(level))
  {
    var y := Above(x, e, level);
    op, right := y.op, y.right;
    assert y == Binary(false, op, x, right);
    SpineReads(ts, p, y, e, level);
    SpineIs(y, e, level);
    BinaryReads(ts, p, y);
    OpTables(op);
    FirstSym(right, level - 1);
    SpineStops(ts, p, y, e, level, follow);
  }

  /** The leftmost operand: a factor, or a term with or without a sign. */
  lemma LeftmostReads(ts: seq<Token>, p: nat, e: Exp, level: nat, follow: set<Sym>)
    requires (level == MUL || level == ADD) && Is(e, level) && Reads(ts, p, Print(e))
    requires Stops(SymAt(ts, p + |Print(e)|), level, follow)
    ensures var x := Leftmost(e, level);
            && OnSpine(x, e, level) && Reads(ts, p, Print(x)) && Is(x, level)
            && Stops(SymAt(ts, p + |Print(x)|), level - 1, follow + OpSyms(level))
            && (level == MUL ==> Is(x, FACT))
            && (level == ADD && !IsSigned(x) ==> Is(x, MUL) && SymAt(ts, p) in FACT_STARTS)
  {
    var x := Leftmost(e, level);
    LeftmostOnSpine(e, level);
    LeftmostIsNoChain(e, level);
    SpineReads(ts, p, x, e, level);
    SpineIs(x, e, level);
    SpineStops(ts, p, x, e, level, follow);
    ReadsFirst(ts, p, Print(x));
    if level == ADD && !IsSigned(x) {
      assert Is(x, MUL);
      FirstSym(x, MUL);
    }
  }

  lemma {:induction false} LeftmostIsNoChain(e: Exp, level: nat)
    ensures !IsChain(Leftmost(e, level), level)
  {
    if IsChain(e, level) { LeftmostIsNoChain(e.left, level); }
  }

  /** e is printed at p and not more of it. */
  ghost predicate PrintsAt(ts: seq<Token>, p: nat, e: Exp, level: nat, follow: set<Sym>) {
    Is(e, level) && Reads(ts, p, Print(e)) && Stops(SymAt(ts, p + |Print(e)|), level, follow)
  }

  /** With the operator at q and `right` behind it, x goes one operand further up in e. */
  ghost predicate GrowsTo(up: Exp, ts: seq<Token>, p: nat, q: nat, right: Exp, e: Exp, level: nat) {
    OnSpine(up, e, level) && p + |Print(up)| == q + 1 + |Print(right)|
  }

  /** Behind x there is an operator of the level, so it is not all of e. */
  lemma RightOf(ts: seq<Token>, p: nat, q: nat, x: Exp, e: Exp, level: nat, follow: set<Sym>) returns (right: Exp)
    requires (level == MUL || level == ADD) && PrintsAt(ts, p, e, level, follow) && OnSpine(x, e, level)
    requires q == p + |Print(x)| && SymAt(ts, q) in OpSyms(level)
    ensures SymAt(ts, q + 1) in FACT_STARTS && PrintsAt(ts, q + 1, right, level - 1, follow + OpSyms(level))
    ensures GrowsTo(Binary(false, OpOfSym(SymAt(ts, q)), x, right), ts, p, q, right, e, level)
  {
    var op;
    op, right := SpineNext(ts, p, x, e, level, follow);
  }

  predicate IsRelation(e: Exp) {
    !e.paren && e.Binary? && IsRelOp(e.op)
  }

  /** The left side of a relation, or all of a sum. */
  function LeftSum(e: Exp): Exp {
    if IsRelation(e) then e.left else e
  }

  /** The sum that a relation begins with, and the right side behind the operator. */
  lemma RelationReads(ts: seq<Token>, p: nat, e: Exp, follow: set<Sym>)
    requires PrintsAt(ts, p, e, REL, follow)
    ensures PrintsAt(ts, p, LeftSum(e), ADD, follow + REL_OPS)
    ensures var q := p + |Print(LeftSum(e))|;
            if IsRelation(e) then
              && SymAt(ts, q) == SymOfOp(e.op) && SymAt(ts, q) in REL_OPS && SymAt(ts, q + 1) in EXP_STARTS
              && PrintsAt(ts, q + 1, e.right, ADD, follow) && p + |Print(e)| == q + 1 + |Print(e.right)|
            else SymAt(ts, q) !in REL_OPS
  {
    if IsRelation(e) {
      BinaryReads(ts, p, e);
      OpTables(e.op);
      FirstSym(e.right, ADD);
    }
  }

  /** The level of an operator between its operands. */
  function LevelOf(s: Sym): nat {
    if s in MUL_OPS then MUL else if s in ADD_OPS then ADD else REL
  }

  lemma OperationIs(s: Sym, a: Exp, b: Exp)
    requires s in MUL_OPS + ADD_OPS + REL_OPS
    requires Is(a, if LevelOf(s) == REL then ADD else LevelOf(s)) && Is(b, LevelOf(s) - 1)
    ensures Is(Binary(false, OpOfSym(s), a, b), LevelOf(s))
  {
    SymTables(s);
  }

  lemma RelationBuilt(ts: seq<Token>, p: nat, m: nat, q: nat, s: Sym, a: Exp, b: Exp)
    requires s in REL_OPS && SymAt(ts, m) == s && Is(a, ADD) && Is(b, ADD) && Spells(ts, p, m, a) && Spells(ts, m + 1, q, b)
    ensures Is(Binary(false, OpOfSym(s), a, b), REL) && Spells(ts, p, q, Binary(false, OpOfSym(s), a, b))
  {
    OperationIs(s, a, b);
    SymStands(s);
    BinarySpells(ts, p, m, q, OpOfSym(s), a, b);
  }

  lemma SumBuilt(ts: seq<Token>, p: nat, m: nat, q: nat, s: Sym, a: Exp, b: Exp)
    requires s in ADD_OPS && SymAt(ts, m) == s && Is(a, ADD) && Is(b, MUL) && Spells(ts, p, m, a) && Spells(ts, m + 1, q, b)
    ensures Is(Binary(false, OpOfSym(s), a, b), ADD) && Spells(ts, p, q, Binary(false, OpOfSym(s), a, b))
  {
    OperationIs(s, a, b);
    SymStands(s);
    BinarySpells(ts, p, m, q, OpOfSym(s), a, b);
  }

  lemma ProductBuilt(ts: seq<Token>, p: nat, m: nat, q: nat, s: Sym, a: Exp, b: Exp)
    requires s in MUL_OPS && SymAt(ts, m) == s && Is(a, MUL) && Is(b, FACT) && Spells(ts, p, m, a) && Spells(ts, m + 1, q, b)
    ensures Is(Binary(false, OpOfSym(s), a, b), MUL) && Spells(ts, p, q, Binary(false, OpOfSym(s), a, b))
  {
    OperationIs(s, a, b);
    SymStands(s);
    BinarySpells(ts, p, m, q, OpOfSym(s), a, b);
  }

  lemma SameRelation(s: Sym, op: Op)
    requires IsRelOp(op) && s == SymOfOp(op)
    ensures OpOfSym(s) == op
  {
  }

  predicate IsChoice(e: Exp) {
    !e.paren && e.Cond?
  }

  /** The test of a conditional, or all of a relation. */
  function TestOf(e: Exp): Exp {
    if IsChoice(e) then e.test else e
  }

  /** From the question mark at q on, the two branches of e are printed. */
  ghost predicate BranchesAt(ts: seq<Token>, q: nat, e: Exp, follow: set<Sym>)
    requires IsChoice(e)
  {
    var s := q + 1 + |Print(e.thenExp)|;
    && SymAt(ts, q + 1) in EXP_STARTS && PrintsAt(ts, q + 1, e.thenExp, EXP, {SyColon})
    && s < |ts| && SymAt(ts, s + 1) in EXP_STARTS && PrintsAt(ts, s + 1, e.elseExp, EXP, follow)
  }

  /** The relation that a conditional begins with, and what is behind it. */
  lemma ChoiceReads(ts: seq<Token>, p: nat, e: Exp, follow: set<Sym>)
    requires PrintsAt(ts, p, e, EXP, follow)
    ensures PrintsAt(ts, p, TestOf(e), REL, follow + {SyQuestion})
    ensures var q := p + |Print(TestOf(e))|;
            if IsChoice(e) then
              SymAt(ts, q) == SyQuestion && BranchesAt(ts, q, e, follow)
              && p + |Print(e)| == q + 1 + |Print(e.thenExp)| + 1 + |Print(e.elseExp)|
            else SymAt(ts, q) != SyQuestion
  {
    if IsChoice(e) {
      CondReads(ts, p, e);
      FirstSym(e.thenExp, EXP);
      FirstSym(e.elseExp, EXP);
    }
  }

  predicate IsSigned(e: Exp) {
    !e.paren && e.Unary?
  }

  // ---------- the parser ----------

  class TILx {
    const tokens: seq<Token>
    var pos: nat

    constructor (tokens: seq<Token>)
      ensures this.tokens == tokens && pos == 0
    {
      this.tokens, pos := tokens, 0;
    }

    function Sym(): Sym
      reads this
    {
      SymAt(tokens, pos)
    }

    /** Whether the current symbol is one that was asked for. */
    predicate At(follow: set<Sym>)
      reads this
    {
      Sym() in follow
    }

    /** Goes to the next symbol; one that is not in `follow` is an exception. */
    method GetSym(follow: set<Sym>) returns (ok: bool)
      requires pos < |tokens|
      modifies this`pos
      ensures pos == old(pos) + 1 && ok == At(follow)
    {
      pos := pos + 1;
      ok := At(follow);
    }

    // Each parsing method returns a tree of its level, and if an expression of that level is printed
    // here it returns that expression and stops behind it. `known` says that `want` is printed here.

    method LoadTxtFact(follow: set<Sym>, ghost want: Exp, ghost known: bool) returns (ok: bool, exp: Exp)
      requires pos <= |tokens| && (known ==> PrintsAt(tokens, pos, want, FACT, follow))
      modifies this`pos
      ensures ok ==> Is(exp, FACT) && old(pos) < pos <= |tokens| && At(follow)
      ensures ok ==> Spells(tokens, old(pos), pos, exp)
      ensures known ==> ok && exp == want && pos == old(pos) + |Print(want)|
      decreases |tokens| - pos, 0, 1
    {
      ok, exp := false, Flt(false, 0.0);
      if known { FactReads(tokens, pos, want); }
      if pos == |tokens| { return; }
      match tokens[pos] {
        case FltTok(x) =>
          exp := Flt(false, x);
          OneTokenSpells(tokens, pos, exp);
          ok := GetSym(follow);
        case StrTok(s) =>
          exp := Str(false, s);
          OneTokenSpells(tokens, pos, exp);
          ok := GetSym(follow);
        case IdTok(n) =>
          ok, exp := LoadTxtName(n, follow, want, known);
        case SymTok(s) =>
          if s != SyLParen { return; }
          ok := GetSym(EXP_STARTS);
          if !ok { return; }
          ok, exp := LoadTxtExp({SyRParen}, want.(paren := false), known);
          if !ok { return; }
          InParens(exp);
          ParensSpell(tokens, old(pos), pos, exp);
          exp := exp.(paren := true);
          ok := GetSym(follow);
      }
    }

    /** A name, or a call if there is a parenthesis behind it. */
    method LoadTxtName(n: string, follow: set<Sym>, ghost want: Exp, ghost known: bool) returns (ok: bool, exp: Exp)
      requires pos < |tokens| && tokens[pos] == IdTok(n) && (known ==> PrintsAt(tokens, pos, want, FACT, follow))
      modifies this`pos
      ensures ok ==> Is(exp, FACT) && old(pos) < pos <= |tokens| && At(follow)
      ensures ok ==> Spells(tokens, old(pos), pos, exp)
      ensures known ==> ok && exp == want && pos == old(pos) + |Print(want)|
      decreases |tokens| - pos, 0, 0
    {
      exp := Name(false, n);
      if known { FactReads(tokens, pos, want); }
      ok := GetSym(follow + {SyLParen});
      if !ok { return; }
      if Sym() == SyLParen {
        ok, exp := LoadTxtCall(n, follow, want, known);
      } else {
        OneTokenSpells(tokens, pos - 1, exp);
      }
    }

    /** The call of n, from its opening parenthesis on. */
    method LoadTxtCall(n: string, follow: set<Sym>, ghost want: Exp, ghost known: bool) returns (ok: bool, exp: Exp)
      requires 0 < pos < |tokens| && tokens[pos - 1] == IdTok(n) && Sym() == SyLParen
      requires known ==> !want.paren && want.Call? && want.name == n
      requires known ==> Is(want, FACT) && Reads(tokens, pos - 1, Print(want))
      requires known ==> Stops(SymAt(tokens, pos - 1 + |Print(want)|), FACT, follow)
      modifies this`pos
      ensures ok ==> Is(exp, FACT) && old(pos) < pos <= |tokens| && At(follow)
      ensures ok ==> Spells(tokens, old(pos) - 1, pos, exp)
      ensures known ==> ok && exp == want && pos == old(pos) - 1 + |Print(want)|
      decreases |tokens| - pos, 8
    {
      exp := Name(false, n);
      if known {
        CallReads(tokens, pos - 1, want);
        CallStarts(tokens, pos - 1, want);
      }
      ok := GetSym(EXP_STARTS + {SyRParen});
      if !ok { return; }
      var args;
      ok, args := LoadTxtArgs(if known then want.args else [], known);
      if !ok { return; }
      CallSpells(tokens, old(pos) - 1, pos, n, args);
      ok := GetSym(follow);
      exp := Call(false, n, args);
    }

    /** The arguments of a call, up to the closing parenthesis. */
    method LoadTxtArgs(ghost want: seq<Exp>, ghost known: bool) returns (ok: bool, args: seq<Exp>)
      requires pos <= |tokens| && Sym() in EXP_STARTS + {SyRParen}
      requires known ==> AreExps(want) && Reads(tokens, pos, PrintArgs(want))
      requires known ==> SymAt(tokens, pos + |PrintArgs(want)|) == SyRParen
      modifies this`pos
      ensures ok ==> AreExps(args) && old(pos) <= pos < |tokens| && Sym() == SyRParen && SpellsArgs(tokens, old(pos), pos, args)
      ensures known ==> ok && args == want && pos == old(pos) + |PrintArgs(want)|
      decreases |tokens| - pos, 7
    {
      ok, args := true, [];
      ghost var end := old(pos) + if known then |PrintArgs(want)| else 0;
      if known { RestIs(want, 0); }
      NoArgs(tokens, pos);
      while Sym() != SyRParen
        invariant ok && old(pos) <= pos <= |tokens| && AreExps(args)
        invariant SpellsArgs(tokens, old(pos), pos, args)
        invariant if args == [] then Sym() in EXP_STARTS + {SyRParen} else Sym() in {SyComma, SyRParen}
        invariant known ==> ArgsLeft(tokens, pos, want, args, end)
        decreases |tokens| - pos
      {
        ok, args := LoadTxtArg(args, old(pos), want, end, known);
        if !ok { return; }
      }
      if known { NoArgLeft(tokens, pos, want, args, end); }
    }

    /** One more argument, after the comma if there is one. */
    method LoadTxtArg(args: seq<Exp>, ghost start: nat, ghost want: seq<Exp>, ghost end: nat, ghost known: bool) returns (ok: bool, more: seq<Exp>)
      requires pos <= |tokens| && AreExps(args) && SpellsArgs(tokens, start, pos, args)
      requires if args == [] then Sym() in EXP_STARTS else Sym() == SyComma
      requires known ==> AreExps(want) && ArgsLeft(tokens, pos, want, args, end) && SymAt(tokens, end) == SyRParen
      modifies this`pos
      ensures ok ==> AreExps(more) && old(pos) < pos <= |tokens| && more != [] && Sym() in {SyComma, SyRParen}
      ensures ok ==> SpellsArgs(tokens, start, pos, more)
      ensures known ==> ok && ArgsLeft(tokens, pos, want, more, end)
      decreases |tokens| - pos, 6
    {
      more := args;
      ghost var next := Flt(false, 0.0);
      if known { next := NextArg(tokens, pos, want, args, end); }
      ok := true;
      if Sym() == SyComma {
        ok := GetSym(EXP_STARTS);
        if !ok { return; }
      }
      ghost var from := pos;
      var arg;
      ok, arg := LoadTxtExp({SyComma, SyRParen}, next, known);
      if !ok { return; }
      more := args + [arg];
      ArgAdded(tokens, start, old(pos), from, pos, args, arg, more);
    }

    /** The operator here and its right operand. */
    method LoadTxtMulRight(left: Exp, follow: set<Sym>, ghost start: nat, ghost want: Exp, ghost known: bool) returns (ok: bool, exp: Exp)
      requires start < pos < |tokens| && Is(left, MUL) && Sym() in MUL_OPS && Spells(tokens, start, pos, left)
      requires known ==> PrintsAt(tokens, start, want, MUL, follow)
      requires known ==> OnSpine(left, want, MUL) && pos == start + |Print(left)|
      modifies this`pos
      ensures ok ==> Is(exp, MUL) && old(pos) < pos <= |tokens| && Sym() in follow + MUL_OPS && Spells(tokens, start, pos, exp)
      ensures known ==> ok && OnSpine(exp, want, MUL) && pos == start + |Print(exp)|
      decreases |tokens| - pos, 1
    {
      exp := left;
      var s := Sym();
      ghost var operand := left;
      if known { operand := RightOf(tokens, start, pos, left, want, MUL, follow); }
      var right;
      ok := GetSym(FACT_STARTS);
      if !ok { return; }
      ok, right := LoadTxtFact(follow + MUL_OPS, operand, known);
      if !ok { return; }
      ProductBuilt(tokens, start, old(pos), pos, s, left, right);
      exp := Binary(false, OpOfSym(s), left, right);
    }

    method LoadTxtMulExp(follow: set<Sym>, ghost want: Exp, ghost known: bool) returns (ok: bool, exp: Exp)
      requires pos <= |tokens| && (known ==> PrintsAt(tokens, pos, want, MUL, follow))
      modifies this`pos
      ensures ok ==> Is(exp, MUL) && old(pos) < pos <= |tokens| && At(follow) && Spells(tokens, old(pos), pos, exp)
      ensures known ==> ok && exp == want && pos == old(pos) + |Print(want)|
      decreases |tokens| - pos, 1
    {
      ghost var start := pos;
      if known { LeftmostReads(tokens, pos, want, MUL, follow); }
      ok, exp := LoadTxtFact(follow + MUL_OPS, Leftmost(want, MUL), known);
      if !ok { return; }
      Higher(exp, FACT, MUL);
      while Sym() in MUL_OPS
        invariant ok && start < pos <= |tokens| && Is(exp, MUL) && Sym() in follow + MUL_OPS && Spells(tokens, start, pos, exp)
        invariant known ==> OnSpine(exp, want, MUL) && pos == start + |Print(exp)|
        decreases |tokens| - pos
      {
        ok, exp := LoadTxtMulRight(exp, follow, start, want, known);
        if !ok { return; }
      }
      if known && exp != want { var op, right := SpineNext(tokens, start, exp, want, MUL, follow); }
    }

    /** The operator here and its right operand. */
    method LoadTxtAddRight(left: Exp, follow: set<Sym>, ghost start: nat, ghost want: Exp, ghost known: bool) returns (ok: bool, exp: Exp)
      requires start < pos < |tokens| && Is(left, ADD) && Sym() in ADD_OPS && Spells(tokens, start, pos, left)
      requires known ==> PrintsAt(tokens, start, want, ADD, follow)
      requires known ==> OnSpine(left, want, ADD) && pos == start + |Print(left)|
      modifies this`pos
      ensures ok ==> Is(exp, ADD) && old(pos) < pos <= |tokens| && Sym() in follow + ADD_OPS && Spells(tokens, start, pos, exp)
      ensures known ==> ok && OnSpine(exp, want, ADD) && pos == start + |Print(exp)|
      decreases |tokens| - pos, 3
    {
      exp := left;
      var s := Sym();
      ghost var operand := left;
      if known { operand := RightOf(tokens, start, pos, left, want, ADD, follow); }
      var right;
      ok := GetSym(FACT_STARTS);
      if !ok { return; }
      ok, right := LoadTxtMulExp(follow + ADD_OPS, operand, known);
      if !ok { return; }
      SumBuilt(tokens, start, old(pos), pos, s, left, right);
      exp := Binary(false, OpOfSym(s), left, right);
    }

    method LoadTxtAddExp(follow: set<Sym>, ghost want: Exp, ghost known: bool) returns (ok: bool, exp: Exp)
      requires pos <= |tokens| && (known ==> PrintsAt(tokens, pos, want, ADD, follow))
      modifies this`pos
      ensures ok ==> Is(exp, ADD) && old(pos) < pos <= |tokens| && At(follow) && Spells(tokens, old(pos), pos, exp)
      ensures known ==> ok && exp == want && pos == old(pos) + |Print(want)|
      decreases |tokens| - pos, 3
    {
      ghost var start := pos;
      if known { LeftmostReads(tokens, pos, want, ADD, follow); }
      ok, exp := LoadTxtTerm(follow, Leftmost(want, ADD), known);
      if !ok { return; }
      while Sym() in ADD_OPS
        invariant ok && start < pos <= |tokens| && Is(exp, ADD) && Sym() in follow + ADD_OPS && Spells(tokens, start, pos, exp)
        invariant known ==> OnSpine(exp, want, ADD) && pos == start + |Print(exp)|
        decreases |tokens| - pos
      {
        ok, exp := LoadTxtAddRight(exp, follow, start, want, known);
        if !ok { return; }
      }
      if known && exp != want { var op, right := SpineNext(tokens, start, exp, want, ADD, follow); }
    }

    /** The first term of a sum, which may have a sign. */
    method LoadTxtTerm(follow: set<Sym>, ghost want: Exp, ghost known: bool) returns (ok: bool, exp: Exp)
      requires pos <= |tokens|
      requires known ==> Is(want, ADD) && Reads(tokens, pos, Print(want))
      requires known ==> Stops(SymAt(tokens, pos + |Print(want)|), MUL, follow + ADD_OPS)
      requires known && !IsSigned(want) ==> Is(want, MUL) && Sym() in FACT_STARTS
      modifies this`pos
      ensures ok ==> Is(exp, ADD) && old(pos) < pos <= |tokens| && Sym() in follow + ADD_OPS && Spells(tokens, old(pos), pos, exp)
      ensures known ==> ok && exp == want && pos == old(pos) + |Print(want)|
      decreases |tokens| - pos, 2
    {
      ok, exp := true, Flt(false, 0.0);
      if known && IsSigned(want) {
        UnaryReads(tokens, pos, want);
        FirstSym(want.arg, MUL);
      }
      var sign := Not;
      if Sym() == SyPlus {
        sign := UPlus;
        ok := GetSym(FACT_STARTS);
      } else if Sym() == SyMinus {
        sign := UMinus;
        ok := GetSym(FACT_STARTS);
      }
      if !ok { return; }
      ok, exp := LoadTxtMulExp(follow + ADD_OPS, if IsSigned(want) then want.arg else want, known);
      if !ok { return; }
      if sign != Not {
        UnarySpells(tokens, old(pos), pos, sign, exp);
        exp := Unary(false, sign, exp);
      } else {
        Higher(exp, MUL, ADD);
      }
    }

    method LoadTxtRelExp(follow: set<Sym>, ghost want: Exp, ghost known: bool) returns (ok: bool, exp: Exp)
      requires pos <= |tokens| && (known ==> PrintsAt(tokens, pos, want, REL, follow))
      modifies this`pos
      ensures ok ==> Is(exp, REL) && old(pos) < pos <= |tokens| && At(follow) && Spells(tokens, old(pos), pos, exp)
      ensures known ==> ok && exp == want && pos == old(pos) + |Print(want)|
      decreases |tokens| - pos, 4
    {
      if known { RelationReads(tokens, pos, want, follow); }
      ok, exp := LoadTxtAddExp(follow + REL_OPS, LeftSum(want), known);
      if !ok { return; }
      Higher(exp, ADD, REL);
      if Sym() in REL_OPS {
        ok, exp := LoadTxtRelRight(exp, follow, old(pos), want, known);
      }
    }

    /** The relation here and its right side. */
    method LoadTxtRelRight(left: Exp, follow: set<Sym>, ghost start: nat, ghost want: Exp, ghost known: bool) returns (ok: bool, exp: Exp)
      requires pos < |tokens| && Is(left, ADD) && Sym() in REL_OPS && Spells(tokens, start, pos, left)
      requires known ==> IsRelation(want) && want.left == left && Sym() == SymOfOp(want.op)
      requires known ==> PrintsAt(tokens, pos + 1, want.right, ADD, follow) && SymAt(tokens, pos + 1) in EXP_STARTS
      modifies this`pos
      ensures ok ==> Is(exp, REL) && old(pos) < pos <= |tokens| && At(follow) && Spells(tokens, start, pos, exp)
      ensures known ==> ok && exp == want && pos == old(pos) + 1 + |Print(want.right)|
      decreases |tokens| - pos, 4
    {
      exp := left;
      var s := Sym();
      if known { SameRelation(s, want.op); }
      var right;
      ok := GetSym(EXP_STARTS);
      if !ok { return; }
      ok, right := LoadTxtAddExp(follow, if known then want.right else want, known);
      if !ok { return; }
      RelationBuilt(tokens, start, old(pos), pos, s, left, right);
      exp := Binary(false, OpOfSym(s), left, right);
    }

    method LoadTxtExp(follow: set<Sym>, ghost want: Exp, ghost known: bool) returns (ok: bool, exp: Exp)
      requires pos <= |tokens| && (known ==> PrintsAt(tokens, pos, want, EXP, follow))
      modifies this`pos
      ensures ok ==> Is(exp, EXP) && old(pos) < pos <= |tokens| && At(follow) && Spells(tokens, old(pos), pos, exp)
      ensures known ==> ok && exp == want && pos == old(pos) + |Print(want)|
      decreases |tokens| - pos, 5
    {
      if known { ChoiceReads(tokens, pos, want, follow); }
      ok, exp := LoadTxtRelExp(follow + {SyQuestion}, TestOf(want), known);
      if !ok { return; }
      Higher(exp, REL, EXP);
      if Sym() == SyQuestion {
        ok, exp := LoadTxtCond(exp, follow, old(pos), want, known);
      }
    }

    /** The question mark here and the two branches. */
    method LoadTxtCond(test: Exp, follow: set<Sym>, ghost start: nat, ghost want: Exp, ghost known: bool) returns (ok: bool, exp: Exp)
      requires pos < |tokens| && Is(test, REL) && Sym() == SyQuestion && Spells(tokens, start, pos, test)
      requires known ==> IsChoice(want) && want.test == test && BranchesAt(tokens, pos, want, follow)
      modifies this`pos
      ensures ok ==> Is(exp, EXP) && old(pos) < pos <= |tokens| && At(follow) && Spells(tokens, start, pos, exp)
      ensures known ==> ok && exp == want && pos == old(pos) + 1 + |Print(want.thenExp)| + 1 + |Print(want.elseExp)|
      decreases |tokens| - pos, 5
    {
      exp := test;
      var thenExp, elseExp;
      ok := GetSym(EXP_STARTS);
      if !ok { return; }
      ok, thenExp := LoadTxtExp({SyColon}, if known then want.thenExp else want, known);
      if !ok { return; }
      ghost var colon := pos;
      ok := GetSym(EXP_STARTS);
      if !ok { return; }
      ok, elseExp := LoadTxtExp(follow, if known then want.elseExp else want, known);
      if !ok { return; }
      CondSpells(tokens, start, old(pos), colon, pos, test, thenExp, elseExp);
      exp := Cond(false, test, thenExp, elseExp);
    }
  }

  /** Parses the tokens from the first one on. */
  method LoadTxt(tokens: seq<Token>, follow: set<Sym>, ghost want: Exp, ghost known: bool) returns (ok: bool, exp: Exp, next: nat)
    requires known ==> Is(want, EXP) && Reads(tokens, 0, Print(want)) && Stops(SymAt(tokens, |Print(want)|), EXP, follow)
    ensures ok ==> Is(exp, EXP) && next <= |tokens| && SymAt(tokens, next) in follow && Spells(tokens, 0, next, exp)
    ensures known ==> ok && exp == want && next == |Print(want)|
  {
    var lx := new TILx(tokens);
    if known {
      ReadsFirst(tokens, 0, Print(want));
      FirstSym(want, EXP);
    }
    ok, exp, next := lx.At(EXP_STARTS), Flt(false, 0.0), 0;
    if !ok { return; }
    ok, exp := lx.LoadTxtExp(follow, want, known);
    next := lx.pos;
  }

  // ---------- the printer ----------

  class TOLx {
    var out: seq<Token>

    constructor ()
      ensures out == []
    {
      out := [];
    }

    method Put(t: Token)
      modifies this
      ensures out == old(out) + [t]
    {
      out := out + [t];
    }

    method SaveTxt(e: Exp)
      modifies this
      ensures out == old(out) + Print(e)
      decreases e, 2
    {
      PrintIs(e);
      if e.paren { Put(SymTok(SyLParen)); }
      SaveBare(e);
      if e.paren { Put(SymTok(SyRParen)); }
    }

    method SaveBare(e: Exp)
      modifies this
      ensures out == old(out) + Bare(e)
      decreases e, 1
    {
      match e {
        case Flt(_, x) => Put(FltTok(x));
        case Str(_, s) => Put(StrTok(s));
        case Name(_, n) => Put(IdTok(n));
        case Call(_, n, args) =>
          Put(IdTok(n));
          Put(SymTok(SyLParen));
          SaveTxtArgs(args, e);
          Put(SymTok(SyRParen));
        case _ => SaveTxtOp(e);
      }
    }

    /** An operator with its operands. */
    method SaveTxtOp(e: Exp)
      requires e.Unary? || e.Binary? || e.Cond?
      modifies this
      ensures out == old(out) + OpShape(e)
      decreases e, 0
    {
      match e {
        case Unary(_, op, a) =>
          Put(SymTok(SymOfOp(op)));
          SaveTxt(a);
        case Binary(_, op, a, b) =>
          SaveTxt(a);
          Put(SymTok(SymOfOp(op)));
          SaveTxt(b);
        case Cond(_, c, a, b) =>
          SaveTxt(c);
          Put(SymTok(SyQuestion));
          SaveTxt(a);
          Put(SymTok(SyColon));
          SaveTxt(b);
      }
    }

    method SaveTxtArgs(args: seq<Exp>, ghost e: Exp)
      requires e.Call? && e.args == args
      modifies this
      ensures out == old(out) + PrintArgs(args)
      decreases e, 0
    {
      RestIs(args, 0);
      for n := 0 to |args|
        invariant out + RestOfArgs(args, n) == old(out) + PrintArgs(args)
      {
        RestStep(args, n);
        ghost var before, comma := out, if n > 0 then [SymTok(SyComma)] else [];
        if n > 0 { Put(SymTok(SyComma)); }
        SaveTxt(args[n]);
        assert out + RestOfArgs(args, n + 1) == before + (comma + Print(args[n]) + RestOfArgs(args, n + 1));
      }
      RestIs(args, |args|);
    }
  }

  /** What is printed of a tree of the grammar is parsed to that tree and to the last token. */
  method PrintAndParse(e: Exp, follow: set<Sym>) returns (ok: bool, again: Exp)
    requires Is(e, EXP) && SyEof in follow
    ensures ok && again == e
  {
    var lx := new TOLx();
    lx.SaveTxt(e);
    assert [] + Print(e) == Print(e);
    ReadsWhole(Print(e));
    var next;
    ok, again, next := LoadTxt(lx.out, follow, e, true);
    assert next == |lx.out|;
  }

  /** Whatever the parser returns is printed so that it is parsed to the same tree again. */
  method ParsePrintParse(tokens: seq<Token>, follow: set<Sym>) returns (ok: bool, exp: Exp, again: Exp)
    requires SyEof in follow
    ensures ok ==> Is(exp, EXP) && again == exp
  {
    var next;
    ok, exp, next := LoadTxt(tokens, follow, Flt(false, 0.0), false);
    again := exp;
    if ok { ok, again := PrintAndParse(exp, follow); }
  }

  /** The tokens that SaveTxt appends are a way to write the tree. */
  lemma PrintSpells(e: Exp)
    requires Is(e, EXP)
    ensures Spells(Print(e), 0, |Print(e)|, e)
  {
    ReadsWhole(Print(e));
    ReadsSpell(Print(e), 0, e);
  }

  lemma PrintFlt(x: real)
    ensures Print(Flt(false, x)) == [FltTok(x)]
  {
    PrintIs(Flt(false, x));
  }

  lemma PrintBinary(op: Op, a: Exp, b: Exp)
    ensures Print(Binary(false, op, a, b)) == Print(a) + [SymTok(SymOfOp(op))] + Print(b)
  {
    PrintIs(Binary(false, op, a, b));
  }

  /** Each symbol between two numbers is parsed to its own operator. */
  method ParseOperation(x: real, s: Sym, y: real) returns (ok: bool, op: Op)
    requires s in MUL_OPS + ADD_OPS + REL_OPS
    ensures ok
    ensures s == SyAsterisk ==> op == Mul
    ensures s == SySlash ==> op == Div
    ensures s == SyPercent ==> op == Mod
    ensures s == SyHash ==> op == IDiv
    ensures s == SyAmpersand ==> op == And
    ensures s == SyPlus ==> op == Plus
    ensures s == SyMinus ==> op == Minus
    ensures s == SyVBar ==> op == Or
    ensures s == SyEq ==> op == Eq
    ensures s == SyNEq ==> op == NEq
    ensures s == SyLss ==> op == Lss
    ensures s == SyGtr ==> op == Gtr
    ensures s == SyLEq ==> op == LEq
    ensures s == SyGEq ==> op == GEq
  {
    ghost var a, b := Flt(false, x), Flt(false, y);
    ghost var want := Binary(false, OpOfSym(s), a, b);
    PrintFlt(x);
    PrintFlt(y);
    PrintBinary(OpOfSym(s), a, b);
    SymTables(s);
    TwoAre(s, x, y);
    Higher(want, LevelOf(s), EXP);
    var tokens := [FltTok(x), SymTok(s), FltTok(y)];
    assert tokens == Print(want);
    ReadsWhole(tokens);
    var exp, next;
    ok, exp, next := LoadTxt(tokens, {SyEof}, want, true);
    op := exp.op;
  }

  /** How two operators between three numbers are grouped: products before sums before relations, and
    * within products and sums from left to right.
    */
  ghost predicate LeftFirst(s1: Sym, s2: Sym) {
    || s1 in {SyAsterisk, SySlash, SyPercent, SyHash, SyAmpersand}
    || (s1 in {SyPlus, SyMinus, SyVBar} && s2 !in {SyAsterisk, SySlash, SyPercent, SyHash, SyAmpersand})
  }

  method ParseGroups(x: real, s1: Sym, y: real, s2: Sym, z: real) returns (ok: bool, exp: Exp)
    requires s1 in MUL_OPS + ADD_OPS + REL_OPS && s2 in MUL_OPS + ADD_OPS + REL_OPS
    requires s1 in REL_OPS ==> s2 !in REL_OPS
    ensures ok && exp.Binary? && !exp.paren
    ensures LeftFirst(s1, s2) ==> exp.left.Binary? && exp.right == Flt(false, z)
    ensures LeftFirst(s1, s2) ==> exp.left == Binary(false, exp.left.op, Flt(false, x), Flt(false, y))
    ensures LeftFirst(s1, s2) ==> Stands(exp.left.op, s1) && Stands(exp.op, s2)
    ensures !LeftFirst(s1, s2) ==> exp.right.Binary? && exp.left == Flt(false, x)
    ensures !LeftFirst(s1, s2) ==> exp.right == Binary(false, exp.right.op, Flt(false, y), Flt(false, z))
    ensures !LeftFirst(s1, s2) ==> Stands(exp.op, s1) && Stands(exp.right.op, s2)
  {
    ghost var a, b, c, op1, op2 := Flt(false, x), Flt(false, y), Flt(false, z), OpOfSym(s1), OpOfSym(s2);
    ghost var want := if LeftFirst(s1, s2) then Binary(false, op2, Binary(false, op1, a, b), c) else Binary(false, op1, a, Binary(false, op2, b, c));
    var tokens := [FltTok(x), SymTok(s1), FltTok(y), SymTok(s2), FltTok(z)];
    SymStands(s1);
    SymStands(s2);
    ThreeRead(tokens, x, s1, y, s2, z, want);
    var next;
    ok, exp, next := LoadTxt(tokens, {SyEof}, want, true);
  }

  lemma ThreeRead(tokens: seq<Token>, x: real, s1: Sym, y: real, s2: Sym, z: real, want: Exp)
    requires s1 in MUL_OPS + ADD_OPS + REL_OPS && s2 in MUL_OPS + ADD_OPS + REL_OPS && (s1 in REL_OPS ==> s2 !in REL_OPS)
    requires tokens == [FltTok(x), SymTok(s1), FltTok(y), SymTok(s2), FltTok(z)]
    requires var a, b, c, op1, op2 := Flt(false, x), Flt(false, y), Flt(false, z), OpOfSym(s1), OpOfSym(s2);
             want == if LeftFirst(s1, s2) then Binary(false, op2, Binary(false, op1, a, b), c) else Binary(false, op1, a, Binary(false, op2, b, c))
    ensures Is(want, EXP) && Reads(tokens, 0, Print(want)) && |Print(want)| == 5
  {
    var a, b, c, op1, op2 := Flt(false, x), Flt(false, y), Flt(false, z), OpOfSym(s1), OpOfSym(s2);
    PrintFlt(x);
    PrintFlt(y);
    PrintFlt(z);
    PrintBinary(op1, a, b);
    PrintBinary(op2, b, c);
    PrintBinary(op2, Binary(false, op1, a, b), c);
    PrintBinary(op1, a, Binary(false, op2, b, c));
    SymTables(s1);
    SymTables(s2);
    assert Print(want) == tokens;
    ReadsWhole(tokens);
    ThreeAre(s1, s2, x, y, z);
  }

  lemma NumberIs(x: real, level: nat)
    ensures Is(Flt(false, x), level)
  {
  }

  lemma TwoAre(s: Sym, x: real, y: real)
    requires s in MUL_OPS + ADD_OPS + REL_OPS
    ensures Is(Binary(false, OpOfSym(s), Flt(false, x), Flt(false, y)), LevelOf(s))
  {
    NumberIs(x, if LevelOf(s) == REL then ADD else LevelOf(s));
    NumberIs(y, LevelOf(s) - 1);
    OperationIs(s, Flt(false, x), Flt(false, y));
  }

  lemma ThreeAre(s1: Sym, s2: Sym, x: real, y: real, z: real)
    requires s1 in MUL_OPS + ADD_OPS + REL_OPS && s2 in MUL_OPS + ADD_OPS + REL_OPS && (s1 in REL_OPS ==> s2 !in REL_OPS)
    ensures var a, b, c, op1, op2 := Flt(false, x), Flt(false, y), Flt(false, z), OpOfSym(s1), OpOfSym(s2);
            Is(if LeftFirst(s1, s2) then Binary(false, op2, Binary(false, op1, a, b), c) else Binary(false, op1, a, Binary(false, op2, b, c)), EXP)
  {
    var l1, l2 := LevelOf(s1), LevelOf(s2);
    if LeftFirst(s1, s2) {
      var left := Binary(false, OpOfSym(s1), Flt(false, x), Flt(false, y));
      TwoAre(s1, x, y);
      NumberIs(z, l2 - 1);
      Higher(left, l1, if l2 == REL then ADD else l2);
      OperationIs(s2, left, Flt(false, z));
      Higher(Binary(false, OpOfSym(s2), left, Flt(false, z)), l2, EXP);
    } else {
      var right := Binary(false, OpOfSym(s2), Flt(false, y), Flt(false, z));
      TwoAre(s2, y, z);
      NumberIs(x, if l1 == REL then ADD else l1);
      Higher(right, l2, l1 - 1);
      OperationIs(s1, Flt(false, x), right);
      Higher(Binary(false, OpOfSym(s1), Flt(false, x), right), l1, EXP);
    }
  }

  lemma ReadsWhole(s: seq<Token>)
    ensures Reads(s, 0, s)
  {
    assert s[0..][..|s|] == s;
  }
}
