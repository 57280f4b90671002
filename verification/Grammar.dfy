/** Expressions as tokens: what it means that tokens are a way to write an expression. */
module Grammar {
  import opened Hiding

  // ---------- tokens ----------

  datatype Sym =
    | SyFlt | SyIdStr | SyQStr | SyLParen | SyRParen | SyComma | SyQuestion | SyColon | SySemicolon | SyEof
    | SyPlus | SyMinus | SyAsterisk | SySlash | SyPercent | SyHash | SyAmpersand | SyVBar | SyExclamation
    | SyEq | SyNEq | SyLss | SyGtr | SyLEq | SyGEq

  datatype Token = FltTok(flt: real) | IdTok(name: string) | StrTok(text: string) | SymTok(sym: Sym)

  function SymOf(t: Token): Sym {
    match t
    case FltTok(_) => SyFlt
    case IdTok(_) => SyIdStr
    case StrTok(_) => SyQStr
    case SymTok(sym) => sym
  }

  /** The symbol at p; behind the last token there is the end of the file. */
  function SymAt(ts: seq<Token>, p: nat): Sym {
    if p < |ts| then SymOf(ts[p]) else SyEof
  }

  // ---------- expressions ----------

  datatype Op =
    | UPlus | UMinus | Not | Plus | Minus | Mul | Div | IDiv | Mod | And | Or
    | Eq | NEq | Lss | Gtr | LEq | GEq | If

  /** `paren` tells whether the expression is written in parentheses. */
  datatype Exp =
    | Flt(paren: bool, flt: real)
    | Str(paren: bool, text: string)
    | Name(paren: bool, name: string)
    | Call(paren: bool, name: string, args: seq<Exp>)
    | Unary(paren: bool, op: Op, arg: Exp)
    | Binary(paren: bool, op: Op, left: Exp, right: Exp)
    | Cond(paren: bool, test: Exp, thenExp: Exp, elseExp: Exp)

  // ---------- written expressions ----------

  /** The symbol written between the operands of a binary operator. */
  predicate Stands(op: Op, s: Sym) {
    match s
    case SyAsterisk => op == Mul
    case SySlash => op == Div
    case SyPercent => op == Mod
    case SyHash => op == IDiv
    case SyAmpersand => op == And
    case SyPlus => op == Plus
    case SyMinus => op == Minus
    case SyVBar => op == Or
    case SyEq => op == Eq
    case SyNEq => op == NEq
    case SyLss => op == Lss
    case SyGtr => op == Gtr
    case SyLEq => op == LEq
    case SyGEq => op == GEq
    case _ => false
  }

  /** The symbol s is at p. */
  predicate Has(ts: seq<Token>, p: nat, s: Sym) {
    p < |ts| && ts[p] == SymTok(s)
  }

  ghost predicate Parens(ts: seq<Token>, p: nat, q: int, i: nat) {
    i < q && Has(ts, p + i, SyLParen) && Has(ts, q - 1 - i, SyRParen)
  }

  /** There are n parentheses around what is inside p and q. */
  ghost predicate Enclosed(ts: seq<Token>, p: nat, q: nat, n: nat) {
    n >= 1 && p + n < q - n && forall i: nat | i < n :: Parens(ts, p, q, i)
  }

  ghost predicate SpelledAs(ts: seq<Token>, p: nat, q: nat, e: Exp, piece: Piece)
    decreases e, 2
  {
    match piece
    case Whole =>
      if e.paren then exists n: nat :: Enclosed(ts, p, q, n) && SpellsBare(ts, p + n, q - n, e) else SpellsBare(ts, p, q, e)
  }

  /** The tokens from p up to q are a way to write e; one pair of parentheses is as good as many. Behind a
    * quantifier, so that proofs have it only where they ask for it.
    */
  ghost predicate Spells(ts: seq<Token>, p: nat, q: nat, e: Exp)
    decreases e, 3
  {
    p < q <= |ts| && forall piece: Piece :: SpelledAs(ts, p, q, e, piece)
  }

  /** The same without the parentheses around e. */
  ghost predicate SpellsBare(ts: seq<Token>, p: nat, q: nat, e: Exp)
    decreases e, 1
  {
    p < q <= |ts| &&
    match e
    case Flt(_, x) => q == p + 1 && ts[p] == FltTok(x)
    case Str(_, s) => q == p + 1 && ts[p] == StrTok(s)
    case Name(_, n) => q == p + 1 && ts[p] == IdTok(n)
    case Call(_, n, args) =>
      p + 3 <= q && ts[p] == IdTok(n) && Has(ts, p + 1, SyLParen) && SpellsArgs(ts, p + 2, q - 1, args) && Has(ts, q - 1, SyRParen)
    case Unary(_, op, a) =>
      ((op == UPlus && Has(ts, p, SyPlus)) || (op == UMinus && Has(ts, p, SyMinus))) && Spells(ts, p + 1, q, a)
    case Binary(_, op, a, b) =>
      exists m: nat :: m < q && Spells(ts, p, m, a) && ts[m].SymTok? && Stands(op, ts[m].sym) && Spells(ts, m + 1, q, b)
    case Cond(_, c, a, b) =>
      exists m: nat, n: nat ::
        Spells(ts, p, m, c) && Has(ts, m, SyQuestion) && Spells(ts, m + 1, n, a) && Has(ts, n, SyColon) && Spells(ts, n + 1, q, b)
  }

  ghost predicate ArgsSpelledAs(ts: seq<Token>, p: nat, q: nat, args: seq<Exp>, piece: Piece)
    decreases args, 5
  {
    match piece
    case Whole =>
      if args == [] then p == q
      else
        var n := |args| - 1;
        if n == 0 then Spells(ts, p, q, args[0])
        else exists m: nat :: SpellsArgs(ts, p, m, args[..n]) && Has(ts, m, SyComma) && Spells(ts, m + 1, q, args[n])
  }

  /** The arguments of a call, with a comma between any two. */
  ghost predicate SpellsArgs(ts: seq<Token>, p: nat, q: nat, args: seq<Exp>)
    decreases args, 6
  {
    forall piece: Piece :: ArgsSpelledAs(ts, p, q, args, piece)
  }

  lemma ArgsSpellIs(ts: seq<Token>, p: nat, q: nat, args: seq<Exp>)
    ensures SpellsArgs(ts, p, q, args) <==> ArgsSpelledAs(ts, p, q, args, Whole)
  {
    if ArgsSpelledAs(ts, p, q, args, Whole) {
      forall piece: Piece ensures ArgsSpelledAs(ts, p, q, args, piece) {
        match piece case Whole =>
      }
    }
  }

  lemma NoArgs(ts: seq<Token>, p: nat)
    ensures SpellsArgs(ts, p, p, [])
  {
    ArgsSpellIs(ts, p, p, []);
  }

  lemma SpellsIs(ts: seq<Token>, p: nat, q: nat, e: Exp)
    requires p < q <= |ts|
    ensures Spells(ts, p, q, e) <==> SpelledAs(ts, p, q, e, Whole)
  {
    if SpelledAs(ts, p, q, e, Whole) {
      forall piece: Piece ensures SpelledAs(ts, p, q, e, piece) {
        match piece case Whole =>
      }
    }
  }

  lemma BareSpells(ts: seq<Token>, p: nat, q: nat, e: Exp)
    requires !e.paren && SpellsBare(ts, p, q, e)
    ensures Spells(ts, p, q, e)
  {
    SpellsIs(ts, p, q, e);
  }

  lemma OneTokenSpells(ts: seq<Token>, p: nat, e: Exp)
    requires p < |ts| && !e.paren
    requires match e case Flt(_, x) => ts[p] == FltTok(x) case Str(_, s) => ts[p] == StrTok(s) case Name(_, n) => ts[p] == IdTok(n) case _ => false
    ensures Spells(ts, p, p + 1, e)
  {
    BareSpells(ts, p, p + 1, e);
  }

  lemma ParensSpell(ts: seq<Token>, p: nat, q: nat, e: Exp)
    requires Spells(ts, p + 1, q, e) && Has(ts, p, SyLParen) && Has(ts, q, SyRParen)
    ensures Spells(ts, p, q + 1, e.(paren := true))
  {
    SpellsIs(ts, p + 1, q, e);
    SpellsIs(ts, p, q + 1, e.(paren := true));
    var n: nat := 0;
    if e.paren {
      n :| Enclosed(ts, p + 1, q, n) && SpellsBare(ts, p + 1 + n, q - n, e);
    }
    SameBare(ts, p + 1 + n, q - n, e);
    MoreParens(ts, p, q, q + 1, n);
  }

  lemma MoreParens(ts: seq<Token>, p: nat, q: nat, end: nat, n: nat)
    requires end == q + 1 && p + 1 < q && Has(ts, p, SyLParen) && Has(ts, q, SyRParen) && (n > 0 ==> Enclosed(ts, p + 1, q, n))
    ensures Enclosed(ts, p, end, n + 1)
  {
    forall i: nat | i < n + 1 ensures Parens(ts, p, end, i) {
      if i > 0 { assert Parens(ts, p + 1, q, i - 1); }
    }
  }

  lemma SameBare(ts: seq<Token>, p: nat, q: nat, e: Exp)
    requires SpellsBare(ts, p, q, e)
    ensures SpellsBare(ts, p, q, e.(paren := true))
  {
  }

  lemma UnarySpells(ts: seq<Token>, p: nat, q: nat, op: Op, a: Exp)
    requires (op == UPlus && Has(ts, p, SyPlus)) || (op == UMinus && Has(ts, p, SyMinus))
    requires Spells(ts, p + 1, q, a)
    ensures Spells(ts, p, q, Unary(false, op, a))
  {
    BareSpells(ts, p, q, Unary(false, op, a));
  }

  lemma BinarySpells(ts: seq<Token>, p: nat, m: nat, q: nat, op: Op, a: Exp, b: Exp)
    requires Spells(ts, p, m, a) && m < |ts| && ts[m].SymTok? && Stands(op, ts[m].sym) && Spells(ts, m + 1, q, b)
    ensures Spells(ts, p, q, Binary(false, op, a, b))
  {
    BareSpells(ts, p, q, Binary(false, op, a, b));
  }

  lemma CondSpells(ts: seq<Token>, p: nat, m: nat, n: nat, q: nat, c: Exp, a: Exp, b: Exp)
    requires Spells(ts, p, m, c) && Has(ts, m, SyQuestion) && Spells(ts, m + 1, n, a) && Has(ts, n, SyColon) && Spells(ts, n + 1, q, b)
    ensures Spells(ts, p, q, Cond(false, c, a, b))
  {
    BareSpells(ts, p, q, Cond(false, c, a, b));
  }

  lemma CallSpells(ts: seq<Token>, p: nat, q: nat, n: string, args: seq<Exp>)
    requires p + 2 <= q < |ts| && ts[p] == IdTok(n) && Has(ts, p + 1, SyLParen) && SpellsArgs(ts, p + 2, q, args) && Has(ts, q, SyRParen)
    ensures Spells(ts, p, q + 1, Call(false, n, args))
  {
    BareSpells(ts, p, q + 1, Call(false, n, args));
  }

  /** One more argument, after a comma if it is not the first. */
  lemma OneMoreArg(ts: seq<Token>, p: nat, m: nat, q: nat, args: seq<Exp>, arg: Exp)
    requires SpellsArgs(ts, p, m, args)
    requires if args == [] then Spells(ts, m, q, arg) else Has(ts, m, SyComma) && Spells(ts, m + 1, q, arg)
    ensures SpellsArgs(ts, p, q, args + [arg])
  {
    assert (args + [arg])[..|args|] == args;
    ArgsSpellIs(ts, p, q, args + [arg]);
    if args == [] { ArgsSpellIs(ts, p, m, args); }
  }
}
