/** A printer for syntax trees that writes parentheses only where the grammar needs them,
    and the theorem that the parser reads every printed tree back as the same tree. The
    theorem pins down the shape of what the parser builds: additive operators bind more
    loosely than multiplicative ones, operators of one level fold to the left, and "//"
    is one integer-division operator. */
module Printer {
  import opened Results
  import opened Lexeme
  import opened Ast
  import opened Grammar

  /** The binding level of an operator: 0 for `expr` operators, 1 for `term` operators. */
  function Prec(op: Op): nat
  {
    if op == Add || op == Sub then 0 else 1
  }

  function OpText(op: Op): string
  {
    match op
    case Add => "+"
    case Sub => "-"
    case Mul => "*"
    case Div => "/"
    case DivInt => "//"
    case Mod => "%"
  }

  /** A name the parser reads back as a variable: a non-empty run of token characters that
      are not all digit characters. */
  predicate IsName(x: string)
  {
    |x| > 0 && (forall k | 0 <= k < |x| :: IsNumber(x[k])) && !AllDigits(x)
  }

  /** Every name of `t` is a name token and every literal of `t` has a numeral, written by
      `show`, that converts back to it. */
  ghost predicate Printable<Num>(t: Node<Num>, show: Num -> string, toNum: Converter<Num>)
  {
    match t
    case BinOp(_, a, b) => Printable(a, show, toNum) && Printable(b, show, toNum)
    case Lit(v) => |show(v)| > 0 && AllDigits(show(v)) && toNum(show(v)) == Some(v)
    case Var(x) => IsName(x)
  }

  /** Writes `t` where the grammar expects an `expr` (level 0), a `term` (level 1) or a
      `factor` (level 2). The left operand is written at its operator's own level and the
      right one at the next level, so only a right operand of the same level is
      parenthesised. */
  function Print<Num>(t: Node<Num>, level: nat, show: Num -> string): string
  {
    match t
    case Lit(v) => show(v)
    case Var(x) => x
    case BinOp(op, a, b) =>
      var body := Print(a, Prec(op), show) + OpText(op) + Print(b, Prec(op) + 1, show);
      if Prec(op) < level then "(" + body + ")" else body
  }

  /** A printed tree starts with '(' or with a token character. */
  lemma {:induction false} PrintStart<Num>(t: Node<Num>, level: nat, show: Num -> string, toNum: Converter<Num>)
    requires Printable(t, show, toNum)
    ensures |Print(t, level, show)| > 0
    ensures Print(t, level, show)[0] == '(' || IsNumber(Print(t, level, show)[0])
  {
    match t
    case BinOp(op, a, _) =>
      if Prec(op) >= level {
        PrintStart(a, Prec(op), show, toNum);
      }
    case Lit(v) =>
      assert IsDigit(show(v)[0]);
    case Var(_) =>
  }

  /** The text `p` stands in the input at position `i`. */
  predicate At(s: string, i: nat, p: string)
  {
    i + |p| <= |s| && forall k | 0 <= k < |p| :: s[i + k] == p[k]
  }

  /** The pieces of a concatenation stand one after the other. */
  lemma AtSplit(s: string, i: nat, x: string, y: string)
    requires At(s, i, x + y)
    ensures At(s, i, x) && At(s, i + |x|, y)
  {
    forall k | 0 <= k < |x|
      ensures s[i + k] == x[k]
    {
      assert x[k] == (x + y)[k];
    }
    forall k | 0 <= k < |y|
      ensures s[i + |x| + k] == y[k]
    {
      assert y[k] == (x + y)[|x| + k];
    }
  }

  /** The maximal run that starts at `i` ends at the first position that is not a token
      character. */
  lemma {:induction false} RunEndAt(s: string, i: nat, j: nat)
    requires i <= j <= |s|
    requires forall k | i <= k < j :: IsNumber(s[k])
    requires j == |s| || !IsNumber(s[j])
    ensures RunEnd(s, i) == j
    decreases j - i
  {
    if i < j {
      RunEndAt(s, i + 1, j);
    }
  }

  /** How the input splits around a multiplicative node read from `i` to `k`: its left
      operand is a printed term ending at `ka`, where the operator text starts, and its
      right operand a printed factor from `j` to `k`. */
  ghost predicate TermSplit<Num>(s: string, i: nat, t: Node<Num>, show: Num -> string, toNum: Converter<Num>,
                                 ka: nat, j: nat, k: nat)
  {
    && t.BinOp? && i <= ka < j <= k <= |s| && IsTermOp(s[ka]) && MulOperatorAt(s, ka) == Ok(MulStep(t.op, j))
    && PrintedAt(s, i, ka, t.left, 1, show, toNum) && PrintedAt(s, j, k, t.right, 2, show, toNum)
  }

  /** Where a printed multiplicative node sits in the input; the character after a '/'
      tells division from integer division. */
  lemma TermLayout<Num>(s: string, i: nat, t: Node<Num>, show: Num -> string, toNum: Converter<Num>,
                        ka: nat, j: nat, k: nat)
    requires t.BinOp? && Prec(t.op) == 1 && PrintedAt(s, i, k, t, 1, show, toNum)
    requires ka == i + |Print(t.left, 1, show)| && j == ka + |OpText(t.op)|
    ensures TermSplit(s, i, t, show, toNum, ka, j, k)
  {
    var BinOp(op, a, b) := t;
    var pa, pb := Print(a, 1, show), Print(b, 2, show);
    assert Print(t, 1, show) == pa + OpText(op) + pb;
    PrintStart(b, 2, show, toNum);
    AtSplit(s, i, pa + OpText(op), pb);
    AtSplit(s, i, pa, OpText(op));
    assert s[ka + 0] == OpText(op)[0];
    assert s[j + 0] == pb[0];
    if op == DivInt {
      assert s[ka + 1] == OpText(op)[1];
    }
  }

  /** How the input splits around an additive node read from `i` to `k`: its left operand
      is a printed expression ending at the operator `ka`, its right operand a printed
      term from `ka + 1` to `k`. */
  ghost predicate ExprSplit<Num>(s: string, i: nat, t: Node<Num>, show: Num -> string, toNum: Converter<Num>,
                                 ka: nat, k: nat)
  {
    && t.BinOp? && i <= ka < k <= |s| && IsExprOp(s[ka]) && t.op == AddOperator(s[ka])
    && (k == |s| || !IsTermOp(s[k]))
    && PrintedAt(s, i, ka, t.left, 0, show, toNum) && PrintedAt(s, ka + 1, k, t.right, 1, show, toNum)
  }

  /** Where a printed additive node sits in the input. */
  lemma ExprLayout<Num>(s: string, i: nat, t: Node<Num>, show: Num -> string, toNum: Converter<Num>, ka: nat, k: nat)
    requires t.BinOp? && Prec(t.op) == 0 && PrintedAt(s, i, k, t, 0, show, toNum)
    requires ka == i + |Print(t.left, 0, show)|
    ensures ExprSplit(s, i, t, show, toNum, ka, k)
  {
    var BinOp(op, a, b) := t;
    var pa, pb := Print(a, 0, show), Print(b, 1, show);
    assert Print(t, 0, show) == pa + OpText(op) + pb;
    PrintStart(b, 1, show, toNum);
    AtSplit(s, i, pa + OpText(op), pb);
    AtSplit(s, i, pa, OpText(op));
    assert s[ka + 0] == OpText(op)[0];
    assert s[ka + 1 + 0] == pb[0];
  }

  /** The descent order of the three mutually recursive lemmas below on one tree. */
  function Rank<Num>(t: Node<Num>, level: nat): nat
  {
    if !t.BinOp? then (if level <= 2 then 2 - level else 0)
    else if Prec(t.op) == 0 then (if level == 0 then 0 else if level == 1 then 2 else 1)
    else (if level == 0 then 1 else if level == 1 then 0 else 2)
  }

  /** What may follow a printed factor or term: anything that does not extend a token. */
  predicate FactorFollow(s: string, k: nat)
  {
    k == |s| || (k < |s| && !IsNumber(s[k]))
  }

  /** What may follow a printed expression: also no multiplicative operator. */
  predicate ExprFollow(s: string, k: nat)
  {
    k == |s| || (k < |s| && !IsNumber(s[k]) && !IsTermOp(s[k]))
  }

  /** The tree `t`, printed at `level`, stands in the input from `i` to `k`, and what
      follows it cannot continue it at that level. */
  ghost predicate PrintedAt<Num>(s: string, i: nat, k: nat, t: Node<Num>, level: nat, show: Num -> string, toNum: Converter<Num>)
  {
    && Printable(t, show, toNum) && k == i + |Print(t, level, show)| && At(s, i, Print(t, level, show))
    && (if level == 0 then ExprFollow(s, k) else FactorFollow(s, k))
  }

  /** A tree that is not an operator node of `level` prints the same one level further
      down. */
  lemma PrintedLower<Num>(s: string, i: nat, k: nat, t: Node<Num>, level: nat, show: Num -> string, toNum: Converter<Num>)
    requires level < 2 && PrintedAt(s, i, k, t, level, show, toNum)
    requires !(t.BinOp? && Prec(t.op) == level)
    ensures PrintedAt(s, i, k, t, level + 1, show, toNum)
  {
    assert Print(t, level, show) == Print(t, level + 1, show);
  }

  /** A printed name or numeral is read back by `number`. */
  lemma LeafPrinted<Num>(s: string, i: nat, t: Node<Num>, vars: set<string>, show: Num -> string, toNum: Converter<Num>)
    requires !t.BinOp? && Printable(t, show, toNum)
    requires At(s, i, Print(t, 2, show))
    requires FactorFollow(s, i + |Print(t, 2, show)|)
    ensures ParseFactor(s, i, vars, toNum) == Ok(Parsed(t, i + |Print(t, 2, show)|, vars + Vars(t)))
  {
    var p := Print(t, 2, show);
    var k := i + |p|;
    forall m | i <= m < k
      ensures IsNumber(s[m])
    {
      assert s[i + (m - i)] == p[m - i];
      if t.Lit? {
        assert IsDigit(p[m - i]);
      }
    }
    RunEndAt(s, i, k);
    assert s[i + 0] == p[0];
    assert s[i..k] == p;
    assert ParseFactor(s, i, vars, toNum) == ParseNumber(s, i, vars, toNum);
  }

  /** A parenthesised node read from `i` to `k`: '(' at `i`, the node printed as an
      expression from `i + 1`, and ')' at `k - 1`. */
  ghost predicate ParenSplit<Num>(s: string, i: nat, t: Node<Num>, show: Num -> string, toNum: Converter<Num>, k: nat)
  {
    && t.BinOp? && i + 2 <= k <= |s| && s[i] == '(' && s[k - 1] == ')'
    && PrintedAt(s, i + 1, k - 1, t, 0, show, toNum)
  }

  /** Where a printed parenthesised node sits in the input. */
  lemma ParenLayout<Num>(s: string, i: nat, t: Node<Num>, show: Num -> string, toNum: Converter<Num>, k: nat)
    requires t.BinOp? && PrintedAt(s, i, k, t, 2, show, toNum)
    ensures ParenSplit(s, i, t, show, toNum, k)
  {
    var body := Print(t, 0, show);
    assert Print(t, 2, show) == "(" + (body + ")");
    AtSplit(s, i, "(", body + ")");
    AtSplit(s, i + 1, body, ")");
    assert s[i + 0] == "("[0];
    assert s[k - 1 + 0] == ")"[0];
  }

  lemma {:induction false} FactorPrinted<Num>(s: string, i: nat, k: nat, t: Node<Num>, vars: set<string>, show: Num -> string, toNum: Converter<Num>)
    requires PrintedAt(s, i, k, t, 2, show, toNum)
    ensures ParseFactor(s, i, vars, toNum) == Ok(Parsed(t, k, vars + Vars(t)))
    decreases t, Rank(t, 2), 1
  {
    if t.BinOp? {
      ParenLayout(s, i, t, show, toNum, k);
      ParenPrinted(s, i, k, t, vars, show, toNum);
    } else {
      LeafPrinted(s, i, t, vars, show, toNum);
    }
  }

  /** The parenthesised case of `FactorPrinted`. */
  lemma {:induction false} ParenPrinted<Num>(s: string, i: nat, k: nat, t: Node<Num>, vars: set<string>, show: Num -> string, toNum: Converter<Num>)
    requires ParenSplit(s, i, t, show, toNum, k)
    ensures ParseFactor(s, i, vars, toNum) == Ok(Parsed(t, k, vars + Vars(t)))
    decreases t, Rank(t, 2), 0
  {
    ExprPrinted(s, i + 1, k - 1, t, vars, show, toNum);
    ExprTailStop(s, k - 1, vars + Vars(t), t, toNum);
    FactorParen(s, i, vars, toNum, Parsed(t, k - 1, vars + Vars(t)));
  }

  lemma {:induction false} TermPrinted<Num>(s: string, i: nat, k: nat, t: Node<Num>, vars: set<string>, show: Num -> string, toNum: Converter<Num>)
    requires PrintedAt(s, i, k, t, 1, show, toNum)
    ensures ParseTerm(s, i, vars, toNum) == TermTail(s, k, vars + Vars(t), t, toNum)
    decreases t, Rank(t, 1), 1
  {
    if t.BinOp? && Prec(t.op) == 1 {
      var ka := i + |Print(t.left, 1, show)|;
      TermLayout(s, i, t, show, toNum, ka, ka + |OpText(t.op)|, k);
      TermBinPrinted(s, i, t, vars, show, toNum, ka, ka + |OpText(t.op)|, k);
    } else {
      PrintedLower(s, i, k, t, 1, show, toNum);
      FactorPrinted(s, i, k, t, vars, show, toNum);
      TermUnfold(s, i, vars, toNum, Parsed(t, k, vars + Vars(t)));
    }
  }

  /** The multiplicative case of `TermPrinted`, from where the operands and the operator
      stand. */
  lemma {:induction false} TermBinPrinted<Num>(s: string, i: nat, t: Node<Num>, vars: set<string>, show: Num -> string, toNum: Converter<Num>,
                                               ka: nat, j: nat, k: nat)
    requires TermSplit(s, i, t, show, toNum, ka, j, k)
    ensures ParseTerm(s, i, vars, toNum) == TermTail(s, k, vars + Vars(t), t, toNum)
    decreases t, Rank(t, 1), 0
  {
    TermPrinted(s, i, ka, t.left, vars, show, toNum);
    FactorPrinted(s, j, k, t.right, vars + Vars(t.left), show, toNum);
    TermStep(s, i, vars, t, toNum, ka, j, k);
  }

  /** The multiplicative case of `TermPrinted`, once both operands are read back. */
  lemma TermStep<Num>(s: string, i: nat, vars: set<string>, t: Node<Num>, toNum: Converter<Num>, ka: nat, j: nat, k: nat)
    requires t.BinOp? && i <= ka < j <= k <= |s| && IsTermOp(s[ka]) && MulOperatorAt(s, ka) == Ok(MulStep(t.op, j))
    requires ParseTerm(s, i, vars, toNum) == TermTail(s, ka, vars + Vars(t.left), t.left, toNum)
    requires ParseFactor(s, j, vars + Vars(t.left), toNum) == Ok(Parsed(t.right, k, vars + Vars(t.left) + Vars(t.right)))
    ensures ParseTerm(s, i, vars, toNum) == TermTail(s, k, vars + Vars(t), t, toNum)
  {
    TermTailStep(s, ka, vars + Vars(t.left), t.left, toNum);
    assert vars + Vars(t.left) + Vars(t.right) == vars + Vars(t);
  }

  lemma {:induction false} ExprPrinted<Num>(s: string, i: nat, k: nat, t: Node<Num>, vars: set<string>, show: Num -> string, toNum: Converter<Num>)
    requires PrintedAt(s, i, k, t, 0, show, toNum)
    ensures ParseExpr(s, i, vars, toNum) == ExprTail(s, k, vars + Vars(t), t, toNum)
    decreases t, Rank(t, 0), 2
  {
    if t.BinOp? && Prec(t.op) == 0 {
      var ka := i + |Print(t.left, 0, show)|;
      ExprLayout(s, i, t, show, toNum, ka, k);
      ExprBinPrinted(s, i, t, vars, show, toNum, ka, k);
    } else {
      PrintedLower(s, i, k, t, 0, show, toNum);
      TermPrinted(s, i, k, t, vars, show, toNum);
      TermTailStop(s, k, vars + Vars(t), t, toNum);
      ExprUnfold(s, i, vars, toNum, Parsed(t, k, vars + Vars(t)));
    }
  }

  /** The additive case of `ExprPrinted`, from where the operands and the operator stand. */
  lemma {:induction false} ExprBinPrinted<Num>(s: string, i: nat, t: Node<Num>, vars: set<string>, show: Num -> string, toNum: Converter<Num>,
                                               ka: nat, k: nat)
    requires ExprSplit(s, i, t, show, toNum, ka, k)
    ensures ParseExpr(s, i, vars, toNum) == ExprTail(s, k, vars + Vars(t), t, toNum)
    decreases t, Rank(t, 0), 1
  {
    ExprPrinted(s, i, ka, t.left, vars, show, toNum);
    ExprBinRight(s, i, t, vars, show, toNum, ka, k);
  }

  /** The additive case of `ExprPrinted`, once the left operand is read back. */
  lemma {:induction false} ExprBinRight<Num>(s: string, i: nat, t: Node<Num>, vars: set<string>, show: Num -> string, toNum: Converter<Num>,
                                             ka: nat, k: nat)
    requires ExprSplit(s, i, t, show, toNum, ka, k)
    requires ParseExpr(s, i, vars, toNum) == ExprTail(s, ka, vars + Vars(t.left), t.left, toNum)
    ensures ParseExpr(s, i, vars, toNum) == ExprTail(s, k, vars + Vars(t), t, toNum)
    decreases t, Rank(t, 0), 0
  {
    TermPrinted(s, ka + 1, k, t.right, vars + Vars(t.left), show, toNum);
    ExprStep(s, i, vars, t, toNum, ka, k);
  }

  /** The additive case of `ExprPrinted`, once both operands are read back. */
  lemma ExprStep<Num>(s: string, i: nat, vars: set<string>, t: Node<Num>, toNum: Converter<Num>, ka: nat, k: nat)
    requires t.BinOp? && i <= ka < k <= |s| && IsExprOp(s[ka])
    requires t.op == AddOperator(s[ka])
    requires k == |s| || !IsTermOp(s[k])
    requires ParseExpr(s, i, vars, toNum) == ExprTail(s, ka, vars + Vars(t.left), t.left, toNum)
    requires ParseTerm(s, ka + 1, vars + Vars(t.left), toNum)
          == TermTail(s, k, vars + Vars(t.left) + Vars(t.right), t.right, toNum)
    ensures ParseExpr(s, i, vars, toNum) == ExprTail(s, k, vars + Vars(t), t, toNum)
  {
    TermTailStop(s, k, vars + Vars(t.left) + Vars(t.right), t.right, toNum);
    ExprTailStep(s, ka, vars + Vars(t.left), t.left, toNum, Parsed(t.right, k, vars + Vars(t.left) + Vars(t.right)));
    assert vars + Vars(t.left) + Vars(t.right) == vars + Vars(t);
  }

  /** Parsing a printed tree gives back that tree and collects exactly its variables; it
      stops where the printed text ends when what follows is neither a token character nor
      an operator, and leaves that rest of the input unread. */
  lemma ParsePrintedThen<Num>(t: Node<Num>, rest: string, show: Num -> string, toNum: Converter<Num>)
    requires Printable(t, show, toNum)
    requires rest == [] || (!IsNumber(rest[0]) && !IsTermOp(rest[0]) && !IsExprOp(rest[0]))
    ensures ParseExpr(Print(t, 0, show) + rest, 0, {}, toNum)
         == Ok(Parsed(t, |Print(t, 0, show)|, Vars(t)))
  {
    var p := Print(t, 0, show);
    var s := p + rest;
    assert At(s, 0, p) by {
      forall k | 0 <= k < |p|
        ensures s[0 + k] == p[k]
      {
      }
    }
    assert |s| == |p| || s[|p|] == rest[0];
    ExprPrinted(s, 0, |p|, t, {}, show, toNum);
    ExprTailStop(s, |p|, {} + Vars(t), t, toNum);
    assert {} + Vars(t) == Vars(t);
  }

  /** Parsing a printed tree gives back that tree, consumes the whole text, and collects
      exactly the tree's variables. */
  lemma ParsePrintRoundTrip<Num>(t: Node<Num>, show: Num -> string, toNum: Converter<Num>)
    requires Printable(t, show, toNum)
    ensures ParseExpr(Print(t, 0, show), 0, {}, toNum)
         == Ok(Parsed(t, |Print(t, 0, show)|, Vars(t)))
  {
    ParsePrintedThen(t, [], show, toNum);
    assert Print(t, 0, show) + [] == Print(t, 0, show);
  }
}
