/** The recursive-descent grammar of parse.hpp as pure functions over the input string and
    a cursor position. Each function returns the tree, the new cursor and the new variable
    set (the by-reference `int& i` and `std::set& valList` of the source), or the error the
    source throws. The `while` loops of `expr` and `term` are the tail functions
    `ExprTail` and `TermTail`, which receive the tree folded so far.

      expr   ::= term (('+' | '-') term)*
      term   ::= factor (('*' | '/' | '//' | '%') factor)*
      factor ::= number | '(' expr ')'
      number ::= a maximal run of token characters */
module Grammar {
  import opened Results
  import opened Lexeme
  import opened Ast

  /** The exceptions the parser can throw. */
  datatype ParseError =
    | UnexpectedEol                         // expect: "unexpected EOL"
    | Expected(want: string, got: string)   // expect: "expected <want>: got <got>"
    | OutOfRange                            // std::string::at past the end
    | BadNumber(token: string)              // std::stold rejected the token

  /** A successful parse: the tree, the cursor after it and the variable set. */
  datatype Parsed<Num> = Parsed(node: Node<Num>, next: nat, vars: set<string>)

  type ParseResult<Num> = Result<Parsed<Num>, ParseError>

  /** `stold`: the conversion of a numeric token, which may fail. */
  type Converter<Num> = string -> Option<Num>

  /** The guard of the `expr` loop. An additive operator is neither a token character,
      nor a multiplicative operator, nor a parenthesis. */
  predicate IsExprOp(c: char)
    ensures IsExprOp(c) ==> !IsNumber(c) && !IsTermOp(c) && c != '(' && c != ')'
  {
    c == '+' || c == '-'
  }

  /** The guard of the `term` loop. A multiplicative operator is neither a token character
      nor a parenthesis. */
  predicate IsTermOp(c: char)
    ensures IsTermOp(c) ==> !IsNumber(c) && c != '(' && c != ')'
  {
    c == '*' || c == '/' || c == '%'
  }

  /** `expect(s, i, str)`: the cursor after `str` if the input continues with `str`. */
  function ExpectAt(s: string, i: nat, str: string): (r: Result<nat, ParseError>)
    requires i <= |s|
    ensures r.Ok? <==> str <= s[i..]
    ensures r.Ok? ==> r.value == i + |str| <= |s|
    ensures r == Err(UnexpectedEol) <==> |s| - i < |str|
    ensures r.Err? && |str| <= |s| - i ==> r == Err(Expected(str, s[i..i + |str|]))
  {
    if i + |str| > |s| then Err(UnexpectedEol)
    else if s[i..i + |str|] != str then Err(Expected(str, s[i..i + |str|]))
    else Ok(i + |str|)
  }

  /** The end of the maximal run of token characters that starts at `i`. */
  function RunEnd(s: string, i: nat): (j: nat)
    requires i <= |s|
    ensures i <= j <= |s|
    ensures forall k | i <= k < j :: IsNumber(s[k])
    ensures j == |s| || !IsNumber(s[j])
    decreases |s| - i
  {
    if i < |s| && IsNumber(s[i]) then RunEnd(s, i + 1) else i
  }

  /** `number`: the maximal run of token characters is a literal when it is all digits and
      '.', and a variable, added to the set, otherwise. */
  function ParseNumber<Num>(s: string, i: nat, vars: set<string>, toNum: Converter<Num>): (r: ParseResult<Num>)
    requires i < |s| && IsNumber(s[i])
    ensures r.Ok? ==> i < r.value.next <= |s|
    ensures r.Ok? ==> forall k | i <= k < r.value.next :: IsNumber(s[k])
    ensures r.Ok? ==> r.value.next == |s| || !IsNumber(s[r.value.next])
    ensures r.Ok? ==> r.value.vars == vars + Vars(r.value.node)
    ensures r.Ok? && r.value.node.Lit? ==> AllDigits(s[i..r.value.next]) && r.value.vars == vars
    ensures r.Ok? && !r.value.node.Lit? ==>
              r.value.node == Var(s[i..r.value.next]) && !AllDigits(r.value.node.name)
    ensures r.Err? ==> r.error == BadNumber(s[i..RunEnd(s, i)]) && AllDigits(r.error.token)
    ensures AllDigits(s[i..RunEnd(s, i)]) ==> (r.Ok? <==> toNum(s[i..RunEnd(s, i)]).Some?)
    ensures r.Ok? && r.value.node.Lit? ==> toNum(s[i..r.value.next]) == Some(r.value.node.value)
  {
    var j := RunEnd(s, i);
    var token := s[i..j];
    if AllDigits(token) then
      match toNum(token)
      case Some(v) => Ok(Parsed(Lit(v), j, vars))
      case None => Err(BadNumber(token))
    else
      Ok(Parsed(Var(token), j, vars + {token}))
  }

  /** `factor`: a token if the current character is a token character, otherwise a
      parenthesised expression. */
  function ParseFactor<Num>(s: string, i: nat, vars: set<string>, toNum: Converter<Num>): (r: ParseResult<Num>)
    requires i <= |s|
    ensures r.Ok? ==> i < r.value.next <= |s|
    ensures r.Ok? ==> r.value.vars == vars + Vars(r.value.node)
    decreases |s| - i, 0
  {
    if i < |s| && IsNumber(s[i]) then
      ParseNumber(s, i, vars, toNum)
    else
      var j :- ExpectAt(s, i, "(");
      var e :- ParseExpr(s, j, vars, toNum);
      var k :- ExpectAt(s, e.next, ")");
      Ok(Parsed(e.node, k, e.vars))
  }

  /** `term`: one factor, then the loop over multiplicative operators. */
  function ParseTerm<Num>(s: string, i: nat, vars: set<string>, toNum: Converter<Num>): (r: ParseResult<Num>)
    requires i <= |s|
    ensures r.Ok? ==> i < r.value.next <= |s|
    ensures r.Ok? ==> r.value.vars == vars + Vars(r.value.node)
    ensures r.Ok? ==> r.value.next == |s| || !IsTermOp(s[r.value.next])
    decreases |s| - i, 2
  {
    var f :- ParseFactor(s, i, vars, toNum);
    TermTail(s, f.next, f.vars, f.node, toNum)
  }

  /** The operator read at the head of the `term` loop and the cursor after it. */
  datatype MulStep = MulStep(op: Op, next: nat)

  /** The operator at the head of the `expr` loop. The loop guard admits only '+' and '-',
      so the `Default` branch of the source's `switch` is never reached. */
  function AddOperator(c: char): (r: Op)
    requires IsExprOp(c)
    ensures r == Add <==> c == '+'
    ensures r == Sub <==> c == '-'
  {
    if c == '+' then Add else Sub
  }

  /** The operator at the head of the `term` loop and the cursor after it: '*', '%', '/',
      or "//" for integer division. The look-ahead after '/' reads past the end of the
      input when '/' is the last character. */
  function MulOperatorAt(s: string, i: nat): (r: Result<MulStep, ParseError>)
    requires i < |s| && IsTermOp(s[i])
    ensures r.Err? <==> s[i] == '/' && i + 1 == |s|
    ensures r.Err? ==> r.error == OutOfRange
    ensures r.Ok? ==> r.value.next == (if r.value.op == DivInt then i + 2 else i + 1) <= |s|
    ensures r.Ok? ==> (r.value.op == Mul <==> s[i] == '*') && (r.value.op == Mod <==> s[i] == '%')
    ensures r.Ok? ==> (r.value.op == DivInt <==> s[i] == '/' && s[i + 1] == '/')
    ensures r.Ok? ==> (r.value.op == Div <==> s[i] == '/' && s[i + 1] != '/')
  {
    if s[i] == '/' && i + 1 == |s| then
      Err(OutOfRange)
    else
      var intDiv := s[i] == '/' && s[i + 1] == '/';
      Ok(MulStep(if s[i] == '*' then Mul else if s[i] == '%' then Mod else if intDiv then DivInt else Div,
                 if intDiv then i + 2 else i + 1))
  }

  /** The loop of `term`, entered with the tree `node` built so far. */
  function TermTail<Num>(s: string, i: nat, vars: set<string>, node: Node<Num>, toNum: Converter<Num>): (r: ParseResult<Num>)
    requires i <= |s|
    ensures r.Ok? ==> i <= r.value.next <= |s|
    ensures r.Ok? ==> Vars(node) <= Vars(r.value.node)
    ensures r.Ok? && Vars(node) <= vars ==> r.value.vars == vars + Vars(r.value.node)
    ensures r.Ok? ==> r.value.next == |s| || !IsTermOp(s[r.value.next])
    decreases |s| - i, 1
  {
    if i < |s| && IsTermOp(s[i]) then
      var m :- MulOperatorAt(s, i);
      var f :- ParseFactor(s, m.next, vars, toNum);
      TermTail(s, f.next, f.vars, BinOp(m.op, node, f.node), toNum)
    else
      Ok(Parsed(node, i, vars))
  }

  /** `expr`: one term, then the loop over additive operators. */
  function ParseExpr<Num>(s: string, i: nat, vars: set<string>, toNum: Converter<Num>): (r: ParseResult<Num>)
    requires i <= |s|
    ensures r.Ok? ==> i < r.value.next <= |s|
    ensures r.Ok? ==> r.value.vars == vars + Vars(r.value.node)
    ensures r.Ok? ==> r.value.next == |s| || !IsExprOp(s[r.value.next])
    decreases |s| - i, 4
  {
    var t :- ParseTerm(s, i, vars, toNum);
    ExprTail(s, t.next, t.vars, t.node, toNum)
  }

  /** The loop of `expr`, entered with the tree `node` built so far. */
  function ExprTail<Num>(s: string, i: nat, vars: set<string>, node: Node<Num>, toNum: Converter<Num>): (r: ParseResult<Num>)
    requires i <= |s|
    ensures r.Ok? ==> i <= r.value.next <= |s|
    ensures r.Ok? ==> Vars(node) <= Vars(r.value.node)
    ensures r.Ok? && Vars(node) <= vars ==> r.value.vars == vars + Vars(r.value.node)
    ensures r.Ok? ==> r.value.next == |s| || !IsExprOp(s[r.value.next])
    decreases |s| - i, 3
  {
    if i < |s| && IsExprOp(s[i]) then
      var t :- ParseTerm(s, i + 1, vars, toNum);
      ExprTail(s, t.next, t.vars, BinOp(AddOperator(s[i]), node, t.node), toNum)
    else
      Ok(Parsed(node, i, vars))
  }

  /** One turn of the `term` loop: the operator, then a factor, then the loop continues
      with the extended tree. */
  lemma TermTailStep<Num>(s: string, i: nat, vars: set<string>, node: Node<Num>, toNum: Converter<Num>)
    requires i < |s| && IsTermOp(s[i])
    ensures MulOperatorAt(s, i).Err? ==> TermTail(s, i, vars, node, toNum) == Err(OutOfRange)
    ensures MulOperatorAt(s, i).Ok? ==>
              var m := MulOperatorAt(s, i).value;
              m.next <= |s| &&
              var f := ParseFactor(s, m.next, vars, toNum);
              TermTail(s, i, vars, node, toNum)
                == if f.Err? then Err(f.error)
                   else TermTail(s, f.value.next, f.value.vars, BinOp(m.op, node, f.value.node), toNum)
  {
  }

  /** `expr` parses a term and continues with its loop. */
  lemma ExprUnfold<Num>(s: string, i: nat, vars: set<string>, toNum: Converter<Num>, t: Parsed<Num>)
    requires i <= |s| && ParseTerm(s, i, vars, toNum) == Ok(t)
    ensures t.next <= |s|
    ensures ParseExpr(s, i, vars, toNum) == ExprTail(s, t.next, t.vars, t.node, toNum)
  {
  }

  /** `term` parses a factor and continues with its loop. */
  lemma TermUnfold<Num>(s: string, i: nat, vars: set<string>, toNum: Converter<Num>, f: Parsed<Num>)
    requires i <= |s| && ParseFactor(s, i, vars, toNum) == Ok(f)
    ensures f.next <= |s|
    ensures ParseTerm(s, i, vars, toNum) == TermTail(s, f.next, f.vars, f.node, toNum)
  {
  }

  /** One turn of the `expr` loop. */
  lemma ExprTailStep<Num>(s: string, i: nat, vars: set<string>, node: Node<Num>, toNum: Converter<Num>, t: Parsed<Num>)
    requires i < |s| && IsExprOp(s[i]) && ParseTerm(s, i + 1, vars, toNum) == Ok(t)
    ensures t.next <= |s|
    ensures ExprTail(s, i, vars, node, toNum)
         == ExprTail(s, t.next, t.vars, BinOp(AddOperator(s[i]), node, t.node), toNum)
  {
  }

  /** The `expr` loop stops at the end of the input or at a character that is not '+' or '-'. */
  lemma ExprTailStop<Num>(s: string, i: nat, vars: set<string>, node: Node<Num>, toNum: Converter<Num>)
    requires i <= |s| && (i == |s| || !IsExprOp(s[i]))
    ensures ExprTail(s, i, vars, node, toNum) == Ok(Parsed(node, i, vars))
  {
  }

  /** The `term` loop stops at the end of the input or at a character that is not '*', '/'
      or '%'. */
  lemma TermTailStop<Num>(s: string, i: nat, vars: set<string>, node: Node<Num>, toNum: Converter<Num>)
    requires i <= |s| && (i == |s| || !IsTermOp(s[i]))
    ensures TermTail(s, i, vars, node, toNum) == Ok(Parsed(node, i, vars))
  {
  }

  /** A factor that starts with '(' is an expression closed by ')'. */
  lemma FactorParen<Num>(s: string, i: nat, vars: set<string>, toNum: Converter<Num>, e: Parsed<Num>)
    requires i < |s| && s[i] == '('
    requires ParseExpr(s, i + 1, vars, toNum) == Ok(e)
    requires e.next < |s| && s[e.next] == ')'
    ensures ParseFactor(s, i, vars, toNum) == Ok(Parsed(e.node, e.next + 1, e.vars))
  {
    assert ExpectAt(s, i, "(") == Ok(i + 1) by {
      assert s[i..i + 1] == "(";
    }
    assert ExpectAt(s, e.next, ")") == Ok(e.next + 1) by {
      assert s[e.next..e.next + 1] == ")";
    }
  }
}
