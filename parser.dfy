/** The parser of parse.hpp as the source runs it: a cursor `i` and the variable set
    `valList` that every parsing step updates in place, and `while` loops that fold the
    tree to the left. Each method is proved to compute what the corresponding function
    of `Grammar` describes. */
module RecursiveDescent {
  import opened Results
  import opened Lexeme
  import opened Ast
  import opened Grammar

  class Parser<Num> {
    /** The expression text, never modified. */
    const s: string
    /** `std::stold`. */
    const toNum: Converter<Num>
    /** The shared cursor, `int& i` in the source. */
    var i: nat
    /** The shared set of variable names, `std::set<std::string>& valList` in the source. */
    var valList: set<string>

    ghost predicate Valid()
      reads this
    {
      i <= |s|
    }

    /** The parser state and the returned tree agree with the reference result `spec`. */
    ghost predicate Agrees(r: Result<Node<Num>, ParseError>, spec: ParseResult<Num>)
      reads this
    {
      match spec
      case Ok(p) => r == Ok(p.node) && i == p.next && valList == p.vars
      case Err(e) => r == Err(e)
    }

    constructor (input: string, toNum: Converter<Num>, start: nat, vars: set<string>)
      requires start <= |input|
      ensures Valid()
      ensures s == input && this.toNum == toNum && i == start && valList == vars
    {
      s := input;
      this.toNum := toNum;
      i := start;
      valList := vars;
    }

    /** `expect`: consume `str` or throw; nothing else changes. */
    method Expect(str: string) returns (r: Outcome<ParseError>)
      requires Valid()
      modifies this`i
      ensures Valid()
      ensures match ExpectAt(s, old(i), str)
              case Ok(j) => r == Pass && i == j == old(i) + |str|
              case Err(e) => r == Fail(e) && i == old(i)
    {
      if i + |str| > |s| {
        return Fail(UnexpectedEol);
      }
      var sub := s[i..i + |str|];
      if sub != str {
        return Fail(Expected(str, sub));
      }
      i := i + |str|;
      return Pass;
    }

    /** `number`: push characters while they are token characters, then decide between a
        literal and a variable. */
    method Number() returns (r: Result<Node<Num>, ParseError>)
      requires Valid() && i < |s| && IsNumber(s[i])
      modifies this
      ensures Valid() && old(i) < i
      ensures Agrees(r, ParseNumber(s, old(i), old(valList), toNum))
    {
      var str := "";
      while i < |s| && IsNumber(s[i])
        invariant old(i) <= i <= |s|
        invariant str == s[old(i)..i]
        invariant RunEnd(s, i) == RunEnd(s, old(i))
        invariant valList == old(valList)
        decreases |s| - i
      {
        str := str + [s[i]];
        i := i + 1;
      }
      if AllDigits(str) {
        var v := toNum(str);
        if v.None? {
          return Err(BadNumber(str));
        }
        return Ok(Lit(v.value));
      }
      valList := valList + {str};
      return Ok(Var(str));
    }

    /** `factor`: a token, or '(' expr ')'. */
    method Factor() returns (r: Result<Node<Num>, ParseError>)
      requires Valid()
      modifies this
      ensures Valid() && old(i) <= i
      ensures Agrees(r, ParseFactor(s, old(i), old(valList), toNum))
      decreases |s| - i, 0
    {
      if i < |s| && IsNumber(s[i]) {
        r := Number();
        return;
      }
      :- Expect("(");
      var ret :- Expr();
      :- Expect(")");
      return Ok(ret);
    }

    /** The operator read at the head of the `term` loop: the character, then a second
        '/' for integer division; `s.at(i)` throws when '/' is the last character. */
    method MulOperator() returns (r: Result<Op, ParseError>)
      requires Valid() && i < |s| && IsTermOp(s[i])
      modifies this`i
      ensures Valid() && old(i) < i
      ensures match MulOperatorAt(s, old(i))
              case Ok(m) => r == Ok(m.op) && i == m.next
              case Err(e) => r == Err(e)
    {
      var operation := s[i];
      i := i + 1;
      var isDoubleSlash := false;
      if operation == '/' {
        if i == |s| {
          return Err(OutOfRange);
        }
        if s[i] == '/' {
          isDoubleSlash := true;
          i := i + 1;
        }
      }
      var op := if operation == '*' then Mul
                else if operation == '%' then Mod
                else if isDoubleSlash then DivInt
                else Div;
      return Ok(op);
    }

    /** `term`: a factor, then the loop over multiplicative operators. */
    method Term() returns (r: Result<Node<Num>, ParseError>)
      requires Valid()
      modifies this
      ensures Valid() && old(i) <= i
      ensures Agrees(r, ParseTerm(s, old(i), old(valList), toNum))
      decreases |s| - i, 2
    {
      ghost var start, vars := i, valList;
      var node :- Factor();
      r := TermLoop(node, ParseTerm(s, start, vars, toNum));
    }

    /** The `while` loop of `term`: each multiplicative operator makes a new node whose
        operand 0 is the tree so far and whose operand 1 is the next factor. */
    method TermLoop(node0: Node<Num>, ghost spec: ParseResult<Num>) returns (r: Result<Node<Num>, ParseError>)
      requires Valid() && TermTail(s, i, valList, node0, toNum) == spec
      modifies this
      ensures Valid() && old(i) <= i
      ensures Agrees(r, spec)
      decreases |s| - i, 1
    {
      var node := node0;
      while i < |s| && IsTermOp(s[i])
        invariant old(i) <= i <= |s|
        invariant TermTail(s, i, valList, node, toNum) == spec
        decreases |s| - i
      {
        var op :- MulOperator();
        var rhs :- Factor();
        node := BinOp(op, node, rhs);
      }
      return Ok(node);
    }

    /** `expr`: a term, then the loop over additive operators. */
    method Expr() returns (r: Result<Node<Num>, ParseError>)
      requires Valid()
      modifies this
      ensures Valid() && old(i) <= i
      ensures Agrees(r, ParseExpr(s, old(i), old(valList), toNum))
      decreases |s| - i, 4
    {
      ghost var start, vars := i, valList;
      var node :- Term();
      r := ExprLoop(node, ParseExpr(s, start, vars, toNum));
    }

    /** The `while` loop of `expr`: each additive operator makes a new node whose operand 0
        is the tree so far and whose operand 1 is the next term. */
    method ExprLoop(node0: Node<Num>, ghost spec: ParseResult<Num>) returns (r: Result<Node<Num>, ParseError>)
      requires Valid() && ExprTail(s, i, valList, node0, toNum) == spec
      modifies this
      ensures Valid() && old(i) <= i
      ensures Agrees(r, spec)
      decreases |s| - i, 3
    {
      var node := node0;
      while i < |s| && IsExprOp(s[i])
        invariant old(i) <= i <= |s|
        invariant ExprTail(s, i, valList, node, toNum) == spec
        decreases |s| - i
      {
        var operation := s[i];
        i := i + 1;
        var rhs :- Term();
        node := BinOp(AddOperator(operation), node, rhs);
      }
      ExprTailStop(s, i, valList, node, toNum);
      return Ok(node);
    }
  }

  /** The parse step of main.cpp: a fresh cursor at 0 and an empty variable set. On success
      the set holds exactly the variables of the tree. */
  method ParseEquation<Num>(equation: string, toNum: Converter<Num>)
    returns (r: Result<Node<Num>, ParseError>, valList: set<string>)
    ensures r.Ok? <==> ParseExpr(equation, 0, {}, toNum).Ok?
    ensures r.Ok? ==> r.value == ParseExpr(equation, 0, {}, toNum).value.node
    ensures r.Ok? ==> valList == Vars(r.value)
    ensures r.Err? ==> r.error == ParseExpr(equation, 0, {}, toNum).error
  {
    var p := new Parser(equation, toNum, 0, {});
    r := p.Expr();
    valList := p.valList;
  }
}
