/** What the parser does at the edges of the grammar and on a few characteristic inputs,
    and how the parse feeds evaluation in main.cpp. */
module Behaviour {
  import opened Results
  import opened Lexeme
  import opened Ast
  import opened Grammar
  import opened Printer

  /** Input that cannot start a factor (the end of the input, or a character that is
      neither a token character nor '(') fails inside `expect("(")`. */
  lemma BadStart<Num>(s: string, i: nat, vars: set<string>, toNum: Converter<Num>)
    requires i <= |s| && (i == |s| || (!IsNumber(s[i]) && s[i] != '('))
    ensures ParseExpr(s, i, vars, toNum) == Err(if i == |s| then UnexpectedEol else Expected("(", [s[i]]))
  {
    var e := if i == |s| then UnexpectedEol else Expected("(", [s[i]]);
    if i < |s| {
      assert s[i..i + 1] == [s[i]];
    }
    assert ExpectAt(s, i, "(") == Err(e);
    assert ParseFactor(s, i, vars, toNum) == Err(e);
    assert ParseTerm(s, i, vars, toNum) == Err(e);
  }

  lemma EmptyInput<Num>(toNum: Converter<Num>)
    ensures ParseExpr("", 0, {}, toNum) == Err(UnexpectedEol)
  {
    BadStart("", 0, {}, toNum);
  }

  /** There is no unary minus. */
  lemma LeadingMinus<Num>(toNum: Converter<Num>)
    ensures ParseExpr("-1", 0, {}, toNum) == Err(Expected("(", "-"))
  {
    BadStart("-1", 0, {}, toNum);
  }

  /** There is no white space in the grammar. */
  lemma LeadingSpace<Num>(toNum: Converter<Num>)
    ensures ParseExpr(" a", 0, {}, toNum) == Err(Expected("(", " "))
  {
    BadStart(" a", 0, {}, toNum);
  }

  /** A term followed by a '/' that ends the input: the look-ahead for a second '/' reads
      past the end and throws `std::out_of_range`. */
  lemma SlashAtEnd<Num>(t: Node<Num>, show: Num -> string, toNum: Converter<Num>)
    requires Printable(t, show, toNum)
    ensures ParseExpr(Print(t, 1, show) + "/", 0, {}, toNum) == Err(OutOfRange)
  {
    var p := Print(t, 1, show);
    var s := p + "/";
    assert At(s, 0, p) by {
      forall k | 0 <= k < |p|
        ensures s[0 + k] == p[k]
      {
      }
    }
    assert s[|p|] == '/';
    TermPrinted(s, 0, |p|, t, {}, show, toNum);
    TermTailStep(s, |p|, {} + Vars(t), t, toNum);
  }

  /** A name followed by a final '/' fails with `std::out_of_range`. */
  lemma NameThenSlash<Num>(x: string, toNum: Converter<Num>)
    requires IsName(x)
    ensures ParseExpr(x + "/", 0, {}, toNum) == Err(OutOfRange)
  {
    SlashAtEnd(Var(x), (v: Num) => "0", toNum);
  }

  /** Parsing stops at a character that is not an operator and leaves it unread: for a
      name followed by ')', the cursor stops on the ')'. */
  lemma TrailingInputLeft<Num>(x: string, toNum: Converter<Num>)
    requires IsName(x)
    ensures ParseExpr(x + ")", 0, {}, toNum) == Ok(Parsed(Var(x), |x|, {x}))
  {
    ParsePrintedThen(Var(x), ")", (v: Num) => "0", toNum);
  }

  /** Operators of one level fold to the left: x-y-z is (x-y)-z. */
  lemma SubtractionFoldsLeft<Num>(x: string, y: string, z: string, toNum: Converter<Num>)
    requires IsName(x) && IsName(y) && IsName(z)
    ensures ParseExpr(x + "-" + y + "-" + z, 0, {}, toNum)
         == Ok(Parsed(BinOp(Sub, BinOp(Sub, Var(x), Var(y)), Var(z)), |x| + |y| + |z| + 2, {x, y, z}))
  {
    var show := (v: Num) => "0";
    var t: Node<Num> := BinOp(Sub, BinOp(Sub, Var(x), Var(y)), Var(z));
    PrintSubSub(x, y, z, show);
    ParsePrintRoundTrip(t, show, toNum);
  }

  /** Parentheses group to the right: in x-(y-z), y-z is the right operand. */
  lemma ParenthesesGroup<Num>(x: string, y: string, z: string, toNum: Converter<Num>)
    requires IsName(x) && IsName(y) && IsName(z)
    ensures ParseExpr(x + "-(" + y + "-" + z + ")", 0, {}, toNum)
         == Ok(Parsed(BinOp(Sub, Var(x), BinOp(Sub, Var(y), Var(z))), |x| + |y| + |z| + 4, {x, y, z}))
  {
    var show := (v: Num) => "0";
    var t: Node<Num> := BinOp(Sub, Var(x), BinOp(Sub, Var(y), Var(z)));
    PrintSubParen(x, y, z, show);
    ParsePrintRoundTrip(t, show, toNum);
  }

  /** Multiplication binds tighter than addition: a product to the right of '+' is its
      right operand. */
  lemma ProductRightOfSum<Num>(x: string, y: string, z: string, toNum: Converter<Num>)
    requires IsName(x) && IsName(y) && IsName(z)
    ensures ParseExpr(x + "+" + y + "*" + z, 0, {}, toNum)
         == Ok(Parsed(BinOp(Add, Var(x), BinOp(Mul, Var(y), Var(z))), |x| + |y| + |z| + 2, {x, y, z}))
  {
    var show := (v: Num) => "0";
    PrintAddMul(x, y, z, show);
    ParsePrintRoundTrip(BinOp(Add, Var(x), BinOp(Mul, Var(y), Var(z))), show, toNum);
  }

  /** Multiplication binds tighter than addition: a product to the left of '+' is its left
      operand. */
  lemma ProductLeftOfSum<Num>(x: string, y: string, z: string, toNum: Converter<Num>)
    requires IsName(x) && IsName(y) && IsName(z)
    ensures ParseExpr(x + "*" + y + "+" + z, 0, {}, toNum)
         == Ok(Parsed(BinOp(Add, BinOp(Mul, Var(x), Var(y)), Var(z)), |x| + |y| + |z| + 2, {x, y, z}))
  {
    var show := (v: Num) => "0";
    PrintMulAdd(x, y, z, show);
    ParsePrintRoundTrip(BinOp(Add, BinOp(Mul, Var(x), Var(y)), Var(z)), show, toNum);
  }

  /** "//" is one integer-division operator: both slashes are consumed together. */
  lemma DoubleSlashIsIntDiv<Num>(x: string, y: string, toNum: Converter<Num>)
    requires IsName(x) && IsName(y)
    ensures ParseExpr(x + "//" + y, 0, {}, toNum) == Ok(Parsed(BinOp(DivInt, Var(x), Var(y)), |x| + |y| + 2, {x, y}))
  {
    var show := (v: Num) => "0";
    PrintQuotients(x, y, show);
    ParsePrintRoundTrip(BinOp(DivInt, Var(x), Var(y)), show, toNum);
  }

  /** A single '/' followed by an operand is division. */
  lemma SingleSlashIsDiv<Num>(x: string, y: string, toNum: Converter<Num>)
    requires IsName(x) && IsName(y)
    ensures ParseExpr(x + "/" + y, 0, {}, toNum) == Ok(Parsed(BinOp(Div, Var(x), Var(y)), |x| + |y| + 1, {x, y}))
  {
    var show := (v: Num) => "0";
    PrintQuotients(x, y, show);
    ParsePrintRoundTrip(BinOp(Div, Var(x), Var(y)), show, toNum);
  }

  /** The texts of the example trees and their variables. */
  lemma PrintQuotients<Num>(x: string, y: string, show: Num -> string)
    ensures Print(BinOp(DivInt, Var(x), Var(y)), 0, show) == x + "//" + y
    ensures Print(BinOp(Div, Var(x), Var(y)), 0, show) == x + "/" + y
    ensures Vars<Num>(BinOp(DivInt, Var(x), Var(y))) == Vars<Num>(BinOp(Div, Var(x), Var(y))) == {x, y}
  {
  }

  lemma PrintSubParen<Num>(x: string, y: string, z: string, show: Num -> string)
    ensures Print(BinOp(Sub, Var(x), BinOp(Sub, Var(y), Var(z))), 0, show) == x + "-(" + y + "-" + z + ")"
    ensures Vars<Num>(BinOp(Sub, Var(x), BinOp(Sub, Var(y), Var(z)))) == {x, y, z}
  {
    var r: Node<Num> := BinOp(Sub, Var(y), Var(z));
    assert Print(r, 0, show) == y + "-" + z;
    assert Print(r, 1, show) == "(" + (y + "-" + z) + ")";
    assert "-(" == "-" + "(";
    assert x + "-" + ("(" + (y + "-" + z) + ")") == x + "-(" + y + "-" + z + ")";
    assert Vars(r) == {y, z};
  }
  lemma PrintAddMul<Num>(x: string, y: string, z: string, show: Num -> string)
    ensures Print(BinOp(Add, Var(x), BinOp(Mul, Var(y), Var(z))), 0, show) == x + "+" + y + "*" + z
    ensures Vars<Num>(BinOp(Add, Var(x), BinOp(Mul, Var(y), Var(z)))) == {x, y, z}
  {
    var r: Node<Num> := BinOp(Mul, Var(y), Var(z));
    assert Print(r, 1, show) == y + "*" + z;
    assert x + "+" + (y + "*" + z) == x + "+" + y + "*" + z;
    assert Vars(r) == {y, z};
  }
  lemma PrintMulAdd<Num>(x: string, y: string, z: string, show: Num -> string)
    ensures Print(BinOp(Add, BinOp(Mul, Var(x), Var(y)), Var(z)), 0, show) == x + "*" + y + "+" + z
    ensures Vars<Num>(BinOp(Add, BinOp(Mul, Var(x), Var(y)), Var(z))) == {x, y, z}
  {
    var l: Node<Num> := BinOp(Mul, Var(x), Var(y));
    assert Print(l, 0, show) == x + "*" + y;
    assert Vars(l) == {x, y};
  }
  lemma PrintSubSub<Num>(x: string, y: string, z: string, show: Num -> string)
    ensures Print(BinOp(Sub, BinOp(Sub, Var(x), Var(y)), Var(z)), 0, show) == x + "-" + y + "-" + z
    ensures Vars<Num>(BinOp(Sub, BinOp(Sub, Var(x), Var(y)), Var(z))) == {x, y, z}
  {
    var l: Node<Num> := BinOp(Sub, Var(x), Var(y));
    assert Print(l, 0, show) == x + "-" + y;
    assert Vars(l) == {x, y};
  }

  /** main.cpp: once an equation parses, evaluation succeeds exactly when the context binds
      every name of the collected set; in particular with no names it succeeds on the
      empty context, and the prompting loop, which binds each name of the set, always
      gets a value. */
  lemma EvaluateParsed<Num>(equation: string, toNum: Converter<Num>, ctx: Context<Num>, apply: (Op, Num, Num) -> Num)
    requires ParseExpr(equation, 0, {}, toNum).Ok?
    ensures var p := ParseExpr(equation, 0, {}, toNum).value;
            Calc(p.node, ctx, apply).Ok? <==> p.vars <= ctx.Keys
    ensures var p := ParseExpr(equation, 0, {}, toNum).value;
            p.vars == {} ==> Calc(p.node, map[], apply).Ok?
  {
    var p := ParseExpr(equation, 0, {}, toNum).value;
    assert p.vars == {} + Vars(p.node) == Vars(p.node);
  }
}
