/** The syntax tree (parse.hpp `op`, `Term`, `Number`) and its evaluator (`calc`). */
module Ast {
  import opened Results

  /** The six binary operators of the grammar. */
  datatype Op = Add | Sub | Mul | Div | DivInt | Mod

  /** A `Term` holds one operator and exactly two operands; a `Number` is either a literal
      or a variable reference. `Num` stands for the source's `long double`. */
  datatype Node<Num> =
    | BinOp(op: Op, left: Node<Num>, right: Node<Num>)
    | Lit(value: Num)
    | Var(name: string)

  /** The variable names occurring in a tree. */
  function Vars<Num>(t: Node<Num>): set<string>
  {
    match t
    case BinOp(_, a, b) => Vars(a) + Vars(b)
    case Lit(_) => {}
    case Var(x) => {x}
  }

  /** The variable references of a tree from left to right, as `calc` visits them. */
  function VarSeq<Num>(t: Node<Num>): seq<string>
  {
    match t
    case BinOp(_, a, b) => VarSeq(a) + VarSeq(b)
    case Lit(_) => []
    case Var(x) => [x]
  }

  /** `ctx.at(name)` throws `std::out_of_range` for an unbound name. The model records
      which name was looked up. */
  datatype EvalError = Unbound(name: string)

  type Context<Num> = map<string, Num>

  /** `Term::calc` / `Number::calc`. Operand 0 is evaluated before operand 1, and `apply`
      stands for the floating-point operation the operator selects. Evaluation succeeds
      exactly when every variable of the tree is bound. */
  function Calc<Num>(t: Node<Num>, ctx: Context<Num>, apply: (Op, Num, Num) -> Num): (r: Result<Num, EvalError>)
    ensures r.Ok? <==> Vars(t) <= ctx.Keys
    ensures r.Err? ==> r.error.name in Vars(t) && r.error.name !in ctx
  {
    match t
    case Lit(v) => Ok(v)
    case Var(x) => if x in ctx then Ok(ctx[x]) else Err(Unbound(x))
    case BinOp(op, a, b) =>
      var x :- Calc(a, ctx, apply);
      var y :- Calc(b, ctx, apply);
      Ok(apply(op, x, y))
  }

  /** The names of `xs`, in order, that are not keys of the context. */
  function UnboundNames<Num>(xs: seq<string>, ctx: Context<Num>): seq<string>
  {
    if xs == [] then []
    else if xs[0] in ctx then UnboundNames(xs[1..], ctx)
    else [xs[0]] + UnboundNames(xs[1..], ctx)
  }

  lemma {:induction false} UnboundAppend<Num>(xs: seq<string>, ys: seq<string>, ctx: Context<Num>)
    ensures UnboundNames(xs + ys, ctx) == UnboundNames(xs, ctx) + UnboundNames(ys, ctx)
  {
    if xs == [] {
      assert xs + ys == ys;
    } else {
      assert (xs + ys)[1..] == xs[1..] + ys;
      UnboundAppend(xs[1..], ys, ctx);
    }
  }

  /** The in-order list holds exactly the variables of the tree. */
  lemma {:induction false} VarSeqCoversVars<Num>(t: Node<Num>)
    ensures forall x :: x in VarSeq(t) <==> x in Vars(t)
  {
    match t
    case BinOp(_, a, b) => VarSeqCoversVars(a); VarSeqCoversVars(b);
    case Lit(_) =>
    case Var(_) =>
  }

  /** Because operand 0 is evaluated first, a failing evaluation reports the leftmost
      unbound variable reference, and it fails exactly when there is one. */
  lemma {:induction false} CalcReportsLeftmostUnbound<Num>(t: Node<Num>, ctx: Context<Num>, apply: (Op, Num, Num) -> Num)
    ensures Calc(t, ctx, apply).Err? <==> UnboundNames(VarSeq(t), ctx) != []
    ensures Calc(t, ctx, apply).Err? ==> Calc(t, ctx, apply).error == Unbound(UnboundNames(VarSeq(t), ctx)[0])
  {
    match t
    case BinOp(_, a, b) =>
      UnboundAppend(VarSeq(a), VarSeq(b), ctx);
      CalcReportsLeftmostUnbound(a, ctx, apply);
      CalcReportsLeftmostUnbound(b, ctx, apply);
    case Lit(_) =>
    case Var(x) =>
      assert UnboundNames([x], ctx) == (if x in ctx then [] else [x]) + UnboundNames([], ctx);
  }

  /** Evaluation reads only the bindings of the tree's own variables: two contexts that
      agree there give the same result, whatever else they hold. */
  lemma {:induction false} CalcReadsOnlyItsVars<Num>(t: Node<Num>, ctx1: Context<Num>, ctx2: Context<Num>, apply: (Op, Num, Num) -> Num)
    requires forall x :: x in Vars(t) ==> (x in ctx1 <==> x in ctx2)
    requires forall x :: x in Vars(t) && x in ctx1 && x in ctx2 ==> ctx1[x] == ctx2[x]
    ensures Calc(t, ctx1, apply) == Calc(t, ctx2, apply)
  {
    match t
    case BinOp(_, a, b) =>
      CalcReadsOnlyItsVars(a, ctx1, ctx2, apply);
      CalcReadsOnlyItsVars(b, ctx1, ctx2, apply);
    case Lit(_) =>
    case Var(_) =>
  }

  /** A `Term` combines the values of its two operands with its own operator. */
  lemma CalcBinOp<Num>(op: Op, a: Node<Num>, b: Node<Num>, ctx: Context<Num>, apply: (Op, Num, Num) -> Num)
    requires Vars(a) + Vars(b) <= ctx.Keys
    ensures Calc(BinOp(op, a, b), ctx, apply)
         == Ok(apply(op, Calc(a, ctx, apply).value, Calc(b, ctx, apply).value))
  {
  }
}
