# bulk_calculation parser and evaluator in Dafny

This project models `parse.hpp` of bulk_calculation, a small calculator. The file holds
two parts:

- A recursive-descent parser for infix arithmetic over numbers and variable names. It has
  the operators `+ - * / // %` and parentheses.
- An evaluator that computes the value of the resulting tree in a context of variable
  bindings.

The model has the same two parts, each in the form the source gives it:

- `lexeme.dfy` (module `Lexeme`) holds the two character classes `isNumber` and
  `isDigit`.
- `ast.dfy` (module `Ast`) holds:
  - the operator type `Op` (the source's enum `op`);
  - the tree: `BinOp` is the source's `Term` with two operands, and `Lit` and `Var` are
    the source's `Number` as a literal or a variable;
  - the evaluator `Calc` (the source's `calc`), a pure function over a context that it
    never changes.
- `grammar.dfy` (module `Grammar`) is a pure reference definition of what every parsing
  function returns: the tree, the cursor after it, the variable set after it, or the
  exception it throws. The `while` loops of `expr` and `term` are the tail functions
  `ExprTail` and `TermTail`, which receive the tree folded so far.
- `parser.dfy` (module `RecursiveDescent`) is the parser as the source runs it. A class
  `Parser` holds the input, the by-reference cursor `i` and the by-reference variable set
  `valList`. Its methods update both in place and use the same `while` loops. Each method
  is proved to agree with its `Grammar` function. Three pieces of a source function stand
  as methods of their own:
  - `MulOperator` is the operator read at the head of the `term` loop.
  - `TermLoop` is the `term` loop.
  - `ExprLoop` is the `expr` loop.

  They run in the same order as the source.
- `printer.dfy` (module `Printer`) holds a printer that writes a tree with the fewest
  parentheses. It also holds the theorem that the parser reads every printed tree back as
  the same tree. This theorem fixes the tree shapes the parser builds: left folding,
  precedence, parentheses and `//`.
- `behaviour.dfy` (module `Behaviour`) holds:
  - the error cases at the edges of the grammar;
  - characteristic inputs over arbitrary variable names;
  - the link between the parse and the evaluation in `main.cpp`.
- `results.dfy` (module `Results`) holds the `Option`, `Result` and `Outcome` types.

The numeric type `long double` is a type parameter `Num`:

- `std::stold` is a parameter `toNum: string -> Option<Num>`, and `None` stands for the
  exceptions it throws.
- The floating-point operations are a parameter `apply: (Op, Num, Num) -> Num`.

Thrown exceptions are the error values of `ParseError` and `EvalError`.

Where the grammar comments and the code disagree, the model follows the code:

- The comment at parse.hpp:175 lists `[0-9a-zA-Z_']` as token characters. `isNumber` also
  accepts `.` and `"`.
- The comment at parse.hpp:130 lists only `*` and `/`. `term` also reads `%` and `//`.

## Model

| member | source | states |
|---|---|---|
| `Lexeme.IsNumber` | parse.hpp:94-102 | a token character is never a parenthesis, so a token stops before '(' or ')' |
| `Lexeme.AllDigits` | parse.hpp:181 | the `all_of` test over `isDigit` holds for the empty string, and a string that passes it is made of token characters only |
| `Lexeme.IsDigit` | parse.hpp:94-106 | every digit character (a digit or '.') is also a token character |
| `Lexeme.NameCharacters` | parse.hpp:94-106 | a token character that is not a digit character is exactly a letter, '_', `'` or `"` |
| `Ast.Calc` | parse.hpp:33-79 | evaluation succeeds exactly when every variable of the tree is bound in the context; a failure names a variable of the tree that is unbound |
| `Ast.CalcReportsLeftmostUnbound` | parse.hpp:36-38 | operand 0 is evaluated before operand 1, so a failing evaluation reports the leftmost unbound variable reference, and fails exactly when one exists |
| `Ast.CalcReadsOnlyItsVars` | parse.hpp:70-77 | evaluation reads only the bindings of the tree's own variables: two contexts that agree on them give the same result |
| `Ast.CalcBinOp` | parse.hpp:36-57 | a `Term` with bound variables yields its operator applied to the values of operand 0 and operand 1, in that order |
| `Grammar.IsExprOp` | parse.hpp:112 | the guard of the `expr` loop: '+' or '-', neither of which is a token character, a multiplicative operator or a parenthesis |
| `Grammar.IsTermOp` | parse.hpp:134 | the guard of the `term` loop: '*', '/' or '%', none of which is a token character or a parenthesis |
| `Grammar.AddOperator` | parse.hpp:117-124 | under the loop guard, '+' gives `add` and '-' gives `sub`, so the `Default` branch is never reached |
| `Grammar.ExpectAt` | parse.hpp:86-92 | fails with EOL exactly when fewer characters remain than `str` has; otherwise fails with the mismatching substring exactly when the input does not continue with `str`; on success the cursor advances by exactly the length of `str` |
| `Grammar.RunEnd` | parse.hpp:179-180 | the end of the maximal run of token characters from the cursor: every character before it is a token character, and the one at it is not (or the input ends) |
| `Grammar.ParseNumber` | parse.hpp:176-185 | from a token character, consumes the maximal run of token characters (at least one); an all-digit token fails with the conversion error exactly when `stold` rejects it, and otherwise becomes the literal holding the value `stold` returns, with the set unchanged; any other token becomes `Var(token)` and is added to the set |
| `Grammar.ParseFactor` | parse.hpp:164-173 | a successful factor consumes at least one character and adds exactly its tree's variables to the set |
| `Grammar.MulOperatorAt` | parse.hpp:137-157 | '*' gives `mul`, '%' gives `mod`, "//" gives `div_int` and consumes both characters, a '/' followed by anything else gives `div`; a '/' at the end of the input fails with out_of_range, and only then |
| `Grammar.ParseTerm` | parse.hpp:131-161 | a successful term consumes at least one character, adds exactly its tree's variables to the set, and stops at the end of the input or at a character that is not '*', '/' or '%' |
| `Grammar.TermTail` | parse.hpp:134-159 | the `term` loop never moves the cursor back, keeps the variables of the tree built so far in the result tree, adds exactly the result tree's variables to a set that already holds those of the tree so far, and stops only before a character that is not '*', '/' or '%' |
| `Grammar.ParseExpr` | parse.hpp:109-128 | a successful expression consumes at least one character, ends with the set equal to the initial set plus the tree's variables, and stops at the end of the input or at a character that is not '+' or '-' |
| `Grammar.ExprTail` | parse.hpp:112-126 | the `expr` loop never moves the cursor back, keeps the variables of the tree built so far in the result tree, adds exactly the result tree's variables to a set that already holds those of the tree so far, and stops only before a character that is not '+' or '-' |
| `Grammar.FactorParen` | parse.hpp:169-172 | a factor that starts with '(' is the expression after it, closed by ')' |
| `RecursiveDescent.Parser.Expect` | parse.hpp:86-92 | consumes `str` exactly as `ExpectAt` says, and on failure leaves the cursor where it was |
| `RecursiveDescent.Parser.Number` | parse.hpp:176-185 | from a token character, the character-pushing loop moves the cursor forward and yields the tree, cursor and set of `ParseNumber` |
| `RecursiveDescent.Parser.Factor` | parse.hpp:164-173 | the cursor never moves back, and the result, cursor and set are those of `ParseFactor` |
| `RecursiveDescent.Parser.MulOperator` | parse.hpp:137-157 | reads the operator and advances the cursor as `MulOperatorAt` says, including the out_of_range failure |
| `RecursiveDescent.Parser.Term` | parse.hpp:131-133 | the result, cursor and set are those of `ParseTerm` |
| `RecursiveDescent.Parser.TermLoop` | parse.hpp:134-160 | the loop folds each operator and factor onto the tree so far, with the result of `TermTail` |
| `RecursiveDescent.Parser.Expr` | parse.hpp:109-111 | the result, cursor and set are those of `ParseExpr` |
| `RecursiveDescent.Parser.ExprLoop` | parse.hpp:112-127 | the loop folds each '+'/'-' and term onto the tree so far, with the result of `ExprTail` |
| `RecursiveDescent.ParseEquation` | main.cpp:15-16 | parsing from cursor 0 with an empty set succeeds exactly when `ParseExpr` does; the set then holds exactly the tree's variables |
| `Printer.ParsePrintedThen` | parse.hpp:108-185 | a printed tree is parsed back to the same tree, with exactly its variables; parsing stops where the print ends and leaves unread any following input that starts with neither a token character nor an operator |
| `Printer.ParsePrintRoundTrip` | parse.hpp:108-185 | parsing the printed text of any tree gives that tree, consumes the whole text and collects exactly its variables |
| `Behaviour.BadStart` | parse.hpp:164-169 | at the end of the input, or at a character that is neither a token character nor '(', parsing fails inside `expect("(")` with EOL or with the offending character |
| `Behaviour.EmptyInput` | parse.hpp:166-169 | the empty input fails with "unexpected EOL" |
| `Behaviour.LeadingMinus` | parse.hpp:166-169 | "-1" fails with "expected (: got -"; there is no unary minus |
| `Behaviour.LeadingSpace` | parse.hpp:166-169 | a leading space fails in `expect("(")` with the space as the character found |
| `Behaviour.SlashAtEnd` | parse.hpp:137-140 | any term followed by a final '/' fails with out_of_range |
| `Behaviour.NameThenSlash` | parse.hpp:137-140 | a name followed by a final '/' fails with out_of_range |
| `Behaviour.TrailingInputLeft` | parse.hpp:112 | for a name followed by ')', the parse succeeds and the cursor stops on the ')' |
| `Behaviour.SubtractionFoldsLeft` | parse.hpp:112-125 | x-y-z parses as (x-y)-z |
| `Behaviour.ParenthesesGroup` | parse.hpp:169-171 | x-(y-z) parses with y-z as the right operand |
| `Behaviour.ProductRightOfSum` | parse.hpp:116 | x+y*z parses as x+(y*z) |
| `Behaviour.ProductLeftOfSum` | parse.hpp:111 | x*y+z parses as (x*y)+z |
| `Behaviour.DoubleSlashIsIntDiv` | parse.hpp:140-151 | x//y parses as one `div_int` node and consumes both slashes |
| `Behaviour.SingleSlashIsDiv` | parse.hpp:148-152 | x/y parses as a `div` node |
| `Behaviour.EvaluateParsed` | main.cpp:16-31 | once an equation parses, evaluation succeeds exactly when the context binds every name of the collected set, and with no names it succeeds on the empty context |

## Left out

- The `long double` arithmetic of `Term::calc` (`+ - * /`, `std::floor`, `std::fmod`) is the uninterpreted parameter `apply`, because it is floating point.
- `std::stold` is the parameter `toNum` and may fail on any token. The model does not capture what `stold` actually accepts. For example, it reads the prefix "1.2" of "1.2.3" and rejects ".".
- The `DEBUG` tracing macros are left out because they only produce output.
- The `std::domain_error` values built in the `Default` branches of `expr` and `term` are left out. They are never thrown, and the loop guards make those branches unreachable.
- The `throw` at the end of `Term::calc` is left out. It is unreachable for the closed `op` enum.
- `shared_ptr` ownership and virtual dispatch of `Calculatable` are a plain inductive datatype, because the tree is never shared.
- The cursor is a natural number. The 32-bit `int` of the source would overflow only on inputs longer than 2^31 characters.
- The messages of the exceptions are not modelled as text. `ParseError` records the expected string and the substring actually found.
- `Ast.Calc` names the variable whose lookup failed. The source's `std::out_of_range` carries no name.
- The source pushes operand 0 into the new node before it parses operand 1, and discards that node when an exception is thrown. The model builds the node after both operands are read, which gives the same result.
- The interactive driver in `main.cpp` is left out: prompting, reading `std::cin`, printing, and the endless evaluation loop are all I/O. Only the parse call (`ParseEquation`) and the parse-then-evaluate link (`EvaluateParsed`) are modelled.
- `Grammar.ParseNumber` and `RecursiveDescent.Parser.Number` require the cursor to be on a token character, because `factor` (parse.hpp:166-167) is the only caller and checks this first. `number` on an empty run, where `stold("")` would throw, is not modelled.
- Strings are sequences of characters, not bytes. Both character classes accept only ASCII characters, so parsing decides the same way. On input with non-ASCII characters, however, the cursor offsets differ from the source's byte offsets, and the text found in an `Expected` error is one character where the source reports one byte.
- The cursor and variable set after a failure are not modelled: `RecursiveDescent.Parser.Agrees` constrains only the error value. The source leaves whatever it consumed and inserted before the throw (for "a+(" the set holds "a"), but `main.cpp` never catches the exception, so nothing reads that state.
