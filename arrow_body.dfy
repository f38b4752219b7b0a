/**
  The `arrow-body` rule (`createArrowBody`): per arrow function, a check
  for the "single" scope (a body of one statement) and one for the "multi"
  scope (more than one), each set to prefer a `void` expression, to prefer
  a block body, or off.
 */
module ArrowBody {
  import opened Wrappers
  import opened Estree
  import opened Text
  import opened Diagnostics

  /** A scope's setting: `'void'`, `'body'` or `false`. */
  datatype Mode = PreferVoid | PreferBody | Off

  /** The rule's first option object, `{ single, multi }`, either key possibly unset. */
  datatype ArrowBodyOptions = ArrowBodyOptions(single: Option<Mode>, multi: Option<Mode>)

  datatype Settings = Settings(single: Mode, multi: Mode)

  datatype Scope = Single | Multi

  const LintVoidMessage := "Unexpected function body. Use void instead."
  const LintBodyMessage := "Unexpected void operator. Use function body instead."

  /** The setting of one scope: `'void'` unless the option object sets it. */
  function SettingOf(option: Option<Mode>): (m: Mode)
    ensures option.None? ==> m == PreferVoid
    ensures option.Some? ==> m == option.value
  {
    if option.None? then PreferVoid else option.value
  }

  /** Both scopes default to `'void'`, with or without an option object. */
  function ReadSettings(options: Option<ArrowBodyOptions>): (s: Settings)
    ensures options.None? || options.value.single.None? ==> s.single == PreferVoid
    ensures options.None? || options.value.multi.None? ==> s.multi == PreferVoid
    ensures options.Some? && options.value.single.Some? ==> s.single == options.value.single.value
    ensures options.Some? && options.value.multi.Some? ==> s.multi == options.value.multi.value
  {
    if options.None? then Settings(PreferVoid, PreferVoid)
    else Settings(SettingOf(options.value.single), SettingOf(options.value.multi))
  }

  /**
    `SIMPLE_SIDE_EFFECT_EXPRESSIONS`: a call or an assignment. The list's
    third entry, the empty type name, is never any node's type.
   */
  predicate IsSimple(e: Expr) {
    e.CallExpression? || e.AssignmentExpression?
  }

  predicate IsSimpleStatement(s: Stmt) {
    s.ExpressionStatement? && IsSimple(s.expression)
  }

  /** The statement count a scope covers: exactly one, or more than one. */
  predicate FitsScope(n: nat, scope: Scope) {
    if scope == Single then n == 1 else n > 1
  }

  /** The expressions of a list of expression statements. */
  function StatementExpressions(stmts: seq<Stmt>): (es: seq<Expr>)
    requires forall i :: 0 <= i < |stmts| ==> stmts[i].ExpressionStatement?
    ensures |es| == |stmts|
    ensures forall i :: 0 <= i < |stmts| ==> es[i] == stmts[i].expression
  {
    seq(|stmts|, i requires 0 <= i < |stmts| => stmts[i].expression)
  }

  /** The expressions a `void` discards: a sequence's members, or the operand itself. */
  function Operands(arg: Expr): (es: seq<Expr>)
    ensures arg.SequenceExpression? ==> es == arg.expressions
    ensures !arg.SequenceExpression? ==> es == [arg]
  {
    if arg.SequenceExpression? then arg.expressions else [arg]
  }

  /**
    The text of `lintVoid`'s fix: `void ` and the statements' expression
    texts joined by `, `, in parentheses when there is more than one or the
    one is an assignment.
   */
  function VoidFixText(exprs: seq<Expr>): (t: string)
    requires |exprs| > 0
  {
    var joined := Join(Texts(exprs), ", ");
    "void " + (if |exprs| > 1 || exprs[0].AssignmentExpression? then "(" + joined + ")" else joined)
  }

  /** The text of `lintBody`'s fix: the expression texts joined by `;`, then `;`, in braces. */
  function BodyFixText(exprs: seq<Expr>): string
  {
    "{" + Join(Texts(exprs), ";") + ";}"
  }

  /**
    `lintVoid`: a block body whose statement count fits the scope and whose
    statements are all calls or assignments is reported, on the block, with
    a fix to a `void` expression.
   */
  function LintVoid(body: FunctionBody, scope: Scope): (r: Option<Diagnostic>)
    ensures r.Some? <==>
              && body.BlockStatement?
              && FitsScope(|body.body|, scope)
              && forall i :: 0 <= i < |body.body| ==> IsSimpleStatement(body.body[i])
    ensures r.Some? ==>
              var exprs := StatementExpressions(body.body);
              && r.value.anchor == BlockNode(body.body, body.text)
              && r.value.message == LintVoidMessage
              && r.value.replacement == VoidFixText(exprs)
              && r.value.suggestions == [Suggestion("Replace with void expression.", r.value.replacement)]
  {
    if !body.BlockStatement? then None
    else
      var stmts := body.body;
      if || |stmts| == 0
         || (scope == Single && |stmts| > 1)
         || (scope == Multi && |stmts| == 1)
         || !(forall i :: 0 <= i < |stmts| ==> IsSimpleStatement(stmts[i]))
      then None
      else
        var fix := VoidFixText(StatementExpressions(stmts));
        Some(Diagnostic(BlockNode(stmts, body.text), LintVoidMessage, fix,
                        [Suggestion("Replace with void expression.", fix)]))
  }

  /**
    `lintBody`: a `void` expression body is reported, on the `void`, with a
    fix to a block body, when its operand is not a sequence (single scope)
    or is one (multi scope) and every discarded expression is a call or an
    assignment.
   */
  function LintBody(body: FunctionBody, scope: Scope): (r: Option<Diagnostic>)
    ensures r.Some? <==>
              && body.ExpressionBody?
              && body.expression.UnaryExpression?
              && body.expression.operator == "void"
              && (scope == Single <==> !body.expression.argument.SequenceExpression?)
              && var exprs := Operands(body.expression.argument);
                 forall i :: 0 <= i < |exprs| ==> IsSimple(exprs[i])
    ensures r.Some? ==>
              && r.value.anchor == ExpressionNode(body.expression)
              && r.value.message == LintBodyMessage
              && r.value.replacement == BodyFixText(Operands(body.expression.argument))
              && r.value.suggestions == [Suggestion("Replace with function body.", r.value.replacement)]
  {
    if !(body.ExpressionBody? && body.expression.UnaryExpression? && body.expression.operator == "void") then None
    else
      var voidExpression := body.expression;
      var arg := voidExpression.argument;
      if (scope == Single && arg.SequenceExpression?) || (scope == Multi && !arg.SequenceExpression?) then None
      else
        var exprs := Operands(arg);
        if !(forall i :: 0 <= i < |exprs| ==> IsSimple(exprs[i])) then None
        else
          var fix := BodyFixText(exprs);
          assert scope == Single <==> !arg.SequenceExpression?;
          Some(Diagnostic(ExpressionNode(voidExpression), LintBodyMessage, fix,
                          [Suggestion("Replace with function body.", fix)]))
  }

  /** One scope's check, as its setting selects it: `lintVoid`, `lintBody`, or nothing. */
  function ScopeCheck(mode: Mode, body: FunctionBody, scope: Scope): Option<Diagnostic>
  {
    match mode
    case PreferVoid => LintVoid(body, scope)
    case PreferBody => LintBody(body, scope)
    case Off => None
  }

  function Reports(d: Option<Diagnostic>): seq<Diagnostic> {
    if d.Some? then [d.value] else []
  }

  /**
    The `ArrowFunctionExpression` visitor: the single-scope check, then the
    multi-scope check. At most one of them reports on any arrow.
   */
  function CheckArrow(settings: Settings, body: FunctionBody): (r: seq<Diagnostic>)
    ensures |r| <= 1
  {
    Reports(ScopeCheck(settings.single, body, Single)) + Reports(ScopeCheck(settings.multi, body, Multi))
  }
}
