/**
  What the `arrow-body` rule promises across reports: one report per arrow
  at most, fixes that settle, and a round trip between the two forms.

  A fix is followed to the node the host's parser makes of its text:
  `VoidForm` for the text of a `lintVoid` fix, `BlockForm` for that of a
  `lintBody` fix. Both keep the very expression nodes the fix's text was
  built from. `BlockForm` is what the parser makes of `{e1;e2;...;}` only
  when every `ei` may begin an expression statement (`ReadsAsStatement`);
  `ObjectPatternBodyFix` shows a fix where one may not.
 */
module ArrowBodyProperties {
  import opened Wrappers
  import opened Estree
  import opened Text
  import opened Diagnostics
  import opened ArrowBody

  /** The body `void e` or `void (e1, e2, ...)` of a `lintVoid` fix's text. */
  function VoidForm(exprs: seq<Expr>, text: string): FunctionBody
    requires |exprs| > 0
  {
    var operand := if |exprs| == 1 then exprs[0] else SequenceExpression(exprs, Join(Texts(exprs), ", "));
    ExpressionBody(UnaryExpression("void", operand, text))
  }

  /** The block `{e1;e2;...;}` of a `lintBody` fix's text. */
  function BlockForm(exprs: seq<Expr>, text: string): FunctionBody
  {
    BlockStatement(seq(|exprs|, i requires 0 <= i < |exprs| => ExpressionStatement(exprs[i], exprs[i].text + ";")), text)
  }

  function StartsWith(t: string, prefix: string): bool {
    |prefix| <= |t| && t[..|prefix|] == prefix
  }

  /**
    Whether a text may begin an expression statement. Section 14.5
    ("Expression Statement") of ECMA-262 forbids an expression statement
    to start with the token `{`, `function` or `class`, or with the token
    pairs `async function` and `let [`. The test works on characters, not
    tokens: it rejects every text that starts with `{`, `function`,
    `class`, `async` or `let`, whatever follows. That also rejects some
    texts that are allowed (an identifier `functionName`, a call
    `async(x)`, an identifier `letter`), but it lets through none that is
    forbidden, whatever the spacing or comments between the tokens.
   */
  predicate ReadsAsStatement(t: string) {
    && !StartsWith(t, "{")
    && !StartsWith(t, "function")
    && !StartsWith(t, "class")
    && !StartsWith(t, "async")
    && !StartsWith(t, "let")
  }

  predicate AllReadAsStatements(exprs: seq<Expr>) {
    forall i :: 0 <= i < |exprs| ==> ReadsAsStatement(exprs[i].text)
  }

  /** A sequence node as a parser makes it: every comma expression has at least two members. */
  predicate ParsedSequences(e: Expr) {
    e.SequenceExpression? ==> |e.expressions| >= 2
  }

  // ---------------------------------------------------------------------
  // At most one report per arrow

  /** `lintVoid` and `lintBody` never both report on one body, whatever their scopes. */
  lemma VoidAndBodyExclusive(body: FunctionBody, s1: Scope, s2: Scope)
    ensures !(LintVoid(body, s1).Some? && LintBody(body, s2).Some?)
  {
  }

  /** The single-scope and multi-scope checks never both report, whatever the settings. */
  lemma ScopesExclusive(single: Mode, multi: Mode, body: FunctionBody)
    ensures !(ScopeCheck(single, body, Single).Some? && ScopeCheck(multi, body, Multi).Some?)
  {
  }

  // ---------------------------------------------------------------------
  // Fixes settle

  /**
    After a `lintVoid` fix is applied, the arrow draws no report, from
    either scope, under the settings that produced it.
   */
  lemma VoidFixSettles(settings: Settings, body: FunctionBody, scope: Scope)
    requires (if scope == Single then settings.single else settings.multi) == PreferVoid
    requires LintVoid(body, scope).Some?
    ensures var fixed := VoidForm(StatementExpressions(body.body), LintVoid(body, scope).value.replacement);
            CheckArrow(settings, fixed) == []
  {
  }

  /**
    After a `lintBody` fix is applied to a parsed `void`, the arrow draws no
    report, from either scope, under the settings that produced it.
   */
  lemma BodyFixSettles(settings: Settings, body: FunctionBody, scope: Scope)
    requires (if scope == Single then settings.single else settings.multi) == PreferBody
    requires LintBody(body, scope).Some?
    requires ParsedSequences(body.expression.argument)
    requires AllReadAsStatements(Operands(body.expression.argument))
    ensures var fixed := BlockForm(Operands(body.expression.argument), LintBody(body, scope).value.replacement);
            CheckArrow(settings, fixed) == []
  {
  }

  // ---------------------------------------------------------------------
  // Round trips between the two forms

  /**
    A block reported by `lintVoid`, once fixed, is reported by `lintBody` in
    the same scope, whose fix is the block's expressions joined by `;`; and
    fixing that back makes `lintVoid` produce the very same `void` text.
   */
  lemma {:induction false} VoidBodyVoid(body: FunctionBody, scope: Scope)
    requires LintVoid(body, scope).Some?
    requires AllReadAsStatements(StatementExpressions(body.body))
    ensures var exprs := StatementExpressions(body.body);
            var d := LintVoid(body, scope).value;
            var back := LintBody(VoidForm(exprs, d.replacement), scope);
            && back.Some?
            && back.value.replacement == BodyFixText(exprs)
            && var again := LintVoid(BlockForm(exprs, back.value.replacement), scope);
               again.Some? && again.value.replacement == d.replacement
  {
    var exprs := StatementExpressions(body.body);
    var d := LintVoid(body, scope).value;
    var voided := VoidForm(exprs, d.replacement);
    assert Operands(voided.expression.argument) == exprs;
    var back := LintBody(voided, scope);
    var block := BlockForm(exprs, back.value.replacement);
    assert StatementExpressions(block.body) == exprs;
  }

  /**
    A parsed `void` reported by `lintBody`, once fixed, is reported by
    `lintVoid` in the same scope; and fixing that back makes `lintBody`
    produce the very same block text.
   */
  lemma {:induction false} BodyVoidBody(body: FunctionBody, scope: Scope)
    requires LintBody(body, scope).Some?
    requires ParsedSequences(body.expression.argument)
    requires AllReadAsStatements(Operands(body.expression.argument))
    ensures var exprs := Operands(body.expression.argument);
            var d := LintBody(body, scope).value;
            var back := LintVoid(BlockForm(exprs, d.replacement), scope);
            && back.Some?
            && back.value.replacement == VoidFixText(exprs)
            && var again := LintBody(VoidForm(exprs, back.value.replacement), scope);
               again.Some? && again.value.replacement == d.replacement
  {
    var exprs := Operands(body.expression.argument);
    var d := LintBody(body, scope).value;
    var block := BlockForm(exprs, d.replacement);
    assert StatementExpressions(block.body) == exprs;
    var back := LintVoid(block, scope);
    var voided := VoidForm(exprs, back.value.replacement);
    assert Operands(voided.expression.argument) == exprs;
  }

  // ---------------------------------------------------------------------
  // Worked scenarios

  /** `() => { f(); }` becomes `() => void f()`, which the body setting turns into `() => {f();}`. */
  lemma SingleCallRoundTrip()
    ensures var call := CallExpression(Other("Identifier", "f"), [], "f()");
            var block := BlockStatement([ExpressionStatement(call, "f();")], "{ f(); }");
            && LintVoid(block, Single).value.replacement == "void f()"
            && LintBody(VoidForm([call], "void f()"), Single).value.replacement == "{f();}"
  {
  }

  /** `() => { f(); x = 1; }` becomes `() => void (f(), x = 1)`. */
  lemma MultiStatementIsParenthesised()
    ensures var call := CallExpression(Other("Identifier", "f"), [], "f()");
            var assign := AssignmentExpression("=", Other("Identifier", "x"), Other("Literal", "1"), "x = 1");
            var block := BlockStatement([ExpressionStatement(call, "f();"), ExpressionStatement(assign, "x = 1;")],
                                        "{ f(); x = 1; }");
            && LintVoid(block, Multi).value.replacement == "void (f(), x = 1)"
            && LintVoid(block, Single).None?
  {
  }

  /**
    `() => void ({a} = b)`: the assignment's own text is `{a} = b`, so the
    `lintBody` fix is `{{a} = b;}`, a block holding a block, which the
    parser does not read back as the assignment statement `BlockForm`
    describes.
   */
  lemma ObjectPatternBodyFix()
    ensures var assign := AssignmentExpression("=", Other("ObjectPattern", "{a}"), Other("Identifier", "b"), "{a} = b");
            var body := ExpressionBody(UnaryExpression("void", assign, "void ({a} = b)"));
            && LintBody(body, Single).value.replacement == "{{a} = b;}"
            && !ReadsAsStatement(assign.text)
  {
  }

  /**
    `let[0] = 1` (sloppy-mode `let` used as an identifier) cannot begin a
    statement, so `{let[0] = 1;}` is not read back as `BlockForm` says, and
    the predicate rejects it.
   */
  lemma LetIndexBodyFix()
    ensures var target := MemberExpression(Other("Identifier", "let"), Other("Literal", "0"), "let[0]");
            var assign := AssignmentExpression("=", target, Other("Literal", "1"), "let[0] = 1");
            var body := ExpressionBody(UnaryExpression("void", assign, "void (let[0] = 1)"));
            && LintBody(body, Single).value.replacement == "{let[0] = 1;}"
            && !ReadsAsStatement(assign.text)
            && !ReadsAsStatement("async  function(){}()")
  {
  }
}
