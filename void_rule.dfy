/**
  The `side-effect` rule: its `UnaryExpression` visitor reports a `void`
  whose operand has no side effect, with a fix to `undefined`.
 */
module VoidRule {
  import opened Wrappers
  import opened Estree
  import opened SideEffect
  import opened Diagnostics

  const VoidMessage := "Unexpected void operator on non-side-effect argument. Use undefined instead."
  const UndefinedText := "undefined"

  /** The identifier the fix's text `undefined` parses to. */
  const UndefinedIdentifier := Other("Identifier", UndefinedText)

  /**
    The visitor on a unary expression under trap policy `p`. It reports
    exactly when the operator is `void` and the operand has no side effect,
    on the whole unary node, with a fix and a single suggestion that both
    replace it by `undefined`. It throws exactly when the classifier does;
    for any other operator the classifier is not consulted at all.
   */
  function CheckUnary(p: TrapPolicy, node: Expr): (r: Completion<Option<Diagnostic>>)
    requires node.UnaryExpression?
    ensures node.operator != "void" ==> r == Normal(None)
    ensures r == Thrown <==> node.operator == "void" && Classify(p, node.argument) == Thrown
    ensures r.Normal? && r.value.Some? <==>
              node.operator == "void" && Classify(p, node.argument) == Normal(false)
    ensures r.Normal? && r.value.Some? ==>
              && r.value.value.anchor == ExpressionNode(node)
              && r.value.value.message == VoidMessage
              && r.value.value.replacement == "undefined"
              && r.value.value.suggestions == [Suggestion("Replace with undefined.", "undefined")]
  {
    if node.operator != "void" then Normal(None)
    else match Classify(p, node.argument)
      case Thrown => Thrown
      case Normal(effect) =>
        if effect then Normal(None)
        else Normal(Some(Diagnostic(ExpressionNode(node), VoidMessage, UndefinedText,
                                    [Suggestion("Replace with undefined.", UndefinedText)])))
  }
}
