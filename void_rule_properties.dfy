/** What the `side-effect` rule's fix leaves behind, and worked scenarios. */
module VoidRuleProperties {
  import opened Wrappers
  import opened Estree
  import opened SideEffect
  import opened Diagnostics
  import opened VoidRule

  /**
    The fix's text is the identifier `undefined`: not a unary expression,
    so the visitor is not called on it again, and free of side effects, so
    an enclosing `void` that wraps it is classified as the `void` it
    replaced was.
   */
  lemma FixDoesNotRefire(p: TrapPolicy, node: Expr)
    requires node.UnaryExpression?
    requires CheckUnary(p, node).Normal? && CheckUnary(p, node).value.Some?
    ensures CheckUnary(p, node).value.value.replacement == UndefinedIdentifier.text
    ensures !UndefinedIdentifier.UnaryExpression?
    ensures Classify(p, UndefinedIdentifier) == Classify(p, node) == Normal(false)
  {
  }

  /** `void foo()` is left alone: a call is a side effect. */
  lemma VoidOfCallIsKept(p: TrapPolicy)
    ensures CheckUnary(p, UnaryExpression("void", CallExpression(Other("Identifier", "foo"), [], "foo()"), "void foo()"))
         == Normal(None)
  {
  }

  /** `void foo` is reported, with the fix `undefined`. */
  lemma VoidOfIdentifierIsReported(p: TrapPolicy)
    ensures CheckUnary(p, UnaryExpression("void", Other("Identifier", "foo"), "void foo")).value.Some?
  {
  }

  /** `void obj.prop` is reported with no traps, and left alone when `get` is trapped. */
  lemma VoidOfMemberDependsOnGetTrap()
    ensures var e := UnaryExpression("void", MemberExpression(Other("Identifier", "obj"), Other("Identifier", "prop"), "obj.prop"), "void obj.prop");
            && CheckUnary(NormalizeTraps(None), e).value.Some?
            && CheckUnary(NormalizeTraps(Some(SideEffectOptions(Some(AllowSome(Some(true), None, None))))), e) == Normal(None)
  {
  }
}
