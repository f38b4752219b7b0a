/**
  What the classifier promises: its decision table, kind by kind; the
  `some` semantics of its list arms; that it is monotone in the trap
  policy; and that it agrees with a flat reference definition (some node
  it reaches is a trigger).
 */
module SideEffectProperties {
  import opened Wrappers
  import opened Estree
  import opened SideEffect

  // ---------------------------------------------------------------------
  // The decision table, kind by kind

  /** Updates, assignments, calls, `new`, `yield` and `await` are side effects, whatever their children. */
  lemma AlwaysSideEffecting(p: TrapPolicy, e: Expr)
    requires e.UpdateExpression? || e.AssignmentExpression? || e.CallExpression?
          || e.OptionalCallExpression? || e.NewExpression? || e.YieldExpression?
          || e.AwaitExpression?
    ensures Classify(p, e) == Normal(true)
  {
  }

  /** A member access is a side effect when `get` is trapped; otherwise exactly when its object is. */
  lemma MemberAccess(p: TrapPolicy, obj: Expr, property: Expr, text: string)
    ensures p.get ==> Classify(p, MemberExpression(obj, property, text)) == Normal(true)
    ensures !p.get ==> Classify(p, MemberExpression(obj, property, text)) == Classify(p, obj)
  {
  }

  /** The property of a member access is never inspected. */
  lemma MemberIgnoresProperty(p: TrapPolicy, obj: Expr, prop1: Expr, prop2: Expr, t1: string, t2: string)
    ensures Classify(p, MemberExpression(obj, prop1, t1)) == Classify(p, MemberExpression(obj, prop2, t2))
  {
  }

  /** `delete` is always a side effect; any other unary, and a spread, is classified by its argument. */
  lemma UnaryAndSpread(p: TrapPolicy, op: string, arg: Expr, text: string)
    ensures op == "delete" ==> Classify(p, UnaryExpression(op, arg, text)) == Normal(true)
    ensures op != "delete" ==> Classify(p, UnaryExpression(op, arg, text)) == Classify(p, arg)
    ensures Classify(p, SpreadElement(arg, text)) == Classify(p, arg)
  {
  }

  /**
    A binary `in` is a side effect when `has` is trapped. Every other binary,
    and every logical expression, falls through to its operands: it is free
    of side effects exactly when both operands are, and is a side effect
    exactly when the left one is, or the left one is not and the right one is.
   */
  lemma BinaryAndLogical(p: TrapPolicy, op: string, l: Expr, r: Expr, text: string)
    ensures p.has && op == "in" ==> Classify(p, BinaryExpression(op, l, r, text)) == Normal(true)
    ensures !(p.has && op == "in") ==>
              Classify(p, BinaryExpression(op, l, r, text)) == Classify(p, LogicalExpression(op, l, r, text))
    ensures Classify(p, LogicalExpression(op, l, r, text)) == Normal(false) <==>
              Classify(p, l) == Normal(false) && Classify(p, r) == Normal(false)
    ensures Classify(p, LogicalExpression(op, l, r, text)) == Normal(true) <==>
              Classify(p, l) == Normal(true) || (Classify(p, l) == Normal(false) && Classify(p, r) == Normal(true))
  {
  }

  /** The test of a conditional, and its ESTree `alternate`, are never inspected. */
  lemma ConditionalIgnoresTest(p: TrapPolicy, test1: Expr, test2: Expr, c: Expr, a1: Expr, a2: Expr,
                               alt: Option<Expr>, t1: string, t2: string)
    ensures Classify(p, ConditionalExpression(test1, c, a1, alt, t1))
         == Classify(p, ConditionalExpression(test2, c, a2, alt, t2))
  {
  }

  /**
    A conditional whose `alternative` field is absent, as an ESTree parser
    leaves it, is a side effect when its consequent is, and otherwise throws.
   */
  lemma ConditionalWithoutAlternative(p: TrapPolicy, test: Expr, c: Expr, a: Expr, text: string)
    ensures Classify(p, ConditionalExpression(test, c, a, None, text))
         == if Classify(p, c) == Normal(true) then Normal(true) else Thrown
  {
  }

  /**
    With `alternative` present, a conditional is `consequent || alternative`:
    free of side effects exactly when both branches are, and a side effect
    exactly when the consequent is, or the consequent is not and the
    alternative is.
   */
  lemma ConditionalWithAlternative(p: TrapPolicy, test: Expr, c: Expr, a: Expr, alt: Expr, text: string)
    ensures Classify(p, ConditionalExpression(test, c, a, Some(alt), text)) == Normal(false) <==>
              Classify(p, c) == Normal(false) && Classify(p, alt) == Normal(false)
    ensures Classify(p, ConditionalExpression(test, c, a, Some(alt), text)) == Normal(true) <==>
              Classify(p, c) == Normal(true) || (Classify(p, c) == Normal(false) && Classify(p, alt) == Normal(true))
  {
  }

  /**
    A keyed entry triggers exactly when its value does, or its value does
    not and its key does; it is clear exactly when both are. Any other
    entry triggers when `ownKeys` is trapped, and otherwise is classified
    by its argument, a missing argument reading as no side effect.
   */
  lemma ObjectMemberRule(p: TrapPolicy, m: ObjectMember)
    ensures m.Property? ==> (ClassifyMember(p, m) == Normal(false) <==>
              Classify(p, m.value) == Normal(false) && Classify(p, m.key) == Normal(false))
    ensures m.Property? ==> (ClassifyMember(p, m) == Normal(true) <==>
              Classify(p, m.value) == Normal(true)
              || (Classify(p, m.value) == Normal(false) && Classify(p, m.key) == Normal(true)))
    ensures m.OtherMember? && p.ownKeys ==> ClassifyMember(p, m) == Normal(true)
    ensures m.OtherMember? && !p.ownKeys ==>
              ClassifyMember(p, m) == if m.argument.None? then Normal(false) else Classify(p, m.argument.value)
  {
  }

  /**
    A tagged template is classified by its template alone: the tag, though
    it is called, is never inspected, so ``void tag`x` `` is reported.
   */
  lemma TaggedTemplateIgnoresTag(p: TrapPolicy, tag1: Expr, tag2: Expr, quasi: Expr, t1: string, t2: string)
    ensures Classify(p, TaggedTemplateExpression(tag1, quasi, t1))
         == Classify(p, TaggedTemplateExpression(tag2, quasi, t2))
         == Classify(p, quasi)
  {
  }

  /** Identifiers, literals and every other unrecognised kind are free of side effects. */
  lemma UnrecognisedKind(p: TrapPolicy, typeName: string, text: string)
    ensures Classify(p, Other(typeName, text)) == Normal(false)
  {
  }

  // ---------------------------------------------------------------------
  // `some` over the list arms

  /** `ClassifySome` is `es.some(hasSideEffect)`: true at the first true element, with no throw before it. */
  lemma {:induction false} SomeSemantics(p: TrapPolicy, es: seq<Expr>)
    ensures ClassifySome(p, es) == Normal(false) <==>
              forall i :: 0 <= i < |es| ==> Classify(p, es[i]) == Normal(false)
    ensures ClassifySome(p, es) == Normal(true) <==>
              exists i :: 0 <= i < |es| && Classify(p, es[i]) == Normal(true)
                && forall j :: 0 <= j < i ==> Classify(p, es[j]) == Normal(false)
  {
    if |es| > 0 {
      SomeSemantics(p, es[1..]);
      assert forall i :: 0 < i < |es| ==> es[i] == es[1..][i - 1];
      if ClassifySome(p, es) == Normal(true) && Classify(p, es[0]) != Normal(true) {
        var k :| 0 <= k < |es[1..]| && Classify(p, es[1..][k]) == Normal(true)
          && forall j :: 0 <= j < k ==> Classify(p, es[1..][j]) == Normal(false);
        assert Classify(p, es[k + 1]) == Normal(true);
      }
      if exists i :: 0 <= i < |es| && Classify(p, es[i]) == Normal(true)
           && forall j :: 0 <= j < i ==> Classify(p, es[j]) == Normal(false) {
        var k :| 0 <= k < |es| && Classify(p, es[k]) == Normal(true)
          && forall j :: 0 <= j < k ==> Classify(p, es[j]) == Normal(false);
        if k > 0 {
          assert Classify(p, es[1..][k - 1]) == Normal(true);
        }
      }
    }
  }

  /**
    `properties.some(...)`: an object literal is free of side effects
    exactly when no entry triggers, and is a side effect exactly when some
    entry triggers and every entry before it is clear (none throws first).
   */
  lemma {:induction false} MembersSemantics(p: TrapPolicy, ms: seq<ObjectMember>)
    ensures ClassifyMembers(p, ms) == Normal(false) <==>
              forall i :: 0 <= i < |ms| ==> ClassifyMember(p, ms[i]) == Normal(false)
    ensures ClassifyMembers(p, ms) == Normal(true) <==>
              exists i :: 0 <= i < |ms| && ClassifyMember(p, ms[i]) == Normal(true)
                && forall j :: 0 <= j < i ==> ClassifyMember(p, ms[j]) == Normal(false)
  {
    if |ms| > 0 {
      MembersSemantics(p, ms[1..]);
      assert forall i :: 0 < i < |ms| ==> ms[i] == ms[1..][i - 1];
      if ClassifyMembers(p, ms) == Normal(true) && ClassifyMember(p, ms[0]) != Normal(true) {
        var k :| 0 <= k < |ms[1..]| && ClassifyMember(p, ms[1..][k]) == Normal(true)
          && forall j :: 0 <= j < k ==> ClassifyMember(p, ms[1..][j]) == Normal(false);
        assert ClassifyMember(p, ms[k + 1]) == Normal(true);
      }
      if exists i :: 0 <= i < |ms| && ClassifyMember(p, ms[i]) == Normal(true)
           && forall j :: 0 <= j < i ==> ClassifyMember(p, ms[j]) == Normal(false) {
        var k :| 0 <= k < |ms| && ClassifyMember(p, ms[k]) == Normal(true)
          && forall j :: 0 <= j < k ==> ClassifyMember(p, ms[j]) == Normal(false);
        if k > 0 {
          assert ClassifyMember(p, ms[1..][k - 1]) == Normal(true);
        }
      }
    }
  }

  // ---------------------------------------------------------------------
  // Monotonicity in the trap policy

  /** Every trap `p` observes, `q` observes too. */
  predicate Weaker(p: TrapPolicy, q: TrapPolicy) {
    (p.get ==> q.get) && (p.has ==> q.has) && (p.ownKeys ==> q.ownKeys)
  }

  /** `b` is `a` or a side effect: turning traps on can only turn a verdict into true. */
  predicate Raised(a: Completion<bool>, b: Completion<bool>) {
    a == b || b == Normal(true)
  }

  lemma OrRaised(a1: Completion<bool>, a2: Completion<bool>, b1: Completion<bool>, b2: Completion<bool>)
    requires Raised(a1, a2) && Raised(b1, b2)
    ensures Raised(Or(a1, b1), Or(a2, b2))
  {
  }

  /**
    Turning trap flags on never turns a side effect into none (nor any other
    verdict into anything but a side effect).
   */
  lemma {:induction false} ClassifyMonotone(p: TrapPolicy, q: TrapPolicy, e: Expr)
    requires Weaker(p, q)
    ensures Raised(Classify(p, e), Classify(q, e))
    ensures Classify(p, e) == Normal(true) ==> Classify(q, e) == Normal(true)
    decreases e
  {
    match e
    case MemberExpression(obj, _, _) => ClassifyMonotone(p, q, obj);
    case UnaryExpression(_, arg, _) => ClassifyMonotone(p, q, arg);
    case SpreadElement(arg, _) => ClassifyMonotone(p, q, arg);
    case BinaryExpression(_, l, r, _) =>
      ClassifyMonotone(p, q, l); ClassifyMonotone(p, q, r);
      OrRaised(Classify(p, l), Classify(q, l), Classify(p, r), Classify(q, r));
    case LogicalExpression(_, l, r, _) =>
      ClassifyMonotone(p, q, l); ClassifyMonotone(p, q, r);
      OrRaised(Classify(p, l), Classify(q, l), Classify(p, r), Classify(q, r));
    case SequenceExpression(es, _) => ClassifySomeMonotone(p, q, es);
    case ArrayExpression(es, _) => ClassifySomeMonotone(p, q, es);
    case ConditionalExpression(_, c, _, alt, _) =>
      ClassifyMonotone(p, q, c);
      if alt.Some? {
        ClassifyMonotone(p, q, alt.value);
      }
    case ObjectExpression(ms, _) => ClassifyMembersMonotone(p, q, ms);
    case TemplateLiteral(es, _) => ClassifySomeMonotone(p, q, es);
    case TaggedTemplateExpression(_, quasi, _) => ClassifyMonotone(p, q, quasi);
    case _ =>
  }

  lemma {:induction false} ClassifySomeMonotone(p: TrapPolicy, q: TrapPolicy, es: seq<Expr>)
    requires Weaker(p, q)
    ensures Raised(ClassifySome(p, es), ClassifySome(q, es))
    decreases es
  {
    if |es| > 0 {
      ClassifyMonotone(p, q, es[0]);
      ClassifySomeMonotone(p, q, es[1..]);
      OrRaised(Classify(p, es[0]), Classify(q, es[0]), ClassifySome(p, es[1..]), ClassifySome(q, es[1..]));
    }
  }

  lemma {:induction false} ClassifyMemberMonotone(p: TrapPolicy, q: TrapPolicy, m: ObjectMember)
    requires Weaker(p, q)
    ensures Raised(ClassifyMember(p, m), ClassifyMember(q, m))
    decreases m
  {
    match m
    case Property(key, value, _) =>
      ClassifyMonotone(p, q, value); ClassifyMonotone(p, q, key);
      OrRaised(Classify(p, value), Classify(q, value), Classify(p, key), Classify(q, key));
    case OtherMember(_, arg, _) =>
      if arg.Some? {
        ClassifyMonotone(p, q, arg.value);
      }
  }

  lemma {:induction false} ClassifyMembersMonotone(p: TrapPolicy, q: TrapPolicy, ms: seq<ObjectMember>)
    requires Weaker(p, q)
    ensures Raised(ClassifyMembers(p, ms), ClassifyMembers(q, ms))
    decreases ms
  {
    if |ms| > 0 {
      ClassifyMemberMonotone(p, q, ms[0]);
      ClassifyMembersMonotone(p, q, ms[1..]);
      OrRaised(ClassifyMember(p, ms[0]), ClassifyMember(q, ms[0]), ClassifyMembers(p, ms[1..]), ClassifyMembers(q, ms[1..]));
    }
  }
}
