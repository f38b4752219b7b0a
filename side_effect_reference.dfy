/**
  A flat reference definition of the classifier: the nodes it can reach
  from a root (never a member's property, never a conditional's test), and
  the nodes that are triggers in their own right under a trap policy. The
  lemmas here show that the recursive classifier says "side effect"
  exactly when some reached node is a trigger, provided it does not throw,
  and that it throws only if it reaches a conditional without an
  `alternative`.
 */
module SideEffectReference {
  import opened Wrappers
  import opened Estree
  import opened SideEffect

  /** The nodes the classifier may descend to from `e`, `e` included. */
  function Reached(e: Expr): set<Expr>
    decreases e
  {
    {e} +
    match e
    case MemberExpression(obj, _, _) => Reached(obj)
    case UnaryExpression(_, arg, _) => Reached(arg)
    case SpreadElement(arg, _) => Reached(arg)
    case BinaryExpression(_, l, r, _) => Reached(l) + Reached(r)
    case LogicalExpression(_, l, r, _) => Reached(l) + Reached(r)
    case SequenceExpression(es, _) => ReachedAll(es)
    case ArrayExpression(es, _) => ReachedAll(es)
    case ConditionalExpression(_, c, _, alt, _) =>
      Reached(c) + (if alt.Some? then Reached(alt.value) else {})
    case ObjectExpression(ms, _) => ReachedMembers(ms)
    case TemplateLiteral(es, _) => ReachedAll(es)
    case TaggedTemplateExpression(_, quasi, _) => Reached(quasi)
    case _ => {}
  }

  function ReachedAll(es: seq<Expr>): set<Expr>
    decreases es
  {
    if |es| == 0 then {} else Reached(es[0]) + ReachedAll(es[1..])
  }

  function ReachedMember(m: ObjectMember): set<Expr>
    decreases m
  {
    match m
    case Property(key, value, _) => Reached(value) + Reached(key)
    case OtherMember(_, arg, _) => if arg.Some? then Reached(arg.value) else {}
  }

  function ReachedMembers(ms: seq<ObjectMember>): set<Expr>
    decreases ms
  {
    if |ms| == 0 then {} else ReachedMember(ms[0]) + ReachedMembers(ms[1..])
  }

  /** A node that is a side effect by its own shape, whatever its children. */
  predicate Trigger(p: TrapPolicy, e: Expr) {
    || e.UpdateExpression? || e.AssignmentExpression? || e.CallExpression?
    || e.OptionalCallExpression? || e.NewExpression? || e.YieldExpression?
    || e.AwaitExpression?
    || (e.MemberExpression? && p.get)
    || (e.UnaryExpression? && e.operator == "delete")
    || (e.BinaryExpression? && e.operator == "in" && p.has)
    || (e.ObjectExpression? && p.ownKeys && exists i :: 0 <= i < |e.properties| && e.properties[i].OtherMember?)
  }

  /** A reached conditional that lacks the `alternative` field the classifier reads. */
  predicate MissingAlternative(e: Expr) {
    e.ConditionalExpression? && e.alternative.None?
  }

  // ---------------------------------------------------------------------
  // A side effect is found only at a trigger

  lemma {:induction false} EffectHasTrigger(p: TrapPolicy, e: Expr)
    requires Classify(p, e) == Normal(true)
    ensures exists t :: t in Reached(e) && Trigger(p, t)
    decreases e
  {
    if !Trigger(p, e) {
      match e
      case MemberExpression(obj, _, _) => EffectHasTrigger(p, obj);
      case UnaryExpression(_, arg, _) => EffectHasTrigger(p, arg);
      case SpreadElement(arg, _) => EffectHasTrigger(p, arg);
      case BinaryExpression(_, l, r, _) =>
        if Classify(p, l) == Normal(true) { EffectHasTrigger(p, l); } else { EffectHasTrigger(p, r); }
      case LogicalExpression(_, l, r, _) =>
        if Classify(p, l) == Normal(true) { EffectHasTrigger(p, l); } else { EffectHasTrigger(p, r); }
      case SequenceExpression(es, _) => SomeEffectHasTrigger(p, es);
      case ArrayExpression(es, _) => SomeEffectHasTrigger(p, es);
      case ConditionalExpression(_, c, _, alt, _) =>
        if Classify(p, c) == Normal(true) { EffectHasTrigger(p, c); } else { EffectHasTrigger(p, alt.value); }
      case ObjectExpression(ms, _) => MembersEffectHasTrigger(p, ms);
      case TemplateLiteral(es, _) => SomeEffectHasTrigger(p, es);
      case TaggedTemplateExpression(_, quasi, _) => EffectHasTrigger(p, quasi);
    }
  }

  lemma {:induction false} SomeEffectHasTrigger(p: TrapPolicy, es: seq<Expr>)
    requires ClassifySome(p, es) == Normal(true)
    ensures exists t :: t in ReachedAll(es) && Trigger(p, t)
    decreases es
  {
    if Classify(p, es[0]) == Normal(true) {
      EffectHasTrigger(p, es[0]);
    } else {
      SomeEffectHasTrigger(p, es[1..]);
    }
  }

  lemma {:induction false} MemberEffectHasTrigger(p: TrapPolicy, m: ObjectMember)
    requires p.ownKeys ==> m.Property?
    requires ClassifyMember(p, m) == Normal(true)
    ensures exists t :: t in ReachedMember(m) && Trigger(p, t)
    decreases m
  {
    match m
    case Property(key, value, _) =>
      if Classify(p, value) == Normal(true) { EffectHasTrigger(p, value); } else { EffectHasTrigger(p, key); }
    case OtherMember(_, arg, _) => EffectHasTrigger(p, arg.value);
  }

  lemma {:induction false} MembersEffectHasTrigger(p: TrapPolicy, ms: seq<ObjectMember>)
    requires p.ownKeys ==> forall i :: 0 <= i < |ms| ==> ms[i].Property?
    requires ClassifyMembers(p, ms) == Normal(true)
    ensures exists t :: t in ReachedMembers(ms) && Trigger(p, t)
    decreases ms
  {
    if ClassifyMember(p, ms[0]) == Normal(true) {
      MemberEffectHasTrigger(p, ms[0]);
    } else {
      assert forall i :: 0 <= i < |ms| - 1 ==> ms[1..][i] == ms[i + 1];
      MembersEffectHasTrigger(p, ms[1..]);
    }
  }

  // ---------------------------------------------------------------------
  // No side effect means no reached trigger

  lemma {:induction false} NoEffectHasNoTrigger(p: TrapPolicy, e: Expr)
    requires Classify(p, e) == Normal(false)
    ensures forall t :: t in Reached(e) ==> !Trigger(p, t)
    decreases e
  {
    match e
    case MemberExpression(obj, _, _) => NoEffectHasNoTrigger(p, obj);
    case UnaryExpression(_, arg, _) => NoEffectHasNoTrigger(p, arg);
    case SpreadElement(arg, _) => NoEffectHasNoTrigger(p, arg);
    case BinaryExpression(_, l, r, _) => NoEffectHasNoTrigger(p, l); NoEffectHasNoTrigger(p, r);
    case LogicalExpression(_, l, r, _) => NoEffectHasNoTrigger(p, l); NoEffectHasNoTrigger(p, r);
    case SequenceExpression(es, _) => SomeNoEffectHasNoTrigger(p, es);
    case ArrayExpression(es, _) => SomeNoEffectHasNoTrigger(p, es);
    case ConditionalExpression(_, c, _, alt, _) =>
      NoEffectHasNoTrigger(p, c); NoEffectHasNoTrigger(p, alt.value);
    case ObjectExpression(ms, _) =>
      MembersNoEffectHasNoTrigger(p, ms);
      if p.ownKeys {
        forall i | 0 <= i < |ms| ensures ms[i].Property? {
          MembersNoEffectAt(p, ms, i);
        }
      }
    case TemplateLiteral(es, _) => SomeNoEffectHasNoTrigger(p, es);
    case TaggedTemplateExpression(_, quasi, _) => NoEffectHasNoTrigger(p, quasi);
    case Other(_, _) =>
  }

  lemma {:induction false} SomeNoEffectHasNoTrigger(p: TrapPolicy, es: seq<Expr>)
    requires ClassifySome(p, es) == Normal(false)
    ensures forall t :: t in ReachedAll(es) ==> !Trigger(p, t)
    decreases es
  {
    if |es| > 0 {
      NoEffectHasNoTrigger(p, es[0]);
      SomeNoEffectHasNoTrigger(p, es[1..]);
    }
  }

  lemma {:induction false} MemberNoEffectHasNoTrigger(p: TrapPolicy, m: ObjectMember)
    requires ClassifyMember(p, m) == Normal(false)
    ensures forall t :: t in ReachedMember(m) ==> !Trigger(p, t)
    decreases m
  {
    match m
    case Property(key, value, _) => NoEffectHasNoTrigger(p, value); NoEffectHasNoTrigger(p, key);
    case OtherMember(_, arg, _) =>
      if arg.Some? {
        NoEffectHasNoTrigger(p, arg.value);
      }
  }

  lemma {:induction false} MembersNoEffectHasNoTrigger(p: TrapPolicy, ms: seq<ObjectMember>)
    requires ClassifyMembers(p, ms) == Normal(false)
    ensures forall t :: t in ReachedMembers(ms) ==> !Trigger(p, t)
    decreases ms
  {
    if |ms| > 0 {
      MemberNoEffectHasNoTrigger(p, ms[0]);
      MembersNoEffectHasNoTrigger(p, ms[1..]);
    }
  }

  /** Each entry of an object literal free of side effects is itself free of them. */
  lemma {:induction false} MembersNoEffectAt(p: TrapPolicy, ms: seq<ObjectMember>, i: nat)
    requires ClassifyMembers(p, ms) == Normal(false)
    requires i < |ms|
    ensures ClassifyMember(p, ms[i]) == Normal(false)
    decreases i
  {
    if i > 0 {
      MembersNoEffectAt(p, ms[1..], i - 1);
    }
  }

  // ---------------------------------------------------------------------
  // Throwing needs a conditional without `alternative`

  lemma {:induction false} ThrowNeedsMissingAlternative(p: TrapPolicy, e: Expr)
    requires Classify(p, e) == Thrown
    ensures exists t :: t in Reached(e) && MissingAlternative(t)
    decreases e
  {
    match e
    case MemberExpression(obj, _, _) => ThrowNeedsMissingAlternative(p, obj);
    case UnaryExpression(_, arg, _) => ThrowNeedsMissingAlternative(p, arg);
    case SpreadElement(arg, _) => ThrowNeedsMissingAlternative(p, arg);
    case BinaryExpression(_, l, r, _) =>
      if Classify(p, l) == Thrown { ThrowNeedsMissingAlternative(p, l); } else { ThrowNeedsMissingAlternative(p, r); }
    case LogicalExpression(_, l, r, _) =>
      if Classify(p, l) == Thrown { ThrowNeedsMissingAlternative(p, l); } else { ThrowNeedsMissingAlternative(p, r); }
    case SequenceExpression(es, _) => SomeThrowNeedsMissingAlternative(p, es);
    case ArrayExpression(es, _) => SomeThrowNeedsMissingAlternative(p, es);
    case ConditionalExpression(_, c, _, alt, _) =>
      if Classify(p, c) == Thrown {
        ThrowNeedsMissingAlternative(p, c);
      } else if alt.Some? {
        ThrowNeedsMissingAlternative(p, alt.value);
      } else {
        assert e in Reached(e) && MissingAlternative(e);
      }
    case ObjectExpression(ms, _) => MembersThrowNeedsMissingAlternative(p, ms);
    case TemplateLiteral(es, _) => SomeThrowNeedsMissingAlternative(p, es);
    case TaggedTemplateExpression(_, quasi, _) => ThrowNeedsMissingAlternative(p, quasi);
  }

  lemma {:induction false} SomeThrowNeedsMissingAlternative(p: TrapPolicy, es: seq<Expr>)
    requires ClassifySome(p, es) == Thrown
    ensures exists t :: t in ReachedAll(es) && MissingAlternative(t)
    decreases es
  {
    if Classify(p, es[0]) == Thrown {
      ThrowNeedsMissingAlternative(p, es[0]);
    } else {
      SomeThrowNeedsMissingAlternative(p, es[1..]);
    }
  }

  lemma {:induction false} MemberThrowNeedsMissingAlternative(p: TrapPolicy, m: ObjectMember)
    requires ClassifyMember(p, m) == Thrown
    ensures exists t :: t in ReachedMember(m) && MissingAlternative(t)
    decreases m
  {
    match m
    case Property(key, value, _) =>
      if Classify(p, value) == Thrown {
        ThrowNeedsMissingAlternative(p, value);
      } else {
        ThrowNeedsMissingAlternative(p, key);
      }
    case OtherMember(_, arg, _) => ThrowNeedsMissingAlternative(p, arg.value);
  }

  lemma {:induction false} MembersThrowNeedsMissingAlternative(p: TrapPolicy, ms: seq<ObjectMember>)
    requires ClassifyMembers(p, ms) == Thrown
    ensures exists t :: t in ReachedMembers(ms) && MissingAlternative(t)
    decreases ms
  {
    if ClassifyMember(p, ms[0]) == Thrown {
      MemberThrowNeedsMissingAlternative(p, ms[0]);
    } else {
      MembersThrowNeedsMissingAlternative(p, ms[1..]);
    }
  }

  // ---------------------------------------------------------------------
  // Agreement with the reference definition

  /**
    On a tree where every reached conditional has its `alternative`, the
    classifier never throws, and it says "side effect" exactly when some
    reached node is a trigger.
   */
  lemma ClassifyMatchesReference(p: TrapPolicy, e: Expr)
    requires forall t :: t in Reached(e) ==> !MissingAlternative(t)
    ensures Classify(p, e).Normal?
    ensures Classify(p, e).value <==> exists t :: t in Reached(e) && Trigger(p, t)
  {
    match Classify(p, e)
    case Thrown => ThrowNeedsMissingAlternative(p, e);
    case Normal(b) =>
      if b {
        EffectHasTrigger(p, e);
      } else {
        NoEffectHasNoTrigger(p, e);
      }
  }

  /**
    Whether or not it throws, the classifier never clears an expression in
    which some reached node is a trigger.
   */
  lemma TriggerIsNeverCleared(p: TrapPolicy, e: Expr, t: Expr)
    requires t in Reached(e) && Trigger(p, t)
    ensures Classify(p, e) != Normal(false)
  {
    if Classify(p, e) == Normal(false) {
      NoEffectHasNoTrigger(p, e);
    }
  }
}
