/**
  The side-effect classifier of the `side-effect` rule (`createSideEffect`):
  the trap policy read from the rule's options, and `hasSideEffect`.
 */
module SideEffect {
  import opened Wrappers
  import opened Estree

  /**
    Which proxy traps count as observable: `get` for member access, `has`
    for the `in` operator, `ownKeys` for spreading an object's keys.
   */
  datatype TrapPolicy = TrapPolicy(get: bool, has: bool, ownKeys: bool)

  /**
    The `allowTraps` option, as the rule's JSON schema lets it be written:
    a boolean, or an object with any of the three boolean flags.
   */
  datatype AllowTraps =
    | AllowAll(enabled: bool)
    | AllowSome(get: Option<bool>, has: Option<bool>, ownKeys: Option<bool>)

  /** The rule's first option object, `{ allowTraps }`. */
  datatype SideEffectOptions = SideEffectOptions(allowTraps: Option<AllowTraps>)

  const NoTraps := TrapPolicy(false, false, false)
  const AllTraps := TrapPolicy(true, true, true)

  /** A flag of the option object reads as on only when it is set to `true`. */
  function FlagOn(flag: Option<bool>): (on: bool)
    ensures on <==> flag == Some(true)
  {
    flag.Some? && flag.value
  }

  /**
    The policy read from `context.options[0]`: a missing option object, a
    missing `allowTraps` or `allowTraps: false` give no traps,
    `allowTraps: true` gives all three, and an object is used as it is, so
    that a flag it leaves out reads as off.
   */
  function NormalizeTraps(options: Option<SideEffectOptions>): (p: TrapPolicy)
    ensures options.None? || options.value.allowTraps.None? ==> p == NoTraps
    ensures options == Some(SideEffectOptions(Some(AllowAll(false)))) ==> p == NoTraps
    ensures options == Some(SideEffectOptions(Some(AllowAll(true)))) ==> p == AllTraps
    ensures forall g, h, k :: options == Some(SideEffectOptions(Some(AllowSome(g, h, k)))) ==>
              (p.get <==> g == Some(true)) && (p.has <==> h == Some(true)) && (p.ownKeys <==> k == Some(true))
  {
    if options.None? || options.value.allowTraps.None? then NoTraps
    else match options.value.allowTraps.value
      case AllowAll(enabled) => if enabled then AllTraps else NoTraps
      case AllowSome(g, h, k) => TrapPolicy(FlagOn(g), FlagOn(h), FlagOn(k))
  }

  /**
    How an evaluation in the host ends: normally with a value, or by
    throwing. The classifier throws a `TypeError` when it is handed
    `undefined` for a node (it reads `undefined.type`).
   */
  datatype Completion<+T> = Normal(value: T) | Thrown

  /** JavaScript's `a || b` on completions: `b` is evaluated only if `a` is false. */
  function Or(a: Completion<bool>, b: Completion<bool>): Completion<bool>
  {
    match a
    case Thrown => Thrown
    case Normal(x) => if x then Normal(true) else b
  }

  /**
    `hasSideEffect(node)`: whether evaluating `e` may be observable, under
    trap policy `p`. The fallthroughs of the source's `switch` are kept: a
    unary other than `delete` is classified like a spread, by its argument;
    a binary that is not a trapped `in` is classified like a logical
    expression, by its two operands. A conditional is classified by its
    consequent and by its `alternative` field only; when that field is
    absent and the consequent has no side effect, the source hands
    `undefined` to itself and throws.
   */
  function Classify(p: TrapPolicy, e: Expr): Completion<bool>
    decreases e
  {
    match e
    case UpdateExpression(_, _, _) => Normal(true)
    case AssignmentExpression(_, _, _, _) => Normal(true)
    case CallExpression(_, _, _) => Normal(true)
    case OptionalCallExpression(_, _, _) => Normal(true)
    case NewExpression(_, _, _) => Normal(true)
    case YieldExpression(_, _) => Normal(true)
    case AwaitExpression(_, _) => Normal(true)
    case MemberExpression(obj, _, _) => if p.get then Normal(true) else Classify(p, obj)
    case UnaryExpression(op, arg, _) => if op == "delete" then Normal(true) else Classify(p, arg)
    case SpreadElement(arg, _) => Classify(p, arg)
    case BinaryExpression(op, l, r, _) =>
      if p.has && op == "in" then Normal(true) else Or(Classify(p, l), Classify(p, r))
    case LogicalExpression(_, l, r, _) => Or(Classify(p, l), Classify(p, r))
    case SequenceExpression(es, _) => ClassifySome(p, es)
    case ArrayExpression(es, _) => ClassifySome(p, es)
    case ConditionalExpression(_, c, _, alt, _) =>
      Or(Classify(p, c), match alt case None => Thrown case Some(a) => Classify(p, a))
    case ObjectExpression(props, _) => ClassifyMembers(p, props)
    case TemplateLiteral(es, _) => ClassifySome(p, es)
    case TaggedTemplateExpression(_, q, _) => Classify(p, q)
    case Other(_, _) => Normal(false)
  }

  /** `es.some(hasSideEffect)`: left to right, stopping at the first true. */
  function ClassifySome(p: TrapPolicy, es: seq<Expr>): Completion<bool>
    decreases es
  {
    if |es| == 0 then Normal(false) else Or(Classify(p, es[0]), ClassifySome(p, es[1..]))
  }

  /** The test applied to each entry of an object literal. */
  function ClassifyMember(p: TrapPolicy, m: ObjectMember): Completion<bool>
    decreases m
  {
    match m
    case Property(key, value, _) => Or(Classify(p, value), Classify(p, key))
    case OtherMember(_, arg, _) =>
      if p.ownKeys then Normal(true)
      else if arg.None? then Normal(false)
      else Classify(p, arg.value)
  }

  /** `properties.some(...)` over the entries of an object literal. */
  function ClassifyMembers(p: TrapPolicy, ms: seq<ObjectMember>): Completion<bool>
    decreases ms
  {
    if |ms| == 0 then Normal(false) else Or(ClassifyMember(p, ms[0]), ClassifyMembers(p, ms[1..]))
  }
}
