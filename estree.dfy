/**
  The slice of the ESTree syntax tree that the two rules look at.

  Every node carries the host's source text for it (`text`), which stands in
  for what the host's `getText(node)` would return. Children that the rules
  never look at are kept where it matters for stating that they are never
  looked at (the property of a member access, the test of a conditional).
 */
module Estree {
  import opened Wrappers

  /** Expression nodes, by their ESTree `type`. */
  datatype Expr =
    | UpdateExpression(operator: string, argument: Expr, text: string)
    | AssignmentExpression(operator: string, left: Expr, right: Expr, text: string)
    | CallExpression(callee: Expr, arguments: seq<Expr>, text: string)
    | OptionalCallExpression(callee: Expr, arguments: seq<Expr>, text: string)
    | NewExpression(callee: Expr, arguments: seq<Expr>, text: string)
    | YieldExpression(yielded: Option<Expr>, text: string)
    | AwaitExpression(argument: Expr, text: string)
      /** `obj.property` or `obj[property]`; ESTree calls `obj` `object`. */
    | MemberExpression(obj: Expr, property: Expr, text: string)
    | UnaryExpression(operator: string, argument: Expr, text: string)
    | SpreadElement(argument: Expr, text: string)
    | BinaryExpression(operator: string, left: Expr, right: Expr, text: string)
    | LogicalExpression(operator: string, left: Expr, right: Expr, text: string)
    | SequenceExpression(expressions: seq<Expr>, text: string)
    | ArrayExpression(elements: seq<Expr>, text: string)
      /**
        `test ? consequent : alternate`. ESTree names the else-branch
        `alternate`; the classifier reads a field `alternative` instead,
        which an ESTree parser never sets (None). Both are kept.
       */
    | ConditionalExpression(test: Expr, consequent: Expr, alternate: Expr,
                            alternative: Option<Expr>, text: string)
    | ObjectExpression(properties: seq<ObjectMember>, text: string)
    | TemplateLiteral(expressions: seq<Expr>, text: string)
    | TaggedTemplateExpression(tag: Expr, quasi: Expr, text: string)
      /** Every other kind: identifiers, literals, functions, `this`, ... */
    | Other(typeName: string, text: string)

  /**
    An entry of an object literal: a keyed `Property`, or anything else
    (a spread entry, under whatever type name the parser gives it), whose
    `argument` may be missing.
   */
  datatype ObjectMember =
    | Property(key: Expr, value: Expr, text: string)
    | OtherMember(typeName: string, argument: Option<Expr>, text: string)

  /** A statement of a block body. */
  datatype Stmt =
    | ExpressionStatement(expression: Expr, text: string)
    | OtherStatement(typeName: string, text: string)

  /** The `body` of an arrow function: a block, or a bare expression. */
  datatype FunctionBody =
    | BlockStatement(body: seq<Stmt>, text: string)
    | ExpressionBody(expression: Expr)

  /** The texts of a list of expressions, in order. */
  function Texts(es: seq<Expr>): (ts: seq<string>)
    ensures |ts| == |es|
    ensures forall i :: 0 <= i < |es| ==> ts[i] == es[i].text
  {
    seq(|es|, i requires 0 <= i < |es| => es[i].text)
  }
}
