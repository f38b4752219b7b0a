/**
  What a rule hands to the host's `context.report`: the node reported on,
  the message, the text of the fix, and the named suggestions. In every
  report of these rules the fix replaces the text of the reported node, so
  a fix is represented by its replacement text alone.
 */
module Diagnostics {
  import opened Estree

  /** The node a report is anchored on, and whose text its fix replaces. */
  datatype Anchor =
    | ExpressionNode(expression: Expr)
    | BlockNode(body: seq<Stmt>, text: string)

  /** One entry of `suggest`: a description and the replacement it applies. */
  datatype Suggestion = Suggestion(desc: string, replacement: string)

  datatype Diagnostic = Diagnostic(anchor: Anchor, message: string, replacement: string,
                                   suggestions: seq<Suggestion>)
}
