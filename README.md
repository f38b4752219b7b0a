# eslint-plugin-void, modelled in Dafny

This project models the two lint rules of `eslint-plugin-void` (all of its
logic lives in `index.js`) and proves what they promise.

- **`side-effect`** reports a `void X` whose operand `X` has no side effect,
  with a fix (and one suggestion) that replaces the whole node by
  `undefined`. Whether `X` has a side effect is decided by the recursive
  classifier `hasSideEffect`. The classifier takes a trap policy
  (`get`, `has`, `ownKeys`) read from the rule's `allowTraps` option.
- **`arrow-body`** checks each arrow function against two settings:
  `single` (a body of one statement) and `multi` (more than one). Each is
  `'void'` (the default), `'body'` or `false`. `lintVoid` rewrites a block
  of calls and assignments into a `void (a, b)` expression. `lintBody`
  rewrites a `void` of calls and assignments into a `{a;b;}` block.

Everything is pure: datatypes, functions and lemmas.

- `estree.dfy` holds the syntax-tree nodes. Each node carries its source
  text, which stands for the host's `getText`.
- `side_effect.dfy` holds the trap policy, its normalisation and the
  classifier (`Classify`).
- `side_effect_properties.dfy` proves the classifier's decision table kind
  by kind, the `some` semantics of its list arms, and that it is monotone
  in the policy.
- `side_effect_reference.dfy` defines the classifier a second time, flat:
  the set of nodes it reaches, and the nodes that are triggers by their own
  shape. Its lemmas show the two definitions agree.
- `void_rule.dfy` and `void_rule_properties.dfy` hold the `side-effect`
  rule.
- `arrow_body.dfy` and `arrow_body_properties.dfy` hold the `arrow-body`
  rule. The properties are: at most one report per arrow, fixes that
  settle, and round trips between the two forms.

Host calls are replaced by values. `context.report` becomes a returned
`Diagnostic` record: the anchor node, the message, the replacement text of
the fix, and the suggestions. `fixer.replaceText` always replaces the
anchor node, so a fix is just its replacement text.

Three quirks of the source are kept on purpose:

- **Fallthroughs.** A unary other than `delete` is classified by its
  argument, like a spread. A binary that is not a trapped `in` is
  classified by its operands, like a logical expression.
- **The conditional arm.** It reads `consequent` and a field
  `alternative`. The ESTree field is `alternate`, which is never read, and
  neither is the test. `alternative` is an `Option` that an ESTree parser
  leaves unset. When it is unset and the consequent has no side effect, the
  source calls `hasSideEffect(undefined)`, which throws a `TypeError`. So
  the classifier returns a `Completion`: either `Normal(b)` or `Thrown`.
  The `side-effect` rule throws exactly when the classifier does.
- **The tagged-template arm.** It reads only `quasi`, the template. The
  tag is never inspected, although it is called, so ``void tag`x` `` is
  reported and replaced by `undefined` (index.js:54-55).

One more detail of the code is kept: unless `ownKeys` is trapped
(index.js:48), a non-`Property` object entry with no `argument` reads as
no side effect (index.js:49).

## Model

| member | source | states |
|---|---|---|
| SideEffect.NormalizeTraps | index.js:2-11 | These give no traps: no option object, no `allowTraps`, or `allowTraps: false`. `true` gives all three traps. An object is used as given, so a flag counts as on only when it is `true` |
| SideEffect.Classify | index.js:12-58 | `hasSideEffect` itself. It has no contract of its own: the lemmas of `SideEffectProperties` and `SideEffectReference` state its properties (`AlwaysSideEffecting` through `UnrecognisedKind`, `ClassifyMonotone`, `ClassifyMatchesReference`) |
| SideEffect.ClassifySome | index.js:33-36 | `expressions.some(hasSideEffect)` and `elements.some(hasSideEffect)`, also used for template literals (index.js:52-53). No contract of its own; `SomeSemantics` states its meaning |
| SideEffect.ClassifyMember | index.js:40-50 | The test `some` applies to one object entry. No contract of its own; `ObjectMemberRule` states it |
| SideEffect.ClassifyMembers | index.js:39-51 | `properties.some(...)` over an object literal. No contract of its own; `MembersSemantics` states it |
| SideEffectProperties.AlwaysSideEffecting | index.js:14-21 | Update, assignment, call, optional call, `new`, `yield` and `await` are side effects, whatever their children |
| SideEffectProperties.MemberAccess | index.js:22-24 | A member access is a side effect when `get` is trapped. Otherwise it is classified exactly as its object is |
| SideEffectProperties.MemberIgnoresProperty | index.js:22-24 | A member access's property never affects its classification |
| SideEffectProperties.UnaryAndSpread | index.js:25-28 | `delete` is always a side effect. Any other unary, and a spread, is classified exactly as its argument (the fallthrough) |
| SideEffectProperties.BinaryAndLogical | index.js:29-32 | A binary `in` with `has` trapped is a side effect. Every other binary is classified like a logical expression. That result is false iff both operands are false, and true iff the left is true, or the left is false and the right is true |
| SideEffectProperties.ConditionalIgnoresTest | index.js:37-38 | The test and the ESTree `alternate` of a conditional never affect its classification |
| SideEffectProperties.ConditionalWithoutAlternative | index.js:37-38 | With `alternative` unset, a conditional is a side effect if its consequent is one. Otherwise classifying it throws |
| SideEffectProperties.ConditionalWithAlternative | index.js:37-38 | With `alternative` set, a conditional has no side effect iff neither branch has one. It is a side effect iff the consequent is, or the consequent has none and the alternative is one |
| SideEffectProperties.ObjectMemberRule | index.js:39-51 | A keyed property has no side effect iff its value and its key have none. It triggers iff its value does, or its value does not and its key does. Any other entry triggers when `ownKeys` is trapped. Otherwise it is classified by its argument, and a missing argument means no side effect |
| SideEffectProperties.MembersSemantics | index.js:39-51 | An object literal has no side effect iff none of its entries has one. It is a side effect iff some entry triggers and every entry before it is clear |
| SideEffectProperties.SomeSemantics | index.js:33-36 | Sequence, array and template lists follow `some`. The list is false iff every element is false. It is true iff some element is true and every element before it is false |
| SideEffectProperties.TaggedTemplateIgnoresTag | index.js:54-55 | A tagged template is classified exactly as its template. The tag never affects the verdict |
| SideEffectProperties.UnrecognisedKind | index.js:56-57 | Every unrecognised kind (identifiers, literals, ...) has no side effect |
| SideEffectProperties.ClassifyMonotone | index.js:12-58 | Turning trap flags on never turns a side effect into none. A verdict either stays the same or becomes "side effect" |
| SideEffectReference.EffectHasTrigger | index.js:12-58 | If an expression is classified as a side effect, some node the classifier reaches is a trigger by its own shape |
| SideEffectReference.NoEffectHasNoTrigger | index.js:12-58 | If an expression is classified as having no side effect, no node the classifier reaches is a trigger |
| SideEffectReference.ThrowNeedsMissingAlternative | index.js:37-38 | Classification throws only if it reaches a conditional whose `alternative` is unset |
| SideEffectReference.ClassifyMatchesReference | index.js:12-58 | If every reached conditional has `alternative` set, classification never throws. It then says "side effect" iff some reached node is a trigger |
| SideEffectReference.TriggerIsNeverCleared | index.js:12-58 | An expression in which a reached node is a trigger is never classified as having no side effect |
| VoidRule.CheckUnary | index.js:61-73 | The rule reports iff the operator is `void` and the operand has no side effect. It throws iff the classifier throws. For any other operator it does nothing. A report is on the unary node, with the source's message, and both the fix and the single suggestion replace the node by `undefined` |
| VoidRuleProperties.FixDoesNotRefire | index.js:61-73 | The fix's text is the identifier `undefined`. It is not a unary expression, so the visitor does not fire on it. It has no side effect, just like the `void` it replaced |
| VoidRuleProperties.VoidOfCallIsKept | index.js:61-73 | `void foo()` is not reported |
| VoidRuleProperties.VoidOfIdentifierIsReported | index.js:61-73 | `void foo` is reported |
| VoidRuleProperties.VoidOfMemberDependsOnGetTrap | index.js:2-11 | `void obj.prop` is reported with no traps, and not reported with `allowTraps: { get: true }` |
| ArrowBody.SettingOf | index.js:83-86 | A scope left unset reads as `'void'`. A scope that is set keeps its setting |
| ArrowBody.ReadSettings | index.js:83-86 | A scope that is unset, or has no option object, reads as `'void'`. A scope that is set keeps its setting |
| ArrowBody.Operands | index.js:129-131 | A `void`'s discarded expressions are a sequence's members, or else the operand itself |
| ArrowBody.IsSimple | index.js:78-82 | Membership in `SIMPLE_SIDE_EFFECT_EXPRESSIONS`: a call or an assignment. No contract of its own; it is a predicate used in the contracts of `LintVoid` and `LintBody` |
| ArrowBody.IsSimpleStatement | index.js:94-98 | An expression statement whose expression is simple. No contract of its own; it is used in `LintVoid`'s contract |
| ArrowBody.VoidFixText | index.js:100-108 | The text of `lintVoid`'s fix. No contract of its own; `VoidBodyVoid`, `BodyVoidBody`, `SingleCallRoundTrip` and `MultiStatementIsParenthesised` state what it yields |
| ArrowBody.BodyFixText | index.js:137-142 | The text of `lintBody`'s fix. No contract of its own; `VoidBodyVoid`, `BodyVoidBody`, `SingleCallRoundTrip` and `ObjectPatternBodyFix` state what it yields |
| ArrowBody.ScopeCheck | index.js:157-160 | One scope's setting selects `lintVoid`, `lintBody` or nothing. No contract of its own; `ScopesExclusive` and `VoidAndBodyExclusive` state that it makes at most one report |
| Text.Join | index.js:104 | JavaScript's `Array.prototype.join`, also used at index.js:141. No contract of its own; the round-trip lemmas and the worked scenarios state what the fixes built with it yield |
| ArrowBody.LintVoid | index.js:87-120 | Reports iff the body is a block whose statement count fits the scope (exactly 1 for single, more than 1 for multi) and whose statements are all call or assignment expression statements. The report is on the block, with the source's message. The fix is `void ` and the expression texts joined by `, `, in parentheses iff there is more than one or the one is an assignment. The single suggestion carries the same fix |
| ArrowBody.LintBody | index.js:121-154 | Reports iff the body is a `void` whose operand is not a sequence (single) or is one (multi), and whose discarded expressions are all calls or assignments. The report is on the `void`, with the source's message. The fix is `{` and the texts joined by `;`, then `;}`. The single suggestion carries the same fix |
| ArrowBody.CheckArrow | index.js:155-161 | Runs the single-scope check and then the multi-scope check. At most one report results |
| ArrowBodyProperties.VoidAndBodyExclusive | index.js:87-154 | `lintVoid` and `lintBody` never both report on one body, whatever their scopes. So a setting, which runs one of them, makes at most one report |
| ArrowBodyProperties.ScopesExclusive | index.js:155-161 | The single and multi checks never both report on one arrow, whatever the settings |
| ArrowBodyProperties.VoidFixSettles | index.js:100-110 | Once a `lintVoid` fix is applied, the arrow gets no report, from either scope, under the same settings |
| ArrowBodyProperties.BodyFixSettles | index.js:137-144 | Once a `lintBody` fix is applied to a parsed `void` whose expressions may each begin a statement, the arrow gets no report, from either scope, under the same settings |
| ArrowBodyProperties.VoidBodyVoid | index.js:100-144 | When each expression may begin a statement, a block fixed by `lintVoid` is then reported by `lintBody` in the same scope, with the `;`-joined block as its fix. Fixing that back gives exactly the first `void` text |
| ArrowBodyProperties.BodyVoidBody | index.js:100-144 | When each expression may begin a statement, a `void` fixed by `lintBody` is then reported by `lintVoid` in the same scope. Fixing that back gives exactly the first block text |
| ArrowBodyProperties.SingleCallRoundTrip | index.js:100-144 | `{ f(); }` is fixed to `void f()`. With the body setting, that is fixed to `{f();}` |
| ArrowBodyProperties.MultiStatementIsParenthesised | index.js:87-110 | `{ f(); x = 1; }` is fixed to `void (f(), x = 1)` in the multi scope. The single scope does not report it |
| ArrowBodyProperties.LetIndexBodyFix | index.js:137-142 | `() => void (let[0] = 1)` gets the fix `{let[0] = 1;}`. That text, like `async  function(){}()`, fails `ReadsAsStatement` |
| ArrowBodyProperties.ObjectPatternBodyFix | index.js:137-142 | `() => void ({a} = b)` gets the fix `{{a} = b;}`. The assignment's text begins with `{`, so it cannot begin a statement |

## Left out

- The plugin object (`module.exports`, index.js:165-228): the rule registry, `meta`, the JSON schemas and the `recommended` preset. It is declarative host configuration. The model's option datatypes admit exactly what the schemas admit, and the host does the validation.
- Host calls (`context.report`, `context.getSourceCode`, `source.getText`, `fixer.replaceText`). They are foreign. They become the returned `Diagnostic` and each node's `text` field. A fix is modelled by its replacement text, not as a function the host calls later.
- Visitor dispatch and tree traversal. They are host work. Only the per-node visitors are modelled. `VoidRule.CheckUnary` requires a unary node, because the host calls that visitor only on `UnaryExpression`.
- Parsing. `VoidForm` and `BlockForm` stand for what the host's parser returns for a fix's text. They keep the expression nodes the text was built from. Whitespace and comments are not modelled, so the round trips are between fix texts. `{ f(); }` comes back as `{f();}`.
- `BlockForm` is the parse of a `lintBody` fix only when every expression's text may begin a statement. ECMA-262, section 14.5, forbids an expression statement to begin with the tokens `{`, `function`, `class`, `async function` or `let [`. `ReadsAsStatement` tests this by character prefix and over-restricts: it rejects every text beginning with `{`, `function`, `class`, `async` or `let`. When an expression's text does begin that way, the source's fix does not mean what it did. `() => void ({a} = b)` gets `{{a} = b;}`, and `void function(){}()` gets `{function(){}();}`. Both are syntax errors. So `BodyFixSettles`, `BodyVoidBody` and `VoidBodyVoid` say nothing about such inputs. `ObjectPatternBodyFix` shows the first example, and `LetIndexBodyFix` shows `let[0] = 1`.
- Holes in array literals (`[a, , b]`). Once `some` reaches a hole, the source passes `null` to the classifier, which then throws. The model's `elements` have no holes.
- The empty-string entry of `SIMPLE_SIDE_EFFECT_EXPRESSIONS` (index.js:81). No node has type `''`, so the set is modelled as call and assignment. `Other` and `OtherStatement` stand for the kinds not listed, and it is assumed they never carry a listed type name.
- `CheckUnary`, `LintVoid`, `LintBody`: messages and suggestion descriptions are copied as literal strings. Nothing is said about their wording beyond equality.
