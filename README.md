# PHP Array Index Fixer — a verified model of its state machine

`aif.php` rewrites PHP source so that a bare subscript word (`$a[b]`) becomes
a quoted string subscript (`$a['b']`). It runs the PHP lexer over the file,
wraps every lexer unit in a `Token` object (kind and text), and walks the
tokens once, left to right, with a `StateMachine`. The machine has four flat
contexts (default code, single-quoted literal, double-quoted literal, array
index). In the array-index context, a bare word (`T_STRING`) right after a
token whose text is `[` is rewritten in place: its text is wrapped in single
quotes and its kind becomes a string literal (`T_CONSTANT_ENCAPSED_STRING`).
The output is the concatenation of all token texts after the pass.

The model has two layers:

- a pure layer: `Transitions.Step` handles one token from a `State` (the
  context plus the text of the last processed token), and `Pass.Run` folds
  it over a token sequence. The properties of the fixer are proved about
  these functions;
- an imperative layer: `Tokens.Token` and `Machine.StateMachine` are
  classes whose fields are updated in place, as in the PHP code.
  `StateMachine.Parse` is a loop over the token objects. Its contract
  says that the new token values and the new machine state are exactly
  those of `Run` from the state the machine was in, and that the returned
  text is their concatenation.

Token kinds are reduced to what the machine tells apart: `Char` (the
program's own `T_CHAR = 0` for a bare character), `BareWord` (`T_STRING`),
`StringLit` (`T_CONSTANT_ENCAPSED_STRING`), and `Other` for every other lexer
category. The lexer's output is an input of the model: a sequence of
`LexUnit` values, each a bare character string or a classified pair.

Modules:

- `Tokens` (tokens.dfy): kinds, lexer units, token values, the `Token`
  class, and concatenation of texts.
- `Transitions` (transitions.dfy): contexts, the four handlers, `Step`, and
  the rewrite condition.
- `Pass` (pass.dfy): `Run` and the properties of a whole pass.
- `Machine` (machine.dfy): the `StateMachine` class and the driver
  pipeline.
- `Examples` (examples.dfy): the four sample lines of the program's header
  comment (aif.php:10-15), each as a whole line, plus an already quoted, a
  nested and a function-call subscript.

Three behaviours of the code are worth noting:

- `parseToken` stores the processed token object itself as `last_token`
  (aif.php:111). The next token's test `last_token->text == '['` therefore
  sees the previous token's text after any rewrite, not before it.
  `Transitions.Step` ensures `last == Some(<output token>.text)`, and
  `Pass.LastIsPreviousOutput` states this for the whole pass.
- Nested subscripts are not skipped: in `$a[b[c]]` both `b` and `c` are
  quoted, and the first `]` returns to the default context
  (`Examples.NestedIndexBothQuoted`).
- The rule looks only at the token kind, so a function name right after
  `[` is quoted as well: `$a[count($b)]` becomes `$a['count'($b)]`
  (aif.php:168-171, `Examples.CallSubscriptQuoted`).

## Model

| member | source | states |
|---|---|---|
| Tokens.Token.constructor | aif.php:40-47 | a bare character unit becomes a `Char` token with that text; a classified unit supplies kind and text unchanged |
| Tokens.WrapAll | aif.php:92-94 | wrapping yields one token per lexer unit, in order: each keeps its unit's text, a bare character unit gives a `Char` token, a classified unit keeps its own kind |
| Tokens.WrapAllKeepsText | aif.php:40-47 | the wrapped tokens spell out exactly the text of the lexer units |
| Transitions.Step | aif.php:108-112 | after a token, the machine can still serve the array-index handler (a last token exists there), and the last token's text is that token's text as its handler left it |
| Transitions.StepRewritesExactly | aif.php:166-176 | a token changes iff the context is the array index, its kind is a bare word and the last token's text is `[`; it then becomes the string literal of its quoted text, and otherwise it is kept |
| Transitions.StepFollowsTable | aif.php:114-195 | the context moves only on a `Char` token in the six-entry table (`'`, `"`, `[` from default; the matching quote from a literal; `]` from an array index); every other token leaves it unchanged |
| Transitions.StepIdempotent | aif.php:166-176 | handling a token's output again from the same state gives the same state and token: a rewritten token is no longer a bare word |
| Pass.Run | aif.php:97-106 | a pass yields exactly one output token per input token and keeps the array-index handler's last token defined |
| Pass.RunAt | aif.php:100-103 | the pass processes tokens one at a time in order: output i is Step of token i from the state the first i tokens lead to, and the next state is the one that Step leaves |
| Pass.RunRewritesExactly | aif.php:166-176 | over a whole pass, output i differs from token i iff the rewrite condition holds at i, and then it is the quoted string literal |
| Pass.LastIsPreviousOutput | aif.php:111 | the last token seen before position i carries the text of output i-1, that is, after that token's rewrite |
| Pass.QuotedRunUntouched | aif.php:138-164 | inside a quoted literal, tokens without the closing quote character pass unchanged and the context stays |
| Pass.QuotedRunCloses | aif.php:138-164 | the matching quote character closes the literal: everything up to it is unchanged, and the machine is back in default with that quote as last token |
| Pass.ArrayIndexRunStays | aif.php:166-195 | in an array index, tokens other than the `]` character keep the context (quotes and a nested `[` included), and each output is the token itself or its quoted form |
| Pass.NoTargetNoChange | aif.php:166-183 | when no bare word follows a `[` token, the pass changes no token and the output text equals the input text |
| Pass.NoTargetKeepsSource | aif.php:88-106 | when no bare word follows a `[` unit, tokenizing and one pass from a fresh machine give back the lexer's source text |
| Pass.RunIdempotent | aif.php:97-112 | a second pass over the output of a pass, from the same state, yields the same tokens and the same final state |
| Machine.StateMachine.constructor | aif.php:75-78 | a new machine starts in the default context, with no last token and no tokens |
| Machine.StateMachine.SetState | aif.php:80-86 | the context becomes the requested one; the closed context type leaves no invalid name to reject |
| Machine.StateMachine.Tokenize | aif.php:88-95 | the token list is replaced by fresh token objects whose values are the wrapped lexer units, in order |
| Machine.StateMachine.Parse | aif.php:97-106 | the token objects end up holding the output of Run from the machine's state, the machine's context and last token are Run's final state, and the returned text is the concatenation of the token texts |
| Machine.StateMachine.ParseNext | aif.php:100-103 | one turn of the loop: token i goes through parseToken, the pass so far grows by one Step, and every other token is untouched |
| Machine.StateMachine.ParseToken | aif.php:108-112 | the handler of the current context is applied and the token becomes the last token; state and token value change exactly as Step says |
| Machine.StateMachine.ParseTokenDefault | aif.php:114-136 | `'`, `"` and `[` characters open the single-quoted, double-quoted and array-index contexts; any other token leaves default |
| Machine.StateMachine.ParseTokenSingleQuoted | aif.php:138-150 | only the `'` character returns to default |
| Machine.StateMachine.ParseTokenDoubleQuoted | aif.php:152-164 | only the `"` character returns to default |
| Machine.StateMachine.ParseTokenArrayIndex | aif.php:166-195 | a bare word after a last token `[` is quoted in place and becomes a string literal; the `]` character returns to default; the comparison uses the last token's text before the current token is touched |
| Machine.FixText | aif.php:204-211 | a fresh machine that tokenizes the units and parses them returns the concatenated output of one pass from the initial state |
| Examples.BareSubscriptQuoted | aif.php:10 | `$a[b]` becomes `$a['b']` and ends in default after `]` |
| Examples.AssignmentUntouched | aif.php:10 | ` = 'c';` after the subscript is left as it is; the literal `'c'` is one lexer token |
| Examples.BareIndexIsQuoted | aif.php:10 | the sample line `$a[b] = 'c';` has its subscript quoted and nothing else changed |
| Examples.BareIndexText | aif.php:10 | the fixed sample line reads `$a['b'] = 'c';` |
| Examples.DoubleQuotedStringUntouched | aif.php:152-164 | from the default context, a double-quoted string whose body has no `"` character passes through unchanged and leaves the machine in default with `"` as last token |
| Examples.StringAssignmentUntouched | aif.php:13-14 | a line `lhs "body";` passes through unchanged when its left-hand side does and its string body has no `"` character |
| Examples.InterpolatedLineUntouched | aif.php:13 | `$b = "$a[b]";` passes through unchanged: the `[` is inside a double-quoted literal |
| Examples.EscapedLineUntouched | aif.php:14 | `$c = " \"$a[b]\" ";` passes through unchanged: escaped quotes are not quote tokens |
| Examples.MemberLineUntouched | aif.php:15 | `$d = $e[$f->g];` passes through unchanged: `g` follows `->`, not `[` |
| Examples.QuotedIndexUntouched | aif.php:166-176 | an already quoted subscript `$a['b']` passes through unchanged |
| Examples.NestedIndexBothQuoted | aif.php:166-195 | in `$a[b[c]]` both `b` and `c` are quoted |
| Examples.CallSubscriptQuoted | aif.php:168-171 | in `$a[count($b)]` the function name right after `[` is quoted like any bare word |
| Examples.NestedIndexText | aif.php:166-195 | the nested subscript comes out as `$a['b'['c']]` |

## Left out

- The PHP lexer `token_get_all` (aif.php:89) is a foreign library call. Its output is a parameter of the model (a sequence of `LexUnit`), and `Tokenize` only wraps each unit.
- `Token::getName` and `token_name` (aif.php:49-55) are a name lookup in the PHP runtime, used for nothing but naming.
- The DEBUG tracing with `echo` (aif.php:27, 173-181, 214-215) is output only and switched off by a constant.
- The script driver's file I/O (`$argv`, `file_get_contents`, `file_put_contents`, aif.php:200-202, 213-218) is left out. `Machine.FixText` keeps the tokenize-then-parse pipeline between them.
- The exception branch of `setState` (aif.php:83-85) cannot be represented: the context is a closed datatype of the four names listed at aif.php:77. The `throw Exception(...)` on that branch also lacks `new`, so as written it would fail differently.
- Lexer categories other than `T_STRING` and `T_CONSTANT_ENCAPSED_STRING` are one kind, `Other`: no handler tells them apart.
- PHP's loose `==` is modelled as string equality. All comparisons in the handlers are between a token text and a non-numeric one-character string, so the two agree.
- Calling `parse` before `tokenize` iterates over a null `tokens` field in PHP. The model starts with an empty token list instead, so such a call returns the empty string.
- Pass.RunIdempotent: idempotence is proved for the token sequence the pass produces. Re-lexing the output text is outside the model because the lexer is.
- The sample lines are modelled as the token sequences the PHP lexer produces for them. That split is taken as given, because the lexer is not modelled.
