/** The per-token rules of the array-index fixer: four flat lexical contexts,
    the handler for each, and the one rewrite the machine performs. */
module Transitions {
  import opened Tokens

  datatype Option<T> = None | Some(value: T)

  /** The four contexts; the type being closed leaves no room for an
      invalid context name. */
  datatype Context = Default | SingleQuoted | DoubleQuoted | ArrayIndex

  /** The machine's state between two tokens: the context, and the text of
      the last processed token (None before the first one). */
  datatype State = State(ctx: Context, last: Option<string>)

  /** The state of a fresh machine. */
  const Init := State(Default, None)

  /** The array-index handler reads the last token: it must exist there. */
  predicate Ready(st: State)
  {
    st.ctx == ArrayIndex ==> st.last.Some?
  }

  /** A bare word wrapped in single quotes. */
  function Quote(s: string): string
  {
    "'" + s + "'"
  }

  /** Handler of the default context: a quote character opens a literal, a
      `[` opens an array index, anything else is ignored. */
  function HandleDefault(t: TokenValue): Context
  {
    match t.kind
    case Char =>
      if t.text == "'" then SingleQuoted
      else if t.text == "\"" then DoubleQuoted
      else if t.text == "[" then ArrayIndex
      else Default
    case _ => Default
  }

  /** Handler inside a single-quoted literal: only `'` closes it. */
  function HandleSingleQuoted(t: TokenValue): Context
  {
    match t.kind
    case Char => if t.text == "'" then Default else SingleQuoted
    case _ => SingleQuoted
  }

  /** Handler inside a double-quoted literal: only `"` closes it. */
  function HandleDoubleQuoted(t: TokenValue): Context
  {
    match t.kind
    case Char => if t.text == "\"" then Default else DoubleQuoted
    case _ => DoubleQuoted
  }

  /** Handler inside an array index: a bare word right after `[` is quoted
      and becomes a string literal; `]` closes the index. */
  function HandleArrayIndex(t: TokenValue, lastText: string): (Context, TokenValue)
  {
    match t.kind
    case BareWord =>
      if lastText == "[" then (ArrayIndex, TokenValue(StringLit, Quote(t.text)))
      else (ArrayIndex, t)
    case Char => (if t.text == "]" then Default else ArrayIndex, t)
    case _ => (ArrayIndex, t)
  }

  /** Processing one token: dispatch on the context, then remember the token
      (with its text as the handler left it) as the last one. */
  function Step(st: State, t: TokenValue): (r: (State, TokenValue))
    requires Ready(st)
    ensures Ready(r.0)
    ensures r.0.last == Some(r.1.text)
  {
    var (ctx, t') :=
      match st.ctx
      case Default => (HandleDefault(t), t)
      case SingleQuoted => (HandleSingleQuoted(t), t)
      case DoubleQuoted => (HandleDoubleQuoted(t), t)
      case ArrayIndex => HandleArrayIndex(t, st.last.value);
    (State(ctx, Some(t'.text)), t')
  }

  /** The rewrite condition: in an array index, a bare word, right after a
      token whose text is `[`. */
  predicate Fires(st: State, t: TokenValue)
  {
    st.ctx == ArrayIndex && t.kind == BareWord && st.last == Some("[")
  }

  /** What the rewrite makes of a bare word. */
  function Rewritten(t: TokenValue): TokenValue
  {
    TokenValue(StringLit, Quote(t.text))
  }

  /** A token is changed exactly when the rewrite condition holds, and then
      it becomes the quoted string literal; every other token is kept. */
  lemma StepRewritesExactly(st: State, t: TokenValue)
    requires Ready(st)
    ensures Step(st, t).1 == (if Fires(st, t) then Rewritten(t) else t)
    ensures Step(st, t).1 != t <==> Fires(st, t)
  {
  }

  /** The context transitions, written as a table from (context, character)
      to the next context. */
  const TransitionTable: map<(Context, string), Context> :=
    map[(Default, "'") := SingleQuoted,
        (Default, "\"") := DoubleQuoted,
        (Default, "[") := ArrayIndex,
        (SingleQuoted, "'") := Default,
        (DoubleQuoted, "\"") := Default,
        (ArrayIndex, "]") := Default]

  /** The context only moves on a Char token listed in the table; every other
      token leaves it where it was. */
  lemma StepFollowsTable(st: State, t: TokenValue)
    requires Ready(st)
    ensures Step(st, t).0.ctx ==
            if t.kind == Char && (st.ctx, t.text) in TransitionTable
            then TransitionTable[(st.ctx, t.text)] else st.ctx
  {
    var key := (st.ctx, t.text);
    if t.kind == Char {
      if key in TransitionTable {
        assert key == (Default, "'") || key == (Default, "\"") || key == (Default, "[")
            || key == (SingleQuoted, "'") || key == (DoubleQuoted, "\"") || key == (ArrayIndex, "]");
      } else {
        assert (Default, "'") in TransitionTable;
        assert (Default, "\"") in TransitionTable;
        assert (Default, "[") in TransitionTable;
        assert (SingleQuoted, "'") in TransitionTable;
        assert (DoubleQuoted, "\"") in TransitionTable;
        assert (ArrayIndex, "]") in TransitionTable;
      }
    }
  }

  /** Processing a token a second time, from the same state, changes nothing
      more: a rewritten token is a string literal, which no rule touches. */
  lemma StepIdempotent(st: State, t: TokenValue)
    requires Ready(st)
    ensures Step(st, Step(st, t).1) == Step(st, t)
  {
  }
}
