/** The state machine object: it owns the tokens, the current context and
    the last processed token, and rewrites the tokens in place. */
module Machine {
  import opened Tokens
  import opened Transitions
  import opened Pass

  /** No token object stands at two positions. */
  ghost predicate Distinct(ts: seq<Token>)
  {
    forall i, j :: 0 <= i < j < |ts| ==> ts[i] != ts[j]
  }

  class StateMachine {
    var state: Context
    var lastToken: Token?
    var tokens: seq<Token>

    /** The array-index handler finds a last token, and no token object
        stands at two positions, so rewriting one leaves the others alone. */
    ghost predicate Valid()
      reads this
    {
      (state == ArrayIndex ==> lastToken != null) && Distinct(tokens)
    }

    /** The machine's state as the per-token rules see it. */
    function Current(): State
      reads this, lastToken
    {
      State(state, if lastToken == null then None else Some(lastToken.text))
    }

    constructor ()
      ensures Valid()
      ensures state == Default && lastToken == null && tokens == []
      ensures Current() == Init
    {
      state := Default;
      lastToken := null;
      tokens := [];
    }

    method SetState(s: Context)
      modifies this`state
      ensures state == s
    {
      state := s;
    }

    /** Wraps every lexer unit in a fresh token, in order. Context and last
        token are left as they were. */
    method Tokenize(units: seq<LexUnit>)
      requires Valid()
      modifies this`tokens
      ensures Valid()
      ensures Values(tokens) == WrapAll(units)
      ensures forall i :: 0 <= i < |tokens| ==> fresh(tokens[i])
    {
      tokens := [];
      for i := 0 to |units|
        invariant Valid()
        invariant |tokens| == i
        invariant forall k :: 0 <= k < i ==> tokens[k].Value() == Wrap(units[k])
        invariant forall k :: 0 <= k < i ==> fresh(tokens[k])
      {
        var t := new Token(units[i]);
        tokens := tokens + [t];
      }
    }

    /** Processes every token once, in order, and returns the concatenated
        texts of the tokens as they are afterwards. The pass is Run over the
        token values, from the state the machine was in. */
    method Parse() returns (parsed: string)
      requires Valid()
      modifies this`state, this`lastToken, tokens
      ensures Valid()
      ensures Values(tokens) == Run(old(Current()), old(Values(tokens))).1
      ensures Current() == Run(old(Current()), old(Values(tokens))).0
      ensures parsed == Concat(Values(tokens))
    {
      ghost var s0 := Current();
      ghost var v0 := Values(tokens);
      ghost var out: seq<TokenValue> := [];
      parsed := "";
      var i := 0;
      while i < |tokens|
        invariant 0 <= i <= |tokens| == |v0| && |out| == i
        invariant Valid()
        invariant Run(s0, v0[..i]) == (Current(), out)
        invariant forall k :: 0 <= k < i ==> tokens[k].Value() == out[k]
        invariant forall k :: i <= k < |tokens| ==> tokens[k].Value() == v0[k]
        invariant parsed == Concat(out)
      {
        out := ParseNext(i, s0, v0, out);
        parsed := parsed + tokens[i].text;
        ConcatSnoc(out[..i], tokens[i].Value());
        assert out[..i] + [tokens[i].Value()] == out;
        i := i + 1;
      }
      assert v0[..i] == v0;
      assert Values(tokens) == out;
    }

    /** One turn of the parse loop: the token at position i goes through
        parseToken, and the pass so far grows by one Step. */
    method ParseNext(i: nat, ghost s0: State, ghost v0: seq<TokenValue>, ghost out: seq<TokenValue>)
      returns (ghost out': seq<TokenValue>)
      requires Valid() && Ready(s0) && i < |tokens| == |v0| && |out| == i
      requires Run(s0, v0[..i]) == (Current(), out)
      requires forall k :: 0 <= k < i ==> tokens[k].Value() == out[k]
      requires forall k :: i <= k < |tokens| ==> tokens[k].Value() == v0[k]
      modifies this`state, this`lastToken, tokens[i]
      ensures Valid()
      ensures out' == out + [tokens[i].Value()]
      ensures Run(s0, v0[..i + 1]) == (Current(), out')
      ensures forall k :: 0 <= k < i + 1 ==> tokens[k].Value() == out'[k]
      ensures forall k :: i + 1 <= k < |tokens| ==> tokens[k].Value() == v0[k]
    {
      var token := tokens[i];
      assert v0[..i + 1] == v0[..i] + [v0[i]];
      RunSnoc(s0, v0[..i], v0[i]);
      assert forall k :: 0 <= k < |tokens| && k != i ==> tokens[k] != token;
      ParseToken(token);
      out' := out + [token.Value()];
    }

    /** Hands the token to the handler of the current context, then records
        it as the last token. */
    method ParseToken(token: Token)
      requires Valid()
      modifies this`state, this`lastToken, token
      ensures Valid()
      ensures lastToken == token
      ensures (Current(), token.Value()) == Step(old(Current()), old(token.Value()))
    {
      match state {
        case Default => ParseTokenDefault(token);
        case SingleQuoted => ParseTokenSingleQuoted(token);
        case DoubleQuoted => ParseTokenDoubleQuoted(token);
        case ArrayIndex => ParseTokenArrayIndex(token);
      }
      lastToken := token;
    }

    method ParseTokenDefault(token: Token)
      requires state == Default
      modifies this`state
      ensures state == HandleDefault(token.Value())
    {
      match token.kind
      case Char =>
        if token.text == "'" {
          SetState(SingleQuoted);
        }
        if token.text == "\"" {
          SetState(DoubleQuoted);
        }
        if token.text == "[" {
          SetState(ArrayIndex);
        }
      case _ =>
    }

    method ParseTokenSingleQuoted(token: Token)
      requires state == SingleQuoted
      modifies this`state
      ensures state == HandleSingleQuoted(token.Value())
    {
      match token.kind
      case Char =>
        if token.text == "'" {
          SetState(Default);
        }
      case _ =>
    }

    method ParseTokenDoubleQuoted(token: Token)
      requires state == DoubleQuoted
      modifies this`state
      ensures state == HandleDoubleQuoted(token.Value())
    {
      match token.kind
      case Char =>
        if token.text == "\"" {
          SetState(Default);
        }
      case _ =>
    }

    /** Reads the last token's text before touching the current token, so a
        token that is its own last token is compared by its old text. */
    method ParseTokenArrayIndex(token: Token)
      requires state == ArrayIndex && lastToken != null
      modifies this`state, token
      ensures (state, token.Value()) == HandleArrayIndex(old(token.Value()), old(lastToken.text))
    {
      match token.kind
      case BareWord =>
        if lastToken.text == "[" {
          token.text := "'" + token.text + "'";
          token.kind := StringLit;
        }
      case Char =>
        if token.text == "]" {
          SetState(Default);
        }
      case _ =>
    }
  }

  /** The driver's pipeline without the file I/O: a fresh machine tokenizes
      the lexer's units and parses them; the result is the concatenation of
      the tokens after one pass from the initial state. */
  method FixText(units: seq<LexUnit>) returns (fixed: string)
    ensures fixed == Concat(Run(Init, WrapAll(units)).1)
  {
    var sm := new StateMachine();
    sm.Tokenize(units);
    fixed := sm.Parse();
  }
}
