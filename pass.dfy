/** One left-to-right pass of the state machine over a token sequence, as a
    fold of Step, and what that pass does and does not change. */
module Pass {
  import opened Tokens
  import opened Transitions

  /** Processes the tokens in order from state st: the final state and the
      tokens as the pass leaves them. */
  function Run(st: State, ts: seq<TokenValue>): (r: (State, seq<TokenValue>))
    requires Ready(st)
    ensures Ready(r.0)
    ensures |r.1| == |ts|
    decreases |ts|
  {
    if ts == [] then (st, [])
    else
      var (s1, t1) := Step(st, ts[0]);
      var (s2, rest) := Run(s1, ts[1..]);
      (s2, [t1] + rest)
  }

  /** The state just before the token at position i is processed. */
  function Before(st: State, ts: seq<TokenValue>, i: nat): State
    requires Ready(st) && i <= |ts|
  {
    Run(st, ts[..i]).0
  }

  /** A pass over a + b is a pass over a followed by a pass over b from the
      state a ends in. */
  lemma {:induction false} RunAppend(st: State, a: seq<TokenValue>, b: seq<TokenValue>)
    requires Ready(st)
    ensures Run(st, a + b).0 == Run(Run(st, a).0, b).0
    ensures Run(st, a + b).1 == Run(st, a).1 + Run(Run(st, a).0, b).1
    decreases |a|
  {
    if a == [] {
      assert a + b == b;
    } else {
      var s1 := Step(st, a[0]).0;
      assert (a + b)[0] == a[0];
      assert (a + b)[1..] == a[1..] + b;
      RunAppend(s1, a[1..], b);
    }
  }

  /** Extending the input by one token extends the pass by one Step. */
  lemma RunSnoc(st: State, ts: seq<TokenValue>, t: TokenValue)
    requires Ready(st)
    ensures Run(st, ts + [t]).0 == Step(Run(st, ts).0, t).0
    ensures Run(st, ts + [t]).1 == Run(st, ts).1 + [Step(Run(st, ts).0, t).1]
  {
    RunAppend(st, ts, [t]);
    assert [t][1..] == [];
  }

  /** The pass processes the tokens one at a time: the token at position i
      comes out as Step makes it from the state before it, and the state
      after it is the state Step leaves. */
  lemma RunAt(st: State, ts: seq<TokenValue>, i: nat)
    requires Ready(st) && i < |ts|
    ensures Run(st, ts).1[i] == Step(Before(st, ts, i), ts[i]).1
    ensures Before(st, ts, i + 1) == Step(Before(st, ts, i), ts[i]).0
  {
    assert ts == ts[..i] + ts[i..];
    RunAppend(st, ts[..i], ts[i..]);
    assert ts[..i + 1] == ts[..i] + [ts[i]];
    RunAppend(st, ts[..i], [ts[i]]);
  }

  /** The pass changes exactly the tokens the rewrite condition selects, into
      their quoted form, and keeps all the others as they were. */
  lemma RunRewritesExactly(st: State, ts: seq<TokenValue>, i: nat)
    requires Ready(st) && i < |ts|
    ensures Run(st, ts).1[i] == if Fires(Before(st, ts, i), ts[i]) then Rewritten(ts[i]) else ts[i]
    ensures Run(st, ts).1[i] != ts[i] <==> Fires(Before(st, ts, i), ts[i])
  {
    RunAt(st, ts, i);
    StepRewritesExactly(Before(st, ts, i), ts[i]);
  }

  /** The last token the machine compares against is the previous token as
      the pass left it, that is, after its own rewrite. */
  lemma LastIsPreviousOutput(st: State, ts: seq<TokenValue>, i: nat)
    requires Ready(st) && 0 < i <= |ts|
    ensures Before(st, ts, i).last == Some(Run(st, ts).1[i - 1].text)
  {
    RunAt(st, ts, i - 1);
  }

  /** The two literal contexts. */
  predicate Quoted(ctx: Context)
  {
    ctx == SingleQuoted || ctx == DoubleQuoted
  }

  /** The Char token that closes a literal. */
  function Closer(ctx: Context): TokenValue
    requires Quoted(ctx)
  {
    if ctx == SingleQuoted then TokenValue(Char, "'") else TokenValue(Char, "\"")
  }

  /** Inside a quoted literal, a run of tokens without the closing quote
      character is left untouched and the context stays the same. */
  lemma {:induction false} QuotedRunUntouched(st: State, ts: seq<TokenValue>)
    requires Quoted(st.ctx)
    requires forall i :: 0 <= i < |ts| ==> ts[i] != Closer(st.ctx)
    ensures Run(st, ts).1 == ts
    ensures Run(st, ts).0.ctx == st.ctx
    decreases |ts|
  {
    if ts != [] {
      var s1 := Step(st, ts[0]).0;
      assert s1.ctx == st.ctx;
      QuotedRunUntouched(s1, ts[1..]);
    }
  }

  /** The closing quote character ends the literal: the tokens up to and
      including it are untouched and the machine is back in Default. */
  lemma QuotedRunCloses(st: State, body: seq<TokenValue>)
    requires Quoted(st.ctx)
    requires forall i :: 0 <= i < |body| ==> body[i] != Closer(st.ctx)
    ensures Run(st, body + [Closer(st.ctx)]).1 == body + [Closer(st.ctx)]
    ensures Run(st, body + [Closer(st.ctx)]).0 == State(Default, Some(Closer(st.ctx).text))
  {
    QuotedRunUntouched(st, body);
    RunAppend(st, body, [Closer(st.ctx)]);
  }

  /** In an array index, a run of tokens without `]` keeps the machine in the
      array index, and every token comes out unchanged or quoted. */
  lemma {:induction false} ArrayIndexRunStays(st: State, ts: seq<TokenValue>)
    requires st.ctx == ArrayIndex && st.last.Some?
    requires forall i :: 0 <= i < |ts| ==> ts[i] != TokenValue(Char, "]")
    ensures Run(st, ts).0.ctx == ArrayIndex
    ensures forall i :: 0 <= i < |ts| ==> Run(st, ts).1[i] in {ts[i], Rewritten(ts[i])}
    decreases |ts|
  {
    if ts != [] {
      var (s1, t1) := Step(st, ts[0]);
      assert s1.ctx == ArrayIndex;
      ArrayIndexRunStays(s1, ts[1..]);
      var out := Run(st, ts).1;
      forall i | 0 <= i < |ts|
        ensures out[i] in {ts[i], Rewritten(ts[i])}
      {
        if i > 0 {
          assert out[i] == Run(s1, ts[1..]).1[i - 1];
        }
      }
    }
  }

  /** When no bare word comes right after a token whose text is `[` (nor
      first, after a last token `[`), the pass changes nothing. */
  lemma {:induction false} NoTargetNoChange(st: State, ts: seq<TokenValue>)
    requires Ready(st)
    requires |ts| > 0 && st.last == Some("[") ==> ts[0].kind != BareWord
    requires forall i :: 0 < i < |ts| && ts[i - 1].text == "[" ==> ts[i].kind != BareWord
    ensures Run(st, ts).1 == ts
    ensures Concat(Run(st, ts).1) == Concat(ts)
    decreases |ts|
  {
    if ts != [] {
      var (s1, t1) := Step(st, ts[0]);
      StepRewritesExactly(st, ts[0]);
      assert t1 == ts[0];
      var rest := ts[1..];
      forall i | 0 < i < |rest| && rest[i - 1].text == "[" ensures rest[i].kind != BareWord {
        assert ts[i].text == "[";
      }
      NoTargetNoChange(s1, rest);
      assert ts == [ts[0]] + rest;
    }
  }

  /** Running the pass again over its own output, from the same state,
      yields the same tokens and the same final state. */
  lemma {:induction false} RunIdempotent(st: State, ts: seq<TokenValue>)
    requires Ready(st)
    ensures Run(st, Run(st, ts).1) == Run(st, ts)
    decreases |ts|
  {
    if ts != [] {
      var (s1, t1) := Step(st, ts[0]);
      var out := Run(st, ts).1;
      StepIdempotent(st, ts[0]);
      RunIdempotent(s1, ts[1..]);
      assert out[0] == t1;
      assert out[1..] == Run(s1, ts[1..]).1;
    }
  }

  /** When no bare word comes right after a `[` unit, a pass from the
      initial state over the wrapped units gives back the source text. */
  lemma NoTargetKeepsSource(units: seq<LexUnit>)
    requires forall i :: 0 < i < |units| && UnitText(units[i - 1]) == "[" ==> Wrap(units[i]).kind != BareWord
    ensures Concat(Run(Init, WrapAll(units)).1) == UnitsText(units)
  {
    var ts := WrapAll(units);
    forall i | 0 < i < |ts| && ts[i - 1].text == "[" ensures ts[i].kind != BareWord {
      assert ts[i - 1].text == UnitText(units[i - 1]);
    }
    NoTargetNoChange(Init, ts);
    WrapAllKeepsText(units);
  }
}
