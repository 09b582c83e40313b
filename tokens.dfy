/** Tokens as the state machine sees them: a kind and the exact source text.
    The lexer itself is not modelled; what it produces is given as a sequence
    of LexUnit values. */
module Tokens {

  /** The token kinds the state machine tells apart.
      Char is the wrapper's own kind for a bare character (T_CHAR = 0),
      BareWord is the lexer's identifier kind (T_STRING), StringLit its
      quoted-literal kind (T_CONSTANT_ENCAPSED_STRING); every other lexer
      category is Other. */
  datatype Kind = Char | BareWord | StringLit | Other

  /** One unit reported by the lexer: a bare character string, or a
      classified pair of kind and text. */
  datatype LexUnit = Plain(ch: string) | Classified(kind: Kind, text: string)

  /** The value of a token at one moment: what a Token object holds. */
  datatype TokenValue = TokenValue(kind: Kind, text: string)

  /** The token that wrapping one lexer unit yields. */
  function Wrap(u: LexUnit): TokenValue
  {
    match u
    case Plain(ch) => TokenValue(Char, ch)
    case Classified(k, s) => TokenValue(k, s)
  }

  /** The text of a lexer unit, as it stands in the source. */
  function UnitText(u: LexUnit): string
  {
    match u
    case Plain(ch) => ch
    case Classified(_, s) => s
  }

  /** Texts of the tokens, concatenated in order. */
  function Concat(ts: seq<TokenValue>): string
  {
    if ts == [] then "" else ts[0].text + Concat(ts[1..])
  }

  /** Texts of the lexer units, concatenated in order. */
  function UnitsText(us: seq<LexUnit>): string
  {
    if us == [] then "" else UnitText(us[0]) + UnitsText(us[1..])
  }

  /** The tokens that wrapping every unit yields, in order: each keeps its
      unit's text; a bare character is a Char token, a classified unit keeps
      its own kind. */
  function WrapAll(us: seq<LexUnit>): (ts: seq<TokenValue>)
    ensures |ts| == |us|
    ensures forall i :: 0 <= i < |us| ==> ts[i].text == UnitText(us[i])
    ensures forall i :: 0 <= i < |us| && us[i].Plain? ==> ts[i].kind == Char
    ensures forall i :: 0 <= i < |us| && us[i].Classified? ==> ts[i].kind == us[i].kind
  {
    seq(|us|, i requires 0 <= i < |us| => Wrap(us[i]))
  }

  /** Wrapping keeps every unit's text, so the wrapped tokens spell out the
      same source text as the lexer's units. */
  lemma {:induction false} WrapAllKeepsText(us: seq<LexUnit>)
    ensures Concat(WrapAll(us)) == UnitsText(us)
  {
    if us != [] {
      assert WrapAll(us)[1..] == WrapAll(us[1..]);
      WrapAllKeepsText(us[1..]);
    }
  }

  /** Concatenation distributes over sequence concatenation. */
  lemma {:induction false} ConcatAppend(a: seq<TokenValue>, b: seq<TokenValue>)
    ensures Concat(a + b) == Concat(a) + Concat(b)
  {
    if a == [] {
      assert a + b == b;
    } else {
      assert (a + b)[1..] == a[1..] + b;
      ConcatAppend(a[1..], b);
    }
  }

  /** Appending one token appends its text. */
  lemma ConcatSnoc(ts: seq<TokenValue>, t: TokenValue)
    ensures Concat(ts + [t]) == Concat(ts) + t.text
  {
    ConcatAppend(ts, [t]);
    assert [t][1..] == [];
  }

  /** A token object: kind and text, both changed in place by the rewrite. */
  class Token {
    var kind: Kind
    var text: string

    /** A bare character becomes a Char token with that text; a classified
        unit supplies kind and text directly. */
    constructor (u: LexUnit)
      ensures u.Plain? ==> kind == Char && text == u.ch
      ensures u.Classified? ==> kind == u.kind && text == u.text
    {
      if !u.Classified? {
        kind := Char;
        text := u.ch;
      } else {
        kind := u.kind;
        text := u.text;
      }
    }

    function Value(): TokenValue
      reads this
    {
      TokenValue(kind, text)
    }
  }

  /** The current values of a sequence of token objects. */
  function Values(ts: seq<Token>): (vs: seq<TokenValue>)
    reads ts
    ensures |vs| == |ts|
    ensures forall i :: 0 <= i < |ts| ==> vs[i] == ts[i].Value()
  {
    seq(|ts|, i requires 0 <= i < |ts| reads ts => ts[i].Value())
  }
}
