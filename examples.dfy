/** The documented behaviour on concrete token sequences, split as the PHP
    lexer splits them: the four sample lines of the program's header comment,
    an already quoted, a nested and a function-call subscript. */
module Examples {
  import opened Tokens
  import opened Transitions
  import opened Pass

  function Ch(s: string): TokenValue { TokenValue(Char, s) }
  function Word(s: string): TokenValue { TokenValue(BareWord, s) }
  function Lit(s: string): TokenValue { TokenValue(StringLit, s) }
  function OtherTok(s: string): TokenValue { TokenValue(Other, s) }

  /** $a[b] */
  const BareSubscript := [OtherTok("$a"), Ch("["), Word("b"), Ch("]")]

  /** $a['b'] */
  const QuotedSubscript := [OtherTok("$a"), Ch("["), Lit("'b'"), Ch("]")]

  /**  = 'c'; */
  const Assignment := [OtherTok(" "), Ch("="), OtherTok(" "), Lit("'c'"), Ch(";")]

  /** $a[b] = 'c'; */
  const BareIndex := BareSubscript + Assignment

  /** A double-quoted string literal with the given tokens between the quotes. */
  function InDoubleQuotes(body: seq<TokenValue>): seq<TokenValue>
  {
    [Ch("\"")] + (body + [Ch("\"")])
  }

  /** $b =  */
  const AssignB := [OtherTok("$b"), OtherTok(" "), Ch("="), OtherTok(" ")]

  /** $a[b] inside a double-quoted string */
  const InterpolatedBody := [OtherTok("$a"), Ch("["), Word("b"), Ch("]")]

  /** $b = "$a[b]"; */
  const InterpolatedLine := AssignB + InDoubleQuotes(InterpolatedBody) + [Ch(";")]

  /** $c =  */
  const AssignC := [OtherTok("$c"), OtherTok(" "), Ch("="), OtherTok(" ")]

  /** \"$a[b]\" between the quotes of a string; the escaped quotes are part
      of the string's text tokens */
  const EscapedBody := [OtherTok(" \\\""), OtherTok("$a"), Ch("["), Word("b"), Ch("]"), OtherTok("\\\" ")]

  /** $c = " \"$a[b]\" "; */
  const EscapedLine := AssignC + InDoubleQuotes(EscapedBody) + [Ch(";")]

  /** $d = $e[$f->g]; */
  const MemberLine := [OtherTok("$d"), OtherTok(" "), Ch("="), OtherTok(" "), OtherTok("$e"), Ch("["),
                       OtherTok("$f"), OtherTok("->"), Word("g"), Ch("]"), Ch(";")]

  /** $a['b'] */
  const QuotedIndex := [OtherTok("$a"), Ch("["), Lit("'b'"), Ch("]")]

  /** $a[b[c]] */
  const NestedIndex := [OtherTok("$a"), Ch("["), Word("b"), Ch("["), Word("c"), Ch("]"), Ch("]")]

  /** $a[count($b)] */
  const CallSubscript := [OtherTok("$a"), Ch("["), Word("count"), Ch("("), OtherTok("$b"), Ch(")"), Ch("]")]

  /** `$a[b]`: the word right after `[` is quoted and `]` returns to Default. */
  lemma BareSubscriptQuoted()
    ensures Run(Init, BareSubscript).0 == State(Default, Some("]"))
    ensures Run(Init, BareSubscript).1 == QuotedSubscript
  {
    assert Quote("b") == "'b'";
  }

  /** ` = 'c';` after the subscript: nothing here is in an array index. */
  lemma AssignmentUntouched()
    ensures Run(State(Default, Some("]")), Assignment).0.ctx == Default
    ensures Run(State(Default, Some("]")), Assignment).1 == Assignment
  {
  }

  /** The first sample line: the bare subscript is quoted and nothing else
      changes. */
  lemma BareIndexIsQuoted()
    ensures Run(Init, BareIndex).1 == QuotedSubscript + Assignment
    ensures Run(Init, BareIndex).0.ctx == Default
  {
    BareSubscriptQuoted();
    AssignmentUntouched();
    RunAppend(Init, BareSubscript, Assignment);
  }

  /** From the default context, a double-quoted string whose body holds no
      `"` character passes through and ends in Default. */
  lemma DoubleQuotedStringUntouched(st: State, body: seq<TokenValue>)
    requires st.ctx == Default
    requires forall i :: 0 <= i < |body| ==> body[i] != Ch("\"")
    ensures Run(st, InDoubleQuotes(body)).1 == InDoubleQuotes(body)
    ensures Run(st, InDoubleQuotes(body)).0 == State(Default, Some("\""))
  {
    var s1 := State(DoubleQuoted, Some("\""));
    assert Step(st, Ch("\"")) == (s1, Ch("\""));
    assert [Ch("\"")][1..] == [];
    assert Run(st, [Ch("\"")]).0 == s1;
    assert Run(st, [Ch("\"")]).1 == [Ch("\"")];
    QuotedRunCloses(s1, body);
    RunAppend(st, [Ch("\"")], body + [Ch("\"")]);
  }

  /** A line `lhs "body";` whose left-hand side passes unchanged from a fresh
      machine and ends in Default, and whose string body holds no `"`
      character, passes through unchanged. */
  lemma StringAssignmentUntouched(lhs: seq<TokenValue>, body: seq<TokenValue>)
    requires Run(Init, lhs).0.ctx == Default
    requires Run(Init, lhs).1 == lhs
    requires forall i :: 0 <= i < |body| ==> body[i] != Ch("\"")
    ensures Run(Init, lhs + InDoubleQuotes(body) + [Ch(";")]).1 == lhs + InDoubleQuotes(body) + [Ch(";")]
    ensures Run(Init, lhs + InDoubleQuotes(body) + [Ch(";")]).0.ctx == Default
  {
    DoubleQuotedStringUntouched(Run(Init, lhs).0, body);
    RunAppend(Init, lhs, InDoubleQuotes(body));
    assert Run(State(Default, Some("\"")), [Ch(";")]).0.ctx == Default;
    assert Run(State(Default, Some("\"")), [Ch(";")]).1 == [Ch(";")];
    RunAppend(Init, lhs + InDoubleQuotes(body), [Ch(";")]);
  }

  /** The second sample line: inside a double-quoted string the subscript is
      left alone. */
  lemma InterpolatedLineUntouched()
    ensures Run(Init, InterpolatedLine).1 == InterpolatedLine
    ensures Run(Init, InterpolatedLine).0.ctx == Default
  {
    assert Run(Init, AssignB).0.ctx == Default;
    assert Run(Init, AssignB).1 == AssignB;
    StringAssignmentUntouched(AssignB, InterpolatedBody);
  }

  /** The third sample line: escaped quotes inside the string are not quote
      tokens, so the subscript is still inside the literal and left alone. */
  lemma EscapedLineUntouched()
    ensures Run(Init, EscapedLine).1 == EscapedLine
    ensures Run(Init, EscapedLine).0.ctx == Default
  {
    assert Run(Init, AssignC).0.ctx == Default;
    assert Run(Init, AssignC).1 == AssignC;
    StringAssignmentUntouched(AssignC, EscapedBody);
  }

  /** The fourth sample line: a word after `->` is not right after `[`, so
      it is not quoted. */
  lemma MemberLineUntouched()
    ensures Run(Init, MemberLine).1 == MemberLine
  {
    NoTargetNoChange(Init, MemberLine);
  }

  /** An already quoted subscript passes through. */
  lemma QuotedIndexUntouched()
    ensures Run(Init, QuotedIndex).1 == QuotedIndex
  {
    NoTargetNoChange(Init, QuotedIndex);
  }

  /** A nested `[` keeps the array-index context, so both words are quoted;
      the first `]` already returns to Default. */
  lemma NestedIndexBothQuoted()
    ensures Run(Init, NestedIndex).1 ==
            [OtherTok("$a"), Ch("["), Lit("'b'"), Ch("["), Lit("'c'"), Ch("]"), Ch("]")]
  {
    assert Quote("b") == "'b'";
    assert Quote("c") == "'c'";
    assert Run(Init, [OtherTok("$a"), Ch("["), Word("b")]).0 == State(ArrayIndex, Some("'b'"));
    assert Run(Init, [OtherTok("$a"), Ch("["), Word("b")]).1 == [OtherTok("$a"), Ch("["), Lit("'b'")];
    assert Run(State(ArrayIndex, Some("'b'")), [Ch("["), Word("c"), Ch("]"), Ch("]")]).1
        == [Ch("["), Lit("'c'"), Ch("]"), Ch("]")];
    RunAppend(Init, [OtherTok("$a"), Ch("["), Word("b")], [Ch("["), Word("c"), Ch("]"), Ch("]")]);
    assert NestedIndex == [OtherTok("$a"), Ch("["), Word("b")] + [Ch("["), Word("c"), Ch("]"), Ch("]")];
  }

  /** A function name right after `[` is a bare word too, so it is quoted:
      `$a[count($b)]` becomes `$a['count'($b)]`. */
  lemma CallSubscriptQuoted()
    ensures Run(Init, CallSubscript).1 ==
            [OtherTok("$a"), Ch("["), Lit("'count'"), Ch("("), OtherTok("$b"), Ch(")"), Ch("]")]
  {
    assert Quote("count") == "'count'";
  }

  /** The text of the rewritten sample line. */
  lemma BareIndexText()
    ensures Concat(QuotedSubscript + Assignment) == "$a['b'] = 'c';"
  {
    assert Concat(QuotedSubscript) == "$a['b']";
    assert Concat(Assignment) == " = 'c';";
    ConcatAppend(QuotedSubscript, Assignment);
    assert "$a['b']" + " = 'c';" == "$a['b'] = 'c';";
  }

  /** The text of the rewritten nested subscript. */
  lemma NestedIndexText()
    ensures Concat([OtherTok("$a"), Ch("["), Lit("'b'"), Ch("["), Lit("'c'"), Ch("]"), Ch("]")]) == "$a['b'['c']]"
  {
    assert Concat([OtherTok("$a"), Ch("["), Lit("'b'"), Ch("["), Lit("'c'"), Ch("]"), Ch("]")])
        == "$a" + "[" + "'b'" + "[" + "'c'" + "]" + "]";
  }
}
