// CIL files as people write them: any spacing, and comments wherever a space may stand.
module CilText {
  import opened CilSyntax

  /** One piece of what may stand between two tokens; a comment ends at its line break. */
  datatype Piece = Space(c: char) | Comment(text: string)

  predicate IsPiece(p: Piece) {
    match p case Space(c) => IsSpace(c) case Comment(text) => '\n' !in text
  }

  predicate IsGap(g: seq<Piece>) {
    forall p :: p in g ==> IsPiece(p)
  }

  function PieceText(p: Piece): string {
    match p case Space(c) => [c] case Comment(text) => ";" + text + "\n"
  }

  function GapText(g: seq<Piece>): string {
    if g == [] then "" else PieceText(g[0]) + GapText(g[1..])
  }

  /** The tokens of a text that are no comments. */
  function Words(s: string): seq<string> {
    Uncommented(Tokens(s))
  }

  lemma {:induction false} CommentLengthOf(c: string, rest: string)
    requires '\n' !in c && (rest == [] || rest[0] == '\n')
    ensures CommentLength(c + rest) == |c|
  {
    if c == [] {
      assert c + rest == rest;
    } else {
      assert (c + rest)[1..] == c[1..] + rest;
      CommentLengthOf(c[1..], rest);
    }
  }

  /** A comment reaches exactly to its line break, or to the end of the text. */
  lemma CommentWords(c: string, rest: string)
    requires '\n' !in c && (rest == [] || rest[0] == '\n')
    ensures Words(";" + c + rest) == Words(rest)
  {
    var s := ";" + c + rest;
    CommentLengthOf(c, rest);
    assert s[1..] == c + rest;
    assert TokenLength(s) == 1 + |c|;
    assert s[..1 + |c|] == ";" + c && s[1 + |c|..] == rest;
    assert Tokens(s) == [";" + c] + Tokens(rest);
    assert ([";" + c] + Tokens(rest))[1..] == Tokens(rest);
  }

  lemma SpaceWords(c: char, rest: string)
    requires IsSpace(c)
    ensures Words([c] + rest) == Words(rest)
  {
    assert ([c] + rest)[1..] == rest;
  }

  lemma PieceWords(p: Piece, rest: string)
    requires IsPiece(p)
    ensures Words(PieceText(p) + rest) == Words(rest)
  {
    hide Words;
    match p
    case Space(c) => SpaceWords(c, rest);
    case Comment(text) =>
      assert PieceText(p) + rest == ";" + text + ("\n" + rest);
      CommentWords(text, "\n" + rest);
      assert "\n" + rest == ['\n'] + rest;
      SpaceWords('\n', rest);
  }

  lemma {:induction false} GapWords(g: seq<Piece>, rest: string)
    requires IsGap(g)
    ensures Words(GapText(g) + rest) == Words(rest)
  {
    hide Words;
    if g == [] {
      assert GapText(g) + rest == rest;
    } else {
      assert GapText(g) + rest == PieceText(g[0]) + (GapText(g[1..]) + rest);
      assert g[0] in g;
      PieceWords(g[0], GapText(g[1..]) + rest);
      GapWords(g[1..], rest);
    }
  }

  /** A parse does not depend on the comments among the tokens. */
  lemma {:induction false} CommentsDoNotParse(tokens: seq<string>, stack: seq<seq<Node>>, roots: seq<Node>)
    ensures ParseFrom(tokens, stack, roots) == ParseFrom(Uncommented(tokens), stack, roots)
  {
    if tokens != [] {
      var token, rest := tokens[0], tokens[1..];
      var some := Uncommented(rest);
      if IsComment(token) {
        CommentsDoNotParse(rest, stack, roots);
        assert [] + some == some;
      } else {
        assert ([token] + some)[0] == token && ([token] + some)[1..] == some;
        if token == "(" {
          CommentsDoNotParse(rest, stack + [[]], roots);
        } else if stack != [] {
          var node := if token == ")" then List(stack[|stack| - 1]) else Atom(token);
          var (s, r) := Attach(node, if token == ")" then stack[..|stack| - 1] else stack, roots);
          CommentsDoNotParse(rest, s, r);
          CommentsDoNotParse(rest, s, roots);
        }
      }
    }
  }

  lemma WordsParse(s: string)
    ensures Parse(s) == ParseFrom(Words(s), [], [])
  {
    CommentsDoNotParse(Tokens(s), [], []);
  }

  /** Whatever follows, a comment line at the front is as if it were not there. */
  lemma CommentLineParses(c: string, rest: string)
    requires '\n' !in c
    ensures Parse(";" + c + "\n" + rest) == Parse(rest)
  {
    PieceWords(Comment(c), rest);
    WordsParse(";" + c + "\n" + rest);
    WordsParse(rest);
  }

  /** Spaces, tabs and line ends of either kind separate tokens. */
  lemma UsualSpaces(c: char)
    requires c in {' ', '\t', '\n', '\r'}
    ensures IsPiece(Space(c)) && !IsPlain(c)
  {
  }

  // ---------- every layout of a token list ----------

  predicate IsParen(t: string) {
    t == "(" || t == ")"
  }

  predicate IsToken(t: string) {
    IsParen(t) || IsWord(t) || IsQuoted(t)
  }

  /** The tokens, each with the gap after it. */
  function Laid(ts: seq<string>, gaps: seq<seq<Piece>>): string
    requires |ts| == |gaps|
  {
    if ts == [] then "" else ts[0] + GapText(gaps[0]) + Laid(ts[1..], gaps[1..])
  }

  /** Two tokens may touch only if one of them is a parenthesis. */
  predicate Fits(ts: seq<string>, gaps: seq<seq<Piece>>) {
    && |ts| == |gaps|
    && (forall i :: 0 <= i < |ts| ==> IsToken(ts[i]) && IsGap(gaps[i]))
    && (forall i :: 0 <= i < |ts| - 1 && gaps[i] == [] ==> IsParen(ts[i]) || IsParen(ts[i + 1]))
  }

  lemma GapDelimits(g: seq<Piece>, rest: string)
    requires IsGap(g) && (g != [] || Delimited(rest))
    ensures Delimited(GapText(g) + rest)
  {
    if g == [] {
      assert GapText(g) + rest == rest;
    } else {
      assert g[0] in g;
      assert (GapText(g) + rest)[0] == PieceText(g[0])[0];
    }
  }

  lemma TokenWords(t: string, rest: string)
    requires IsToken(t) && (IsParen(t) || Delimited(rest))
    ensures Words(t + rest) == [t] + Words(rest)
  {
    if IsParen(t) {
      assert t == [t[0]];
      SymbolToken(t[0], rest);
    } else {
      AtomToken(t, rest);
    }
    hide Tokens;
    assert Tokens(t + rest) == [t] + Tokens(rest);
    assert ([t] + Tokens(rest))[1..] == Tokens(rest);
    assert !IsComment(t);
  }

  lemma FitsRest(ts: seq<string>, gaps: seq<seq<Piece>>)
    requires Fits(ts, gaps) && ts != []
    ensures Fits(ts[1..], gaps[1..])
  {
    hide IsToken, IsGap, IsParen;
    assert forall i :: 0 <= i < |ts| - 1 ==> ts[1..][i] == ts[i + 1] && gaps[1..][i] == gaps[i + 1];
  }

  /** Where a bare token stands without a gap, the parenthesis or the end after it delimits it. */
  lemma LaidDelimits(ts: seq<string>, gaps: seq<seq<Piece>>, tail: string)
    requires Fits(ts, gaps) && ts != [] && !IsParen(ts[0]) && Delimited(tail)
    ensures gaps[0] != [] || Delimited(Laid(ts[1..], gaps[1..]) + tail)
  {
    if |ts| == 1 {
      assert Laid(ts[1..], gaps[1..]) + tail == tail;
    } else if gaps[0] == [] {
      assert IsParen(ts[1]) && ts[1..][0] == ts[1];
    }
  }

  lemma LaidFirst(ts: seq<string>, gaps: seq<seq<Piece>>, tail: string)
    requires |ts| == |gaps| && ts != []
    ensures Laid(ts, gaps) + tail == ts[0] + (GapText(gaps[0]) + (Laid(ts[1..], gaps[1..]) + tail))
  {
  }

  lemma TokenAndGap(t: string, g: seq<Piece>, rest: string)
    requires IsToken(t) && IsGap(g) && (IsParen(t) || g != [] || Delimited(rest))
    ensures Words(t + (GapText(g) + rest)) == [t] + Words(rest)
  {
    hide Words, IsToken, IsGap, GapText, Delimited;
    if !IsParen(t) { GapDelimits(g, rest); }
    TokenWords(t, GapText(g) + rest);
    GapWords(g, rest);
  }

  lemma {:induction false} LaidWords(ts: seq<string>, gaps: seq<seq<Piece>>, tail: string)
    requires Fits(ts, gaps) && Delimited(tail)
    ensures Words(Laid(ts, gaps) + tail) == ts + Words(tail)
  {
    hide Words, IsToken, GapText, IsParen, Delimited, IsGap;
    if ts == [] {
      assert Laid(ts, gaps) + tail == tail;
    } else {
      if !IsParen(ts[0]) { LaidDelimits(ts, gaps, tail); }
      FitsRest(ts, gaps);
      LaidFirst(ts, gaps, tail);
      TokenAndGap(ts[0], gaps[0], Laid(ts[1..], gaps[1..]) + tail);
      LaidWords(ts[1..], gaps[1..], tail);
      assert ts + Words(tail) == [ts[0]] + (ts[1..] + Words(tail));
    }
  }

  lemma LayoutWords(lead: seq<Piece>, ts: seq<string>, gaps: seq<seq<Piece>>, tail: string)
    requires IsGap(lead) && Fits(ts, gaps) && Delimited(tail)
    ensures Words(GapText(lead) + Laid(ts, gaps) + tail) == ts + Words(tail)
  {
    hide Words, Laid, GapText, IsGap;
    assert GapText(lead) + Laid(ts, gaps) + tail == GapText(lead) + (Laid(ts, gaps) + tail);
    GapWords(lead, Laid(ts, gaps) + tail);
    LaidWords(ts, gaps, tail);
  }

  /**
   * A file is read by its tokens alone: for any tokens, balanced or not, with any spaces and
   * comments before, between and after them, also a last comment without a line break.
   */
  lemma LayoutParses(lead: seq<Piece>, ts: seq<string>, gaps: seq<seq<Piece>>, last: string)
    requires IsGap(lead) && Fits(ts, gaps) && '\n' !in last
    ensures Parse(GapText(lead) + Laid(ts, gaps)) == ParseFrom(ts, [], [])
    ensures Parse(GapText(lead) + Laid(ts, gaps) + ";" + last) == ParseFrom(ts, [], [])
  {
    var tail := ";" + last;
    CommentWords(last, "");
    assert ";" + last + "" == tail && Words("") == [] && Delimited(tail) && Delimited("");
    hide Words, Laid, GapText, IsGap, IsToken, ParseFrom, Parse, Delimited;
    var text := GapText(lead) + Laid(ts, gaps);
    assert text + "" == text && ts + [] == ts && text + ";" + last == text + tail;
    LayoutWords(lead, ts, gaps, "");
    LayoutWords(lead, ts, gaps, tail);
    WordsParse(text);
    WordsParse(text + tail);
  }

  /** However a forest is laid out, it is read back. */
  lemma AnyLayoutIsRead(forest: seq<Node>, lead: seq<Piece>, gaps: seq<seq<Piece>>)
    requires IsForest(forest) && Proper(forest) && IsGap(lead) && Fits(Flatten(forest), gaps)
    ensures Parse(GapText(lead) + Laid(Flatten(forest), gaps)) == Ok(forest)
  {
    LayoutParses(lead, Flatten(forest), gaps, "");
    ParseNodes(forest, [], [], []);
    assert Flatten(forest) + [] == Flatten(forest);
    assert [] + forest == forest;
  }
}
