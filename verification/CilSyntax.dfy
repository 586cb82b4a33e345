// CIL text: the tokenizer, the explicit-stack parser and the recursive printer.
module CilSyntax {
  datatype Node = Atom(text: string) | List(items: seq<Node>)

  datatype Error = Unbalanced | AtomOutside

  datatype Parsed = Ok(forest: seq<Node>) | Err(error: Error)

  // ---------- tokens ----------

  predicate IsSpace(c: char) {
    c == ' ' || '\t' <= c <= '\r' || '\U{1c}' <= c <= '\U{1f}' || c == '\U{85}' || c == '\U{a0}' || c == '\U{1680}'
    || '\U{2000}' <= c <= '\U{200a}' || c == '\U{2028}' || c == '\U{2029}' || c == '\U{202f}' || c == '\U{205f}' || c == '\U{3000}'
  }

  /** A character that can continue a bare word. */
  predicate IsPlain(c: char) {
    !IsSpace(c) && c != '(' && c != ')' && c != ';'
  }

  /** Just past the closing quote of the string whose body starts at the front of `s`, if it closes. */
  function Closing(s: string): (n: nat)
    ensures n <= |s|
  {
    if s == [] then 0
    else if s[0] == '"' then 1
    else if s[0] != '\\' then Shift(1, Closing(s[1..]))
    else if |s| == 1 || s[1] == '\n' then 0
    else Shift(2, Closing(s[2..]))
  }

  function Shift(k: nat, n: nat): nat {
    if n == 0 then 0 else k + n
  }

  function WordLength(s: string): (n: nat)
    ensures n <= |s|
  {
    if s == [] || !IsPlain(s[0]) then 0 else 1 + WordLength(s[1..])
  }

  function CommentLength(s: string): (n: nat)
    ensures n <= |s|
  {
    if s == [] || s[0] == '\n' then 0 else 1 + CommentLength(s[1..])
  }

  /** The length of the token at the front of `s`; zero where none starts. */
  function TokenLength(s: string): (n: nat)
    requires s != []
    ensures n <= |s|
    ensures n == 0 <==> IsSpace(s[0])
  {
    if s[0] == ';' then 1 + CommentLength(s[1..])
    else if s[0] == '"' && Closing(s[1..]) > 0 then 1 + Closing(s[1..])
    else if s[0] == '(' || s[0] == ')' then 1
    else WordLength(s)
  }

  function Tokens(s: string): seq<string>
    decreases |s|
  {
    if s == [] then []
    else
      var n := TokenLength(s);
      if n == 0 then Tokens(s[1..]) else [s[..n]] + Tokens(s[n..])
  }

  // ---------- the parser ----------

  predicate IsComment(token: string) {
    token != [] && token[0] == ';'
  }

  /** Adds a finished node to the innermost open list, or to the roots. */
  function Attach(node: Node, stack: seq<seq<Node>>, roots: seq<Node>): (seq<seq<Node>>, seq<Node>) {
    if stack == [] then (stack, roots + [node])
    else (stack[..|stack| - 1] + [stack[|stack| - 1] + [node]], roots)
  }

  function ParseFrom(tokens: seq<string>, stack: seq<seq<Node>>, roots: seq<Node>): Parsed {
    if tokens == [] then (if stack == [] then Ok(roots) else Err(Unbalanced))
    else
      var token, rest := tokens[0], tokens[1..];
      if IsComment(token) then ParseFrom(rest, stack, roots)
      else if token == "(" then ParseFrom(rest, stack + [[]], roots)
      else if token == ")" then
        if stack == [] then Err(Unbalanced)
        else
          var (s, r) := Attach(List(stack[|stack| - 1]), stack[..|stack| - 1], roots);
          ParseFrom(rest, s, r)
      else if stack == [] then Err(AtomOutside)
      else ParseFrom(rest, Attach(Atom(token), stack, roots).0, roots)
  }

  function Parse(text: string): Parsed {
    ParseFrom(Tokens(text), [], [])
  }

  /** The parser as a loop that updates the stack and the roots. */
  method ParseTokens(tokens: seq<string>) returns (r: Parsed)
    ensures r == ParseFrom(tokens, [], [])
  {
    var roots: seq<Node> := [];
    var stack: seq<seq<Node>> := [];
    var i := 0;
    while i < |tokens|
      invariant i <= |tokens|
      invariant ParseFrom(tokens, [], []) == ParseFrom(tokens[i..], stack, roots)
    {
      var token := tokens[i];
      assert tokens[i..][0] == token && tokens[i..][1..] == tokens[i + 1..];
      if IsComment(token) {
      } else if token == "(" {
        stack := stack + [[]];
      } else if token == ")" {
        if stack == [] {
          return Err(Unbalanced);
        }
        var node := List(stack[|stack| - 1]);
        stack := stack[..|stack| - 1];
        if stack == [] {
          roots := roots + [node];
        } else {
          stack := stack[..|stack| - 1] + [stack[|stack| - 1] + [node]];
        }
      } else if stack == [] {
        return Err(AtomOutside);
      } else {
        stack := stack[..|stack| - 1] + [stack[|stack| - 1] + [Atom(token)]];
      }
      i := i + 1;
    }
    r := if stack == [] then Ok(roots) else Err(Unbalanced);
  }

  // ---------- the printer ----------

  function Render(node: Node): string {
    match node
    case Atom(text) => text
    case List(items) => "(" + Join(items, ' ') + ")"
  }

  function Join(nodes: seq<Node>, separator: char): string {
    if nodes == [] then ""
    else if |nodes| == 1 then Render(nodes[0])
    else Render(nodes[0]) + [separator] + Join(nodes[1..], separator)
  }

  /** A whole file: one root per line. */
  function RenderAll(forest: seq<Node>): string {
    Join(forest, '\n') + "\n"
  }

  // ---------- the grammar ----------

  /** The tokens a forest stands for, comments aside. */
  function Flatten(nodes: seq<Node>): seq<string> {
    if nodes == [] then []
    else
      (match nodes[0] case Atom(text) => [text] case List(items) => ["("] + Flatten(items) + [")"])
      + Flatten(nodes[1..])
  }

  function FlattenOne(node: Node): seq<string> {
    match node case Atom(text) => [text] case List(items) => ["("] + Flatten(items) + [")"]
  }

  function Uncommented(tokens: seq<string>): seq<string> {
    if tokens == [] then []
    else (if IsComment(tokens[0]) then [] else [tokens[0]]) + Uncommented(tokens[1..])
  }

  /** The declarative acceptance condition: balanced, and no atom at depth zero. */
  predicate Accepts(tokens: seq<string>, depth: nat) {
    if tokens == [] then depth == 0
    else if IsComment(tokens[0]) then Accepts(tokens[1..], depth)
    else if tokens[0] == "(" then Accepts(tokens[1..], depth + 1)
    else if tokens[0] == ")" then depth > 0 && Accepts(tokens[1..], depth - 1)
    else depth > 0 && Accepts(tokens[1..], depth)
  }

  predicate IsForest(nodes: seq<Node>) {
    forall n :: n in nodes ==> n.List?
  }

  /** The tokens already read into the open lists. */
  function Open(stack: seq<seq<Node>>): seq<string> {
    if stack == [] then [] else ["("] + Flatten(stack[0]) + Open(stack[1..])
  }

  lemma {:induction false} FlattenAppend(a: seq<Node>, b: seq<Node>)
    ensures Flatten(a + b) == Flatten(a) + Flatten(b)
  {
    if a == [] {
      assert a + b == b;
    } else {
      assert (a + b)[1..] == a[1..] + b;
      FlattenAppend(a[1..], b);
    }
  }

  lemma FlattenSingle(node: Node)
    ensures Flatten([node]) == FlattenOne(node)
  {
    assert Flatten([]) == [];
    assert [node][1..] == [];
  }

  lemma {:induction false} OpenAppend(a: seq<seq<Node>>, b: seq<seq<Node>>)
    ensures Open(a + b) == Open(a) + Open(b)
  {
    if a == [] {
      assert a + b == b;
    } else {
      assert (a + b)[1..] == a[1..] + b;
      OpenAppend(a[1..], b);
    }
  }

  function OpenOne(nodes: seq<Node>): seq<string> {
    ["("] + Flatten(nodes)
  }

  lemma OpenLast(stack: seq<seq<Node>>, last: seq<Node>)
    ensures Open(stack + [last]) == Open(stack) + OpenOne(last)
  {
    OpenAppend(stack, [last]);
    assert [last][1..] == [];
    assert OpenOne(last) + [] == OpenOne(last);
  }

  /** Attaching a node records exactly its tokens. */
  lemma AttachFlattens(node: Node, stack: seq<seq<Node>>, roots: seq<Node>)
    ensures var (s, r) := Attach(node, stack, roots);
      && |s| == |stack|
      && Flatten(r) + Open(s) == Flatten(roots) + Open(stack) + FlattenOne(node)
  {
    FlattenSingle(node);
    if stack == [] {
      FlattenAppend(roots, [node]);
      assert Open([]) == [];
      hide Flatten, FlattenOne, Open;
      assert Flatten(roots + [node]) + [] == Flatten(roots) + [] + FlattenOne(node);
    } else {
      var below, last := stack[..|stack| - 1], stack[|stack| - 1];
      assert stack == below + [last];
      OpenLast(below, last);
      OpenLast(below, last + [node]);
      FlattenAppend(last, [node]);
      Assoc(Flatten(roots), Open(below), ["("], Flatten(last), FlattenOne(node));
    }
  }

  lemma Assoc(a: seq<string>, b: seq<string>, c: seq<string>, d: seq<string>, e: seq<string>)
    ensures a + (b + (c + (d + e))) == a + (b + (c + d)) + e
  {
  }

  /** What the parser has taken in so far. */
  function Taken(stack: seq<seq<Node>>, roots: seq<Node>): seq<string> {
    Flatten(roots) + Open(stack)
  }

  lemma OpenedTaken(stack: seq<seq<Node>>, roots: seq<Node>)
    ensures Taken(stack + [[]], roots) == Taken(stack, roots) + ["("]
  {
    OpenLast(stack, []);
    assert OpenOne([]) == ["("];
  }

  lemma ClosedTaken(stack: seq<seq<Node>>, roots: seq<Node>)
    requires stack != []
    ensures var (s, r) := Attach(List(stack[|stack| - 1]), stack[..|stack| - 1], roots);
      |s| == |stack| - 1 && Taken(s, r) == Taken(stack, roots) + [")"]
  {
    var below, last := stack[..|stack| - 1], stack[|stack| - 1];
    assert stack == below + [last];
    OpenLast(below, last);
    AttachFlattens(List(last), below, roots);
    hide Flatten, Open, Attach;
  }

  lemma UncommentedStep(taken: seq<string>, tokens: seq<string>)
    requires tokens != []
    ensures taken + Uncommented(tokens)
      == if IsComment(tokens[0]) then taken + Uncommented(tokens[1..]) else (taken + [tokens[0]]) + Uncommented(tokens[1..])
  {
    var u := Uncommented(tokens[1..]);
    if IsComment(tokens[0]) {
      assert [] + u == u;
    } else {
    }
  }

  lemma {:induction false} ParseSound(tokens: seq<string>, stack: seq<seq<Node>>, roots: seq<Node>)
    requires IsForest(roots)
    ensures var r := ParseFrom(tokens, stack, roots);
      && (r.Ok? <==> Accepts(tokens, |stack|))
      && (r.Ok? ==> IsForest(r.forest) && Flatten(r.forest) == Taken(stack, roots) + Uncommented(tokens))
  {
    if tokens == [] {
      assert Taken([], roots) + [] == Flatten(roots);
    } else {
      var token, rest := tokens[0], tokens[1..];
      UncommentedStep(Taken(stack, roots), tokens);
      hide Taken, Flatten, Open, Attach, IsForest, Uncommented;
      if IsComment(token) {
        ParseSound(rest, stack, roots);
      } else if token == "(" {
        OpenedTaken(stack, roots);
        ParseSound(rest, stack + [[]], roots);
      } else if token == ")" {
        if stack != [] {
          ClosedTaken(stack, roots);
          var (s, r) := Attach(List(stack[|stack| - 1]), stack[..|stack| - 1], roots);
          ParseSound(rest, s, r);
        }
      } else if stack != [] {
        AtomTaken(token, stack, roots);
        ParseSound(rest, Attach(Atom(token), stack, roots).0, roots);
      }
    }
  }

  lemma AtomTaken(token: string, stack: seq<seq<Node>>, roots: seq<Node>)
    requires stack != []
    ensures var s := Attach(Atom(token), stack, roots).0;
      |s| == |stack| && Taken(s, roots) == Taken(stack, roots) + [token]
  {
    AttachFlattens(Atom(token), stack, roots);
  }

  /**
   * `parse` accepts exactly the token lists that are balanced and keep every atom inside a list,
   * and what it returns stands for exactly those tokens, comments dropped.
   */
  lemma ParseAccepts(tokens: seq<string>)
    ensures ParseFrom(tokens, [], []).Ok? <==> Accepts(tokens, 0)
    ensures var r := ParseFrom(tokens, [], []);
      r.Ok? ==> IsForest(r.forest) && Flatten(r.forest) == Uncommented(tokens)
  {
    ParseSound(tokens, [], []);
    assert Taken([], []) + Uncommented(tokens) == Uncommented(tokens);
  }

  // ---------- round trip ----------

  predicate IsWord(a: string) {
    a != [] && a[0] != '"' && forall i :: 0 <= i < |a| ==> IsPlain(a[i])
  }

  predicate IsQuoted(a: string) {
    a != [] && a[0] == '"' && Closing(a[1..]) == |a| - 1 > 0
  }

  predicate IsIdentifier(a: string) {
    a != [] && forall i :: 0 <= i < |a| ==> 'a' <= a[i] <= 'z' || 'A' <= a[i] <= 'Z' || '0' <= a[i] <= '9' || a[i] == '_'
  }

  lemma IdentifierIsWord(a: string)
    requires IsIdentifier(a)
    ensures IsWord(a) && !IsQuoted(a)
  {
  }

  /** Every atom is a bare word or one complete quoted string. */
  predicate Proper(nodes: seq<Node>) {
    nodes == [] || (ProperOne(nodes[0]) && Proper(nodes[1..]))
  }

  predicate ProperOne(node: Node) {
    match node case Atom(text) => IsWord(text) || IsQuoted(text) case List(items) => Proper(items)
  }

  predicate Delimited(rest: string) {
    rest == [] || (!IsPlain(rest[0]))
  }

  lemma {:induction false} WordLengthOf(a: string, rest: string)
    requires forall i :: 0 <= i < |a| ==> IsPlain(a[i])
    requires Delimited(rest)
    ensures WordLength(a + rest) == |a|
  {
    if a == [] {
      assert a + rest == rest;
    } else {
      assert (a + rest)[1..] == a[1..] + rest;
      WordLengthOf(a[1..], rest);
    }
  }

  lemma {:induction false} ClosingOf(a: string, rest: string)
    requires Closing(a) > 0
    ensures Closing(a + rest) == Closing(a)
    decreases |a|
  {
    if a[0] == '"' {
    } else if a[0] != '\\' {
      assert (a + rest)[1..] == a[1..] + rest;
      ClosingOf(a[1..], rest);
    } else {
      assert (a + rest)[2..] == a[2..] + rest;
      ClosingOf(a[2..], rest);
    }
  }

  lemma AtomToken(a: string, rest: string)
    requires IsWord(a) || IsQuoted(a)
    requires Delimited(rest)
    ensures Tokens(a + rest) == [a] + Tokens(rest)
  {
    var s := a + rest;
    assert s[0] == a[0] && s[1..] == a[1..] + rest;
    if IsQuoted(a) {
      ClosingOf(a[1..], rest);
    } else {
      assert IsPlain(a[0]);
      WordLengthOf(a, rest);
    }
    assert TokenLength(s) == |a|;
    assert s[..|a|] == a && s[|a|..] == rest;
  }

  lemma SymbolToken(c: char, rest: string)
    requires c == '(' || c == ')'
    ensures Tokens([c] + rest) == [[c]] + Tokens(rest)
  {
    var s := [c] + rest;
    assert TokenLength(s) == 1 && s[..1] == [c] && s[1..] == rest;
  }

  lemma {:induction false} RenderTokens(node: Node, rest: string)
    requires ProperOne(node) && Delimited(rest)
    ensures Tokens(Render(node) + rest) == FlattenOne(node) + Tokens(rest)
    decreases node, 1
  {
    hide Tokens;
    match node
    case Atom(text) =>
      AtomToken(text, rest);
    case List(items) =>
      var tail := ")" + rest;
      assert ")" + rest == [')'] + rest;
      assert Render(node) + rest == ['('] + (Join(items, ' ') + tail);
      SymbolToken('(', Join(items, ' ') + tail);
      JoinTokens(items, ' ', tail);
      SymbolToken(')', rest);
      assert Tokens(Render(node) + rest) == ["("] + (Flatten(items) + ([")"] + Tokens(rest)));
  }

  lemma JoinMore(nodes: seq<Node>, separator: char, rest: string)
    requires |nodes| > 1
    ensures Join(nodes, separator) + rest == Render(nodes[0]) + ([separator] + (Join(nodes[1..], separator) + rest))
  {
  }

  lemma {:induction false} JoinTokens(nodes: seq<Node>, separator: char, rest: string)
    requires Proper(nodes) && Delimited(rest) && IsSpace(separator)
    ensures Tokens(Join(nodes, separator) + rest) == Flatten(nodes) + Tokens(rest)
    decreases nodes, 0
  {
    if nodes == [] {
      assert Join(nodes, separator) + rest == rest;
    } else {
      if |nodes| == 1 {
        assert nodes[1..] == [];
        assert Flatten([]) + Tokens(rest) == Tokens(rest);
        hide Tokens, IsSpace;
        RenderTokens(nodes[0], rest);
      } else {
        JoinMore(nodes, separator, rest);
        hide Tokens, Join, Flatten, FlattenOne, Render;
        var after := Join(nodes[1..], separator) + rest;
        RenderTokens(nodes[0], [separator] + after);
        JoinTokens(nodes[1..], separator, rest);
      }
    }
  }

  lemma RenderAllTokens(forest: seq<Node>)
    requires Proper(forest)
    ensures Tokens(RenderAll(forest)) == Flatten(forest)
  {
    JoinTokens(forest, '\n', "\n");
    assert "\n" == ['\n'] + "";
  }

  /** Reading the tokens of a list of nodes attaches those nodes, one by one. */
  function AttachAll(nodes: seq<Node>, stack: seq<seq<Node>>, roots: seq<Node>): (seq<seq<Node>>, seq<Node>) {
    if stack == [] then (stack, roots + nodes)
    else (stack[..|stack| - 1] + [stack[|stack| - 1] + nodes], roots)
  }

  lemma AttachAllStep(first: Node, more: seq<Node>, stack: seq<seq<Node>>, roots: seq<Node>)
    ensures var (s, r) := Attach(first, stack, roots); AttachAll(more, s, r) == AttachAll([first] + more, stack, roots)
  {
    var (s, r) := Attach(first, stack, roots);
    if stack == [] {
      assert roots + [first] + more == roots + ([first] + more);
    } else {
      assert s[..|s| - 1] == stack[..|stack| - 1];
      assert stack[|stack| - 1] + [first] + more == stack[|stack| - 1] + ([first] + more);
    }
  }

  lemma AttachNone(stack: seq<seq<Node>>, roots: seq<Node>)
    ensures AttachAll([], stack, roots) == (stack, roots)
  {
    if stack == [] {
      assert roots + [] == roots;
    } else {
      assert stack[|stack| - 1] + [] == stack[|stack| - 1];
      assert stack == stack[..|stack| - 1] + [stack[|stack| - 1]];
    }
  }

  lemma {:induction false} ParseNodes(nodes: seq<Node>, rest: seq<string>, stack: seq<seq<Node>>, roots: seq<Node>)
    requires Proper(nodes) && (stack == [] ==> IsForest(nodes))
    ensures var (s, r) := AttachAll(nodes, stack, roots);
      ParseFrom(Flatten(nodes) + rest, stack, roots) == ParseFrom(rest, s, r)
    decreases nodes, 0
  {
    hide ParseFrom;
    if nodes == [] {
      assert Flatten(nodes) + rest == rest;
      AttachNone(stack, roots);
    } else {
      var first := nodes[0];
      assert nodes == [first] + nodes[1..];
      var rest1 := Flatten(nodes[1..]) + rest;
      assert Flatten(nodes) + rest == FlattenOne(first) + rest1;
      var (s, r) := Attach(first, stack, roots);
      ParseOne(first, rest1, stack, roots);
      ParseNodes(nodes[1..], rest, s, r);
      AttachAllStep(first, nodes[1..], stack, roots);
    }
  }

  lemma ParseAtom(text: string, rest: seq<string>, stack: seq<seq<Node>>, roots: seq<Node>)
    requires (IsWord(text) || IsQuoted(text)) && stack != []
    ensures var (s, r) := Attach(Atom(text), stack, roots);
      ParseFrom([text] + rest, stack, roots) == ParseFrom(rest, s, r)
  {
    assert ([text] + rest)[0] == text && ([text] + rest)[1..] == rest;
  }

  lemma {:induction false} ParseOne(node: Node, rest: seq<string>, stack: seq<seq<Node>>, roots: seq<Node>)
    requires ProperOne(node) && (stack == [] ==> node.List?)
    ensures var (s, r) := Attach(node, stack, roots);
      ParseFrom(FlattenOne(node) + rest, stack, roots) == ParseFrom(rest, s, r)
    decreases node, 1
  {
    match node
    case Atom(text) => ParseAtom(text, rest, stack, roots);
    case List(items) =>
      hide IsWord, IsQuoted, Proper;
      var inner := [")"] + rest;
      var tokens := FlattenOne(node) + rest;
      assert tokens[0] == "(" && tokens[1..] == Flatten(items) + inner;
      ParseNodes(items, inner, stack + [[]], roots);
      var (s, r) := AttachAll(items, stack + [[]], roots);
      assert s == stack + [items] by { assert [] + items == items; }
      assert inner[0] == ")" && inner[1..] == rest;
      assert s[..|s| - 1] == stack && s[|s| - 1] == items;
  }

  /**
   * Printing and parsing are inverse: any forest of lists whose atoms are bare words or complete
   * quoted strings is read back unchanged from its printed file.
   */
  lemma RoundTrip(forest: seq<Node>)
    requires IsForest(forest) && Proper(forest)
    ensures Parse(RenderAll(forest)) == Ok(forest)
  {
    RenderAllTokens(forest);
    ParseNodes(forest, [], [], []);
    assert Flatten(forest) + [] == Flatten(forest);
    assert [] + forest == forest;
  }
}
