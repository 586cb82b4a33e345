// Renaming vendor identifiers in a policy fragment.
module CilRemap {
  import opened CilSyntax
  import opened CilPolicy
  import opened CilException

  type Labels = map<string, string>

  function Renamed(a: string, labels: Labels): string {
    if a in labels then labels[a] else a
  }

  function Remap(nodes: seq<Node>, labels: Labels): (r: seq<Node>)
    ensures |r| == |nodes|
    decreases nodes, 0
  {
    if nodes == [] then [] else [RemapOne(nodes[0], labels)] + Remap(nodes[1..], labels)
  }

  function RemapOne(node: Node, labels: Labels): Node
    decreases node, 1
  {
    match node
    case Atom(text) => Atom(Renamed(text, labels))
    case List(items) => List(Remap(items, labels))
  }

  /** What the tool accepts as labels. */
  predicate ValidLabels(labels: Labels) {
    forall a :: a in labels ==> IsIdentifier(a) && IsIdentifier(labels[a]) && !("rodin_" <= a)
  }

  /** No operator is renamed, and nothing else is renamed to one. */
  predicate SparesOperators(labels: Labels) {
    forall a :: a in labels ==> labels[a] == a || (!IsOperator(a) && !IsOperator(labels[a]))
  }

  /** The valuation that looks every name up under its new one. */
  function Through(v: Valuation, labels: Labels): Valuation {
    (a, t) => v(Renamed(a, labels), t)
  }

  lemma {:induction false} RemapAt(nodes: seq<Node>, labels: Labels, i: nat)
    requires i < |nodes|
    ensures Remap(nodes, labels)[i] == RemapOne(nodes[i], labels)
  {
    if i > 0 { RemapAt(nodes[1..], labels, i - 1); }
  }

  lemma SparedOperators(labels: Labels, a: string)
    requires SparesOperators(labels)
    ensures IsOperator(a) || IsOperator(Renamed(a, labels)) ==> Renamed(a, labels) == a
  {
  }

  /**
   * Renaming and meaning commute: a renamed expression means under a valuation what the original
   * means when each name is looked up under its new one, provided no operator is renamed.
   */
  lemma {:induction false} RemapSubstitutes(e: Node, labels: Labels, v: Valuation, t: string)
    requires SparesOperators(labels)
    ensures Eval(RemapOne(e, labels), v, t) <==> Eval(e, Through(v, labels), t)
  {
    match e
    case Atom(text) => SparedOperators(labels, text);
    case List(items) =>
      var renamed := Remap(items, labels);
      forall i | 0 <= i < |items| ensures renamed[i] == RemapOne(items[i], labels) && (Eval(renamed[i], v, t) <==> Eval(items[i], Through(v, labels), t)) {
        RemapAt(items, labels, i);
        RemapSubstitutes(items[i], labels, v, t);
      }
      if items != [] {
        HeadKept(items[0], labels);
      }
      hide RemapOne, Remap, Renamed, Through, SparesOperators;
  }

  lemma HeadKept(head: Node, labels: Labels)
    requires SparesOperators(labels)
    ensures forall a :: IsOperator(a) ==> (RemapOne(head, labels) == Atom(a) <==> head == Atom(a))
  {
    if head.Atom? { SparedOperators(labels, head.text); }
  }

  ghost predicate Commutes(labels: Labels, e: Node, v: Valuation, t: string) {
    Eval(RemapOne(e, labels), v, t) <==> Eval(e, Through(v, labels), t)
  }

  ghost predicate Full(v: Valuation) {
    forall a, t :: v(a, t)
  }

  /** A form with two operands, each of them a name or nothing. */
  function Form(a: string, left: bool, right: bool): Node {
    List([Atom(a), if left then Atom("x") else List([]), if right then Atom("x") else List([])])
  }

  predicate FormMeans(a: string, left: bool, right: bool) {
    if a == "and" then left && right else if a == "or" then left || right else if a == "xor" then left != right else true
  }

  lemma EvalForm(e: Node, a: string, left: bool, right: bool, v: Valuation)
    requires e.List? && |e.items| == 3 && e.items[0] == Atom(a) && Full(v)
    requires if left then e.items[1].Atom? else e.items[1] == List([])
    requires if right then e.items[2].Atom? else e.items[2] == List([])
    ensures Eval(e, v, "") <==> FormMeans(a, left, right)
  {
    assert a != "all" ==> Eval(Atom(a), v, "") == v(a, "");
    assert Eval(e.items[0], v, "");
  }

  lemma FormsAgree(labels: Labels, a: string, left: bool, right: bool)
    requires forall e, v, t :: Commutes(labels, e, v, t)
    ensures FormMeans(a, left, right) == FormMeans(Renamed(a, labels), left, right)
  {
    var v: Valuation := (_, _) => true;
    var e := Form(a, left, right);
    RemapAt(e.items, labels, 0);
    RemapAt(e.items, labels, 1);
    RemapAt(e.items, labels, 2);
    hide Eval, FormMeans;
    assert Remap([], labels) == [];
    assert Commutes(labels, e, v, "");
    EvalForm(RemapOne(e, labels), Renamed(a, labels), left, right, v);
    EvalForm(e, a, left, right, Through(v, labels));
  }

  /** A head with one name under it is false of everything only when it complements. */
  lemma ComplementsAgree(labels: Labels, a: string)
    requires forall e, v, t :: Commutes(labels, e, v, t)
    ensures a == "not" <==> Renamed(a, labels) == "not"
  {
    var v: Valuation := (_, _) => true;
    var e := List([Atom(a), Atom("x")]);
    RemapAt(e.items, labels, 0);
    RemapAt(e.items, labels, 1);
    assert Commutes(labels, e, v, "");
    EvalPair(RemapOne(e, labels), Renamed(a, labels), v);
    EvalPair(e, a, Through(v, labels));
  }

  lemma EvalPair(e: Node, a: string, v: Valuation)
    requires e.List? && |e.items| == 2 && e.items[0] == Atom(a) && e.items[1].Atom? && Full(v)
    ensures Eval(e, v, "") <==> a != "not"
  {
    assert Eval(e.items[0], v, "") && Eval(e.items[1], v, "");
  }

  lemma EverythingAgrees(labels: Labels, a: string)
    requires forall e, v, t :: Commutes(labels, e, v, t)
    ensures a == "all" <==> Renamed(a, labels) == "all"
  {
    var v: Valuation := (_, _) => false;
    assert Commutes(labels, Atom(a), v, "");
  }

  /**
   * Exactly which renamings keep the meaning of every expression. The tool's own check of labels
   * also accepts a label that renames an operator, or renames a name to one.
   */
  lemma RemapCommutesExactly(labels: Labels)
    ensures (forall e, v, t :: Commutes(labels, e, v, t)) <==> SparesOperators(labels)
    ensures ValidLabels(map["not" := "vendor_not"]) && !SparesOperators(map["not" := "vendor_not"])
  {
    hide Eval, Through, RemapOne;
    var m := map["not" := "vendor_not"];
    assert "not" in m && |m["not"]| == 10;
    if forall e, v, t :: Commutes(labels, e, v, t) {
      forall a | a in labels ensures labels[a] == a || (!IsOperator(a) && !IsOperator(labels[a])) {
        FormsAgree(labels, a, true, true);
        FormsAgree(labels, a, true, false);
        FormsAgree(labels, a, false, false);
        ComplementsAgree(labels, a);
        EverythingAgrees(labels, a);
      }
    }
    if SparesOperators(labels) {
      forall e, v, t ensures Commutes(labels, e, v, t) { RemapSubstitutes(e, labels, v, t); }
    }
  }

  lemma {:induction false} RemapProper(nodes: seq<Node>, labels: Labels)
    requires Proper(nodes) && ValidLabels(labels)
    ensures Proper(Remap(nodes, labels))
    decreases nodes, 0
  {
    if nodes != [] {
      RemapProperOne(nodes[0], labels);
      RemapProper(nodes[1..], labels);
      var r := Remap(nodes, labels);
      assert r[0] == RemapOne(nodes[0], labels) && r[1..] == Remap(nodes[1..], labels);
    }
  }

  lemma {:induction false} RemapProperOne(node: Node, labels: Labels)
    requires ProperOne(node) && ValidLabels(labels)
    ensures ProperOne(RemapOne(node, labels))
    decreases node, 1
  {
    match node
    case Atom(text) => if text in labels { IdentifierIsWord(labels[text]); }
    case List(items) => RemapProper(items, labels);
  }

  /**
   * A renamed fragment is written and read back unchanged, quoted strings are never renamed, and
   * the daemon's own names keep theirs.
   */
  lemma RemapRoundTrip(forest: seq<Node>, labels: Labels)
    requires IsForest(forest) && Proper(forest) && ValidLabels(labels)
    ensures Parse(RenderAll(Remap(forest, labels))) == Ok(Remap(forest, labels))
    ensures forall a :: IsQuoted(a) || "rodin_" <= a ==> Renamed(a, labels) == a
  {
    RemapProper(forest, labels);
    forall n | n in Remap(forest, labels) ensures n.List? {
      var i :| 0 <= i < |forest| && Remap(forest, labels)[i] == n;
      RemapAt(forest, labels, i);
      assert forest[i] in forest;
    }
    RoundTrip(Remap(forest, labels));
    forall a | IsQuoted(a) ensures a !in labels {
      if a in labels { IdentifierIsWord(a); }
    }
  }
}
