// What a CIL policy forbids, and the rewriting that lifts two capability restrictions from one
// domain. Meaning is relative to a valuation of names that satisfies the policy's declarations.
module CilPolicy {
  import opened CilSyntax
  import opened Strings

  // ---------- meaning ----------

  /** `v(a, t)`: type `t` belongs to the type, or attribute, named `a`. */
  type Valuation = (string, string) -> bool

  /** A set expression: a name, `all`, an operator form, or a plain list, which is a union. */
  ghost predicate Eval(e: Node, v: Valuation, t: string) {
    match e
    case Atom(a) => a == "all" || v(a, t)
    case List(items) =>
      if |items| == 3 && items[0] == Atom("and") then Eval(items[1], v, t) && Eval(items[2], v, t)
      else if |items| == 3 && items[0] == Atom("or") then Eval(items[1], v, t) || Eval(items[2], v, t)
      else if |items| == 3 && items[0] == Atom("xor") then Eval(items[1], v, t) != Eval(items[2], v, t)
      else if |items| == 2 && items[0] == Atom("not") then !Eval(items[1], v, t)
      else exists i | 0 <= i < |items| :: Eval(items[i], v, t)
  }

  function TypeStatement(a: string): Node {
    List([Atom("type"), Atom(a)])
  }

  function AttributeStatement(a: string): Node {
    List([Atom("typeattribute"), Atom(a)])
  }

  function SetStatement(a: string, e: Node): Node {
    List([Atom("typeattributeset"), Atom(a), e])
  }

  function Neverallow(source: Node, target: Node, cls: string, rights: seq<Node>): Node {
    List([Atom("neverallow"), source, target, List([Atom(cls), List(rights)])])
  }

  /** Some statement of the policy puts `t` into attribute `a`. */
  ghost predicate Member(policy: seq<Node>, v: Valuation, a: string, t: string) {
    exists e :: SetStatement(a, e) in policy && Eval(e, v, t)
  }

  ghost predicate TypesHold(policy: seq<Node>, v: Valuation) {
    forall a, t :: TypeStatement(a) in policy ==> (v(a, t) <==> t == a)
  }

  ghost predicate AttributesHold(policy: seq<Node>, v: Valuation) {
    forall a, t :: AttributeStatement(a) in policy ==> (v(a, t) <==> Member(policy, v, a, t))
  }

  /** The valuation gives every declared type itself, and every declared attribute its sets. */
  ghost predicate Satisfies(policy: seq<Node>, v: Valuation) {
    TypesHold(policy, v) && AttributesHold(policy, v)
  }

  datatype Access = Access(source: string, target: string, cls: string, right: string)

  /** A permission names itself. */
  function Itself(a: string, right: string): bool {
    a == right
  }

  ghost predicate TargetMatches(target: Node, v: Valuation, x: Access) {
    if target == Atom("self") then x.target == x.source else Eval(target, v, x.target)
  }

  /** The statement is a `neverallow` over a class and a permission list that covers `x`. */
  ghost predicate Forbids(statement: Node, v: Valuation, x: Access) {
    exists source, target, rights ::
      && statement == Neverallow(source, target, x.cls, rights)
      && Eval(source, v, x.source) && TargetMatches(target, v, x) && Eval(List(rights), Itself, x.right)
  }

  ghost predicate Forbidden(policy: seq<Node>, v: Valuation, x: Access) {
    exists s :: s in policy && Forbids(s, v, x)
  }

  // ---------- the rewriting ----------

  predicate IsLifted(right: Node) {
    right == Atom("sys_ptrace") || right == Atom("dac_override")
  }

  function Selected(rights: seq<Node>): (r: seq<Node>)
    ensures forall n :: n in r <==> n in rights && IsLifted(n)
  {
    if rights == [] then []
    else (if IsLifted(rights[0]) then [rights[0]] else []) + Selected(rights[1..])
  }

  function Remaining(rights: seq<Node>): (r: seq<Node>)
    ensures forall n :: n in r <==> n in rights && !IsLifted(n)
  {
    if rights == [] then []
    else (if IsLifted(rights[0]) then [] else [rights[0]]) + Remaining(rights[1..])
  }

  /** A top-level capability rule that names one of the two rights. */
  predicate Restricts(s: Node) {
    && s.List? && |s.items| == 4 && s.items[0] == Atom("neverallow")
    && s.items[3].List? && |s.items[3].items| == 2 && s.items[3].items[0] == Atom("capability")
    && s.items[3].items[1].List? && Selected(s.items[3].items[1].items) != []
  }

  function NameOf(number: nat): string {
    "rodin_touch_capability_restriction_" + Digits(number)
  }

  function Original(source: Node): Node {
    if source.List? then source else List([source])
  }

  function WithoutDaemon(source: Node): Node {
    List([Atom("and"), Original(source), List([Atom("not"), List([Atom("rodin_daemon")])])])
  }

  /** The statements that replace a restricting rule. */
  function Replacement(s: Node, number: nat): seq<Node>
    requires Restricts(s)
  {
    var source, target, rights := s.items[1], s.items[2], s.items[3].items[1].items;
    var name := NameOf(number);
    (if Remaining(rights) == [] then [] else [Neverallow(source, target, "capability", Remaining(rights))])
    + [AttributeStatement(name),
       SetStatement(name, WithoutDaemon(source)),
       Neverallow(Atom(name), target, "capability", Selected(rights))]
  }

  function Exception(roots: seq<Node>, number: nat): (seq<Node>, nat) {
    if roots == [] then ([], number)
    else if Restricts(roots[0]) then
      var (rest, n) := Exception(roots[1..], number + 1);
      (Replacement(roots[0], number) + rest, n)
    else
      var (rest, n) := Exception(roots[1..], number);
      ([roots[0]] + rest, n)
  }

  /** The rewriting as a loop that extends the output and counts the rules. */
  method RewriteAll(roots: seq<Node>) returns (output: seq<Node>, number: nat)
    ensures (output, number) == Exception(roots, 0)
  {
    output, number := [], 0;
    var i := 0;
    while i < |roots|
      invariant i <= |roots|
      invariant Exception(roots, 0).0 == output + Exception(roots[i..], number).0
      invariant Exception(roots, 0).1 == Exception(roots[i..], number).1
    {
      var node := roots[i];
      assert roots[i..][0] == node && roots[i..][1..] == roots[i + 1..];
      if !Restricts(node) {
        Regrouped(output, [node], Exception(roots[i + 1..], number).0);
        output := output + [node];
      } else {
        var permissions := node.items[3].items[1].items;
        var remaining := Remaining(permissions);
        ghost var before := output;
        if remaining != [] {
          output := output + [Neverallow(node.items[1], node.items[2], "capability", remaining)];
        }
        var name := NameOf(number);
        output := output + [AttributeStatement(name), SetStatement(name, WithoutDaemon(node.items[1])),
                            Neverallow(Atom(name), node.items[2], "capability", Selected(permissions))];
        assert output == before + Replacement(node, number);
        Regrouped(before, Replacement(node, number), Exception(roots[i + 1..], number + 1).0);
        number := number + 1;
      }
      i := i + 1;
    }
    assert output + [] == output;
  }

  lemma Regrouped(a: seq<Node>, b: seq<Node>, c: seq<Node>)
    ensures a + (b + c) == (a + b) + c
  {
  }

  // ---------- counting and order ----------

  function Count(roots: seq<Node>): nat {
    if roots == [] then 0 else (if Restricts(roots[0]) then 1 else 0) + Count(roots[1..])
  }

  /**
   * Statements keep their order: the output of a policy is the output of its parts, one after the
   * other; a statement that is not rewritten stands for itself; and the returned count is the
   * number of rewritten rules.
   */
  lemma {:induction false} ExceptionAppends(a: seq<Node>, b: seq<Node>, number: nat)
    ensures Exception(a + b, number).0 == Exception(a, number).0 + Exception(b, number + Count(a)).0
    ensures Exception(a, number).1 == number + Count(a)
    ensures Count(a) == 0 ==> Exception(a, number).0 == a
  {
    hide Replacement, Restricts;
    if a == [] {
      assert a + b == b;
    } else {
      assert (a + b)[1..] == a[1..] + b && (a + b)[0] == a[0];
      var next := if Restricts(a[0]) then number + 1 else number;
      ExceptionAppends(a[1..], b, next);
      var head := if Restricts(a[0]) then Replacement(a[0], number) else [a[0]];
      Regrouped(head, Exception(a[1..], next).0, Exception(b, number + Count(a)).0);
    }
  }
}
