// The rewriting changes what a policy forbids by exactly one domain and two rights.
module CilException {
  import opened CilSyntax
  import opened CilPolicy
  import opened Strings

  /** The accesses the rewriting is meant to free: one domain, one class, two rights. */
  predicate Exempt(x: Access) {
    x.source == "rodin_daemon" && x.cls == "capability" && (x.right == "sys_ptrace" || x.right == "dac_override")
  }

  predicate IsOperator(a: string) {
    a == "all" || a == "and" || a == "or" || a == "xor" || a == "not"
  }

  /** A permission list that only enumerates rights. */
  predicate Plain(rights: seq<Node>) {
    forall n :: n in rights ==> n.Atom? && !IsOperator(n.text)
  }

  function Rights(s: Node): seq<Node>
    requires Restricts(s)
  {
    s.items[3].items[1].items
  }

  /** Taking the two rights out of the list by name takes out just what the list covers of them. */
  ghost predicate EnumeratesAt(rights: seq<Node>, right: string) {
    if IsLifted(Atom(right)) then
      (Eval(List(rights), Itself, right) <==> Atom(right) in rights) && !Eval(List(Remaining(rights)), Itself, right)
    else
      Eval(List(rights), Itself, right) <==> Eval(List(Remaining(rights)), Itself, right)
  }

  /** A permission list that treats the two rights as names: the lists the rewriting is right about. */
  ghost predicate Enumerates(rights: seq<Node>) {
    forall right :: EnumeratesAt(rights, right)
  }

  ghost predicate EnumeratedRules(roots: seq<Node>) {
    forall s :: s in roots && Restricts(s) ==> Enumerates(Rights(s))
  }

  ghost predicate DaemonIsType(v: Valuation) {
    forall t :: v("rodin_daemon", t) <==> t == "rodin_daemon"
  }

  // ---------- one rule ----------

  lemma EvalPlain(rights: seq<Node>, right: string)
    requires Plain(rights)
    ensures Eval(List(rights), Itself, right) <==> Atom(right) in rights
  {
    forall i | 0 <= i < |rights| ensures Eval(rights[i], Itself, right) <==> rights[i] == Atom(right) {
      assert rights[i] in rights;
    }
    if |rights| > 0 { assert rights[0] in rights; }
  }

  lemma EvalOriginal(source: Node, v: Valuation, t: string)
    ensures Eval(Original(source), v, t) <==> Eval(source, v, t)
  {
    if source.Atom? {
      assert List([source]).items[0] == source;
    }
  }

  lemma EvalWithoutDaemon(source: Node, v: Valuation, t: string)
    requires DaemonIsType(v)
    ensures Eval(WithoutDaemon(source), v, t) <==> Eval(source, v, t) && t != "rodin_daemon"
  {
    EvalOriginal(source, v, t);
    var daemon := Atom("rodin_daemon");
    EvalOriginal(daemon, v, t);
    assert Eval(List([Atom("not"), List([daemon])]), v, t) <==> !Eval(List([daemon]), v, t);
  }

  lemma ForbidsRule(source: Node, target: Node, cls: string, rights: seq<Node>, v: Valuation, x: Access)
    ensures Forbids(Neverallow(source, target, cls, rights), v, x)
      <==> x.cls == cls && Eval(source, v, x.source) && TargetMatches(target, v, x) && Eval(List(rights), Itself, x.right)
  {
    hide Eval, TargetMatches;
    var s := Neverallow(source, target, cls, rights);
    forall source', target', rights' | s == Neverallow(source', target', x.cls, rights')
      ensures source' == source && target' == target && x.cls == cls && rights' == rights
    {
      assert s.items[1] == source && s.items[1] == source';
      assert s.items[2] == target && s.items[2] == target';
      assert s.items[3] == List([Atom(cls), List(rights)]) && s.items[3] == List([Atom(x.cls), List(rights')]);
      assert s.items[3].items[0] == Atom(cls) && s.items[3].items[0] == Atom(x.cls);
      assert s.items[3].items[1] == List(rights) && s.items[3].items[1] == List(rights');
    }
  }

  lemma OtherHeadForbidsNothing(s: Node, v: Valuation, x: Access)
    requires s.List? && s.items != [] && s.items[0] != Atom("neverallow")
    ensures !Forbids(s, v, x)
  {
    hide Eval, TargetMatches;
    forall source, target, rights ensures s != Neverallow(source, target, x.cls, rights) {
      assert Neverallow(source, target, x.cls, rights).items[0] == Atom("neverallow");
    }
  }

  lemma RestrictsShape(s: Node)
    requires Restricts(s)
    ensures s == Neverallow(s.items[1], s.items[2], "capability", Rights(s))
  {
    assert s.items == [s.items[0], s.items[1], s.items[2], s.items[3]];
    assert s.items[3].items == [s.items[3].items[0], s.items[3].items[1]];
  }

  lemma PlainEnumerates(rights: seq<Node>)
    requires Plain(rights)
    ensures Enumerates(rights)
  {
    forall right ensures EnumeratesAt(rights, right) {
      EvalPlain(rights, right);
      EvalPlain(Remaining(rights), right);
    }
  }

  /** Access `x` is between the rule's source and its target, in its class. */
  ghost predicate Between(s: Node, v: Valuation, x: Access)
    requires Restricts(s)
  {
    x.cls == "capability" && Eval(s.items[1], v, x.source) && TargetMatches(s.items[2], v, x)
  }

  lemma RuleMeans(s: Node, v: Valuation, x: Access)
    requires Restricts(s)
    ensures Forbids(s, v, x) <==> Between(s, v, x) && Eval(List(Rights(s)), Itself, x.right)
  {
    RestrictsShape(s);
    ForbidsRule(s.items[1], s.items[2], "capability", Rights(s), v, x);
  }

  /** What the replacement forbids, whatever its permission list looks like. */
  lemma ReplacementMeans(s: Node, number: nat, v: Valuation, x: Access)
    requires Restricts(s) && DaemonIsType(v)
    requires forall t :: v(NameOf(number), t) <==> Eval(WithoutDaemon(s.items[1]), v, t)
    ensures Forbidden(Replacement(s, number), v, x) <==>
      && Between(s, v, x)
      && (|| Eval(List(Remaining(Rights(s))), Itself, x.right)
          || (IsLifted(Atom(x.right)) && Atom(x.right) in Rights(s) && x.source != "rodin_daemon"))
  {
    var source, target, rights := s.items[1], s.items[2], Rights(s);
    var name := NameOf(number);
    var kept := Neverallow(source, target, "capability", Remaining(rights));
    var narrowed := Neverallow(Atom(name), target, "capability", Selected(rights));
    var a, b := AttributeStatement(name), SetStatement(name, WithoutDaemon(source));
    ForbidsRule(source, target, "capability", Remaining(rights), v, x);
    ForbidsRule(Atom(name), target, "capability", Selected(rights), v, x);
    EvalPlain(Selected(rights), x.right);
    EvalWithoutDaemon(source, v, x.source);
    OtherHeadForbidsNothing(a, v, x);
    OtherHeadForbidsNothing(b, v, x);
    assert Eval(Atom(name), v, x.source) <==> v(name, x.source);
    ReplacementMembers(s, number);
    assert Remaining(rights) == [] ==> !Eval(List(Remaining(rights)), Itself, x.right);
    hide Forbids, Eval, TargetMatches, Replacement, Neverallow, AttributeStatement, SetStatement, WithoutDaemon, NameOf;
    assert Forbids(kept, v, x) && Remaining(rights) != [] ==> kept in Replacement(s, number);
    assert Forbids(narrowed, v, x) ==> narrowed in Replacement(s, number);
  }

  /** The replacement forbids what the rule forbids, except the exempt accesses. */
  lemma ReplacementForbids(s: Node, number: nat, v: Valuation, x: Access)
    requires Restricts(s) && Enumerates(Rights(s)) && DaemonIsType(v)
    requires forall t :: v(NameOf(number), t) <==> Eval(WithoutDaemon(s.items[1]), v, t)
    ensures Forbidden(Replacement(s, number), v, x) <==> Forbids(s, v, x) && !Exempt(x)
  {
    ReplacementMeans(s, number, v, x);
    RuleMeans(s, v, x);
    assert EnumeratesAt(Rights(s), x.right);
    hide Forbids, Eval, TargetMatches, Replacement, Restricts, WithoutDaemon, NameOf, Forbidden;
  }

  lemma ReplacementMembers(s: Node, number: nat)
    requires Restricts(s)
    ensures var name := NameOf(number);
      forall n :: n in Replacement(s, number) <==>
        || (Remaining(Rights(s)) != [] && n == Neverallow(s.items[1], s.items[2], "capability", Remaining(Rights(s))))
        || n == AttributeStatement(name)
        || n == SetStatement(name, WithoutDaemon(s.items[1]))
        || n == Neverallow(Atom(name), s.items[2], "capability", Selected(Rights(s)))
  {
    hide Neverallow, AttributeStatement, SetStatement, WithoutDaemon, NameOf;
  }

  // ---------- all rules ----------

  /** Each generated attribute means its rule's source without the daemon. */
  ghost predicate NamesMean(roots: seq<Node>, number: nat, v: Valuation) {
    roots == []
    || (if Restricts(roots[0]) then
          (forall t :: v(NameOf(number), t) <==> Eval(WithoutDaemon(roots[0].items[1]), v, t))
          && NamesMean(roots[1..], number + 1, v)
        else NamesMean(roots[1..], number, v))
  }

  /** Some rule forbids `x` and is not one whose restriction on `x` was lifted. */
  ghost predicate StillForbidden(roots: seq<Node>, v: Valuation, x: Access) {
    exists s :: s in roots && Forbids(s, v, x) && !(Restricts(s) && Exempt(x))
  }

  lemma {:induction false} OutputForbids(roots: seq<Node>, number: nat, v: Valuation, x: Access)
    requires NamesMean(roots, number, v) && EnumeratedRules(roots) && DaemonIsType(v)
    ensures Forbidden(Exception(roots, number).0, v, x) <==> StillForbidden(roots, v, x)
  {
    if roots != [] {
      var first, more := roots[0], roots[1..];
      assert forall s :: s in more ==> s in roots;
      if Restricts(first) {
        ReplacementForbids(first, number, v, x);
        OutputForbids(more, number + 1, v, x);
      } else {
        OutputForbids(more, number, v, x);
      }
      hide Forbids, Restricts, Exempt, Forbidden, StillForbidden, Replacement;
    }
  }

  // ---------- generated names ----------

  lemma NamesDiffer(m: nat, n: nat)
    requires NameOf(m) == NameOf(n)
    ensures m == n
  {
    var prefix := "rodin_touch_capability_restriction_";
    assert NameOf(m)[|prefix|..] == Digits(m) && NameOf(n)[|prefix|..] == Digits(n);
    DigitsParse(m);
    DigitsParse(n);
  }

  predicate Generated(a: string, number: nat, top: nat) {
    exists k | number <= k < top :: a == NameOf(k)
  }

  ghost predicate UndeclaredName(policy: seq<Node>, a: string) {
    TypeStatement(a) !in policy && AttributeStatement(a) !in policy && forall e :: SetStatement(a, e) !in policy
  }

  /** No statement declares or extends a name the rewriting will generate. */
  ghost predicate Undeclared(policy: seq<Node>, number: nat, top: nat) {
    forall a :: Generated(a, number, top) ==> UndeclaredName(policy, a)
  }

  lemma DeclarationsAreNoRules(a: string, e: Node)
    ensures !Restricts(TypeStatement(a)) && !Restricts(AttributeStatement(a)) && !Restricts(SetStatement(a, e))
  {
  }

  lemma ReplacementDeclares(s: Node, number: nat, a: string, e: Node)
    requires Restricts(s)
    ensures SetStatement(a, e) in Replacement(s, number) <==> a == NameOf(number) && e == WithoutDaemon(s.items[1])
    ensures AttributeStatement(a) in Replacement(s, number) <==> a == NameOf(number)
    ensures TypeStatement(a) !in Replacement(s, number)
  {
    var name := NameOf(number);
    ReplacementMembers(s, number);
    hide Neverallow, SetStatement, AttributeStatement, TypeStatement, WithoutDaemon, NameOf, Replacement, Selected, Remaining;
  }

  /** The declarations of the output are those of the input and one pair for each generated name. */
  lemma {:induction false} OutputDeclares(roots: seq<Node>, number: nat, a: string, e: Node)
    ensures var out := Exception(roots, number).0; var top := Exception(roots, number).1;
      && number <= top
      && (TypeStatement(a) in out <==> TypeStatement(a) in roots)
      && (AttributeStatement(a) in out <==> AttributeStatement(a) in roots || Generated(a, number, top))
      && (SetStatement(a, e) in roots ==> SetStatement(a, e) in out)
      && (SetStatement(a, e) in out && SetStatement(a, e) !in roots ==> Generated(a, number, top))
  {
    hide TypeStatement, AttributeStatement, SetStatement, NameOf, WithoutDaemon, Restricts, Replacement;
    if roots != [] {
      var first, more := roots[0], roots[1..];
      assert roots == [first] + more;
      DeclarationsAreNoRules(a, e);
      if Restricts(first) {
        OutputDeclares(more, number + 1, a, e);
        ReplacementDeclares(first, number, a, e);
      } else {
        OutputDeclares(more, number, a, e);
      }
    }
  }

  lemma GeneratedLater(number: nat, top: nat)
    ensures !Generated(NameOf(number), number + 1, top)
  {
    if Generated(NameOf(number), number + 1, top) {
      var k :| number + 1 <= k < top && NameOf(number) == NameOf(k);
      NamesDiffer(number, k);
    }
  }

  /** The only set of a generated attribute is the one the rewriting wrote. */
  ghost predicate SetsAsWritten(roots: seq<Node>, number: nat, policy: seq<Node>) {
    roots == []
    || (if Restricts(roots[0]) then
          (forall e :: SetStatement(NameOf(number), e) in policy <==> e == WithoutDaemon(roots[0].items[1]))
          && AttributeStatement(NameOf(number)) in policy
          && SetsAsWritten(roots[1..], number + 1, policy)
        else SetsAsWritten(roots[1..], number, policy))
  }

  ghost predicate MirrorsName(out: seq<Node>, policy: seq<Node>, a: string) {
    AttributeStatement(a) in policy && forall e :: SetStatement(a, e) in policy <==> SetStatement(a, e) in out
  }

  /** `policy` declares a generated name only the way the rewriting of `roots` does. */
  ghost predicate Mirrors(roots: seq<Node>, number: nat, policy: seq<Node>) {
    forall a :: Generated(a, number, Exception(roots, number).1) ==> MirrorsName(Exception(roots, number).0, policy, a)
  }

  lemma MirrorsFirst(roots: seq<Node>, number: nat, policy: seq<Node>)
    requires roots != [] && Restricts(roots[0]) && Mirrors(roots, number, policy) && Undeclared(roots, number, Exception(roots, number).1)
    ensures forall e :: SetStatement(NameOf(number), e) in policy <==> e == WithoutDaemon(roots[0].items[1])
    ensures AttributeStatement(NameOf(number)) in policy
    ensures Mirrors(roots[1..], number + 1, policy)
  {
    var first, more := roots[0], roots[1..];
    var top := Exception(roots, number).1;
    OutputDeclares(more, number + 1, "", first);
    assert roots == [first] + more;
    hide TypeStatement, AttributeStatement, SetStatement, NameOf, WithoutDaemon, Restricts, Replacement;
    GeneratedLater(number, top);
    assert Generated(NameOf(number), number, top);
    assert MirrorsName(Exception(roots, number).0, policy, NameOf(number));
    assert UndeclaredName(roots, NameOf(number));
    forall e ensures SetStatement(NameOf(number), e) in policy <==> e == WithoutDaemon(first.items[1]) {
      ReplacementDeclares(first, number, NameOf(number), e);
      OutputDeclares(more, number + 1, NameOf(number), e);
    }
    var next, out := number + 1, Exception(more, number + 1).0;
    forall a | Generated(a, next, top) ensures MirrorsName(out, policy, a) {
      assert MirrorsName(Exception(roots, number).0, policy, a);
      forall e ensures SetStatement(a, e) in policy <==> SetStatement(a, e) in out {
        ReplacementDeclares(first, number, a, e);
      }
    }
  }

  lemma {:induction false} MirrorsWritten(roots: seq<Node>, number: nat, policy: seq<Node>)
    requires Mirrors(roots, number, policy) && Undeclared(roots, number, Exception(roots, number).1)
    ensures SetsAsWritten(roots, number, policy)
  {
    if roots != [] {
      assert roots == [roots[0]] + roots[1..];
      var top := Exception(roots, number).1;
      if Restricts(roots[0]) {
        MirrorsFirst(roots, number, policy);
        OutputDeclares(roots[1..], number + 1, "", roots[0]);
        UndeclaredRest(roots, number, number + 1, top);
        MirrorsWritten(roots[1..], number + 1, policy);
      } else {
        UndeclaredRest(roots, number, number, top);
        MirrorsWritten(roots[1..], number, policy);
      }
    }
  }

  lemma UndeclaredRest(roots: seq<Node>, number: nat, next: nat, top: nat)
    requires roots != [] && number <= next && Undeclared(roots, number, top)
    ensures Undeclared(roots[1..], next, top)
  {
    hide TypeStatement, AttributeStatement, SetStatement, NameOf;
    assert roots == [roots[0]] + roots[1..];
    forall a | Generated(a, next, top) ensures UndeclaredName(roots[1..], a) {
      assert Generated(a, number, top);
      assert UndeclaredName(roots, a);
    }
  }

  lemma {:induction false} WrittenMean(roots: seq<Node>, number: nat, policy: seq<Node>, v: Valuation)
    requires SetsAsWritten(roots, number, policy) && AttributesHold(policy, v)
    ensures NamesMean(roots, number, v)
  {
    if roots != [] {
      if Restricts(roots[0]) {
        forall t ensures v(NameOf(number), t) <==> Eval(WithoutDaemon(roots[0].items[1]), v, t) {
          hide Eval, SetStatement, AttributeStatement, WithoutDaemon, NameOf;
          assert AttributeStatement(NameOf(number)) in policy;
          assert v(NameOf(number), t) <==> Member(policy, v, NameOf(number), t);
        }
        WrittenMean(roots[1..], number + 1, policy, v);
      } else {
        WrittenMean(roots[1..], number, policy, v);
      }
    }
  }

  lemma OutputMirrors(roots: seq<Node>, number: nat, rest: seq<Node>)
    requires Undeclared(rest, number, Exception(roots, number).1)
    ensures Mirrors(roots, number, Exception(roots, number).0 + rest)
  {
    var out, top := Exception(roots, number).0, Exception(roots, number).1;
    hide TypeStatement, AttributeStatement, SetStatement, NameOf, Generated;
    forall a | Generated(a, number, top) ensures MirrorsName(out, out + rest, a) {
      assert UndeclaredName(rest, a);
      OutputDeclares(roots, number, a, Atom(""));
    }
  }

  /** The input's declarations still hold: nothing of them was rewritten, and nothing extends them. */
  lemma InputStillHolds(roots: seq<Node>, number: nat, rest: seq<Node>, v: Valuation)
    requires Undeclared(roots + rest, number, Exception(roots, number).1)
    requires Satisfies(Exception(roots, number).0 + rest, v)
    ensures Satisfies(roots + rest, v)
  {
    var out, top := Exception(roots, number).0, Exception(roots, number).1;
    hide Eval, SetStatement, AttributeStatement, TypeStatement, Generated;
    forall a, t | TypeStatement(a) in roots + rest ensures v(a, t) <==> t == a {
      OutputDeclares(roots, number, a, Atom(""));
      assert Generated(a, number, top) ==> UndeclaredName(roots + rest, a);
      assert TypeStatement(a) in out + rest;
    }
    forall a, t | AttributeStatement(a) in roots + rest ensures v(a, t) <==> Member(roots + rest, v, a, t) {
      OutputDeclares(roots, number, a, Atom(""));
      assert Generated(a, number, top) ==> UndeclaredName(roots + rest, a);
      assert AttributeStatement(a) in out + rest;
      SameMembers(roots, number, rest, v, a, t);
    }
  }

  lemma SameMembers(roots: seq<Node>, number: nat, rest: seq<Node>, v: Valuation, a: string, t: string)
    requires !Generated(a, number, Exception(roots, number).1)
    ensures Member(Exception(roots, number).0 + rest, v, a, t) <==> Member(roots + rest, v, a, t)
  {
    hide Eval, SetStatement, Generated;
    var out := Exception(roots, number).0;
    forall e ensures SetStatement(a, e) in out + rest <==> SetStatement(a, e) in roots + rest {
      OutputDeclares(roots, number, a, e);
    }
  }

  /**
   * The theorem. Take any policy, any other statements compiled with it, and any valuation that
   * satisfies the rewritten whole. The valuation satisfies the original whole too; and the
   * rewritten whole forbids exactly what the original does, except that the rewritten rules no
   * longer forbid the daemon the two rights.
   */
  lemma ExceptionPreservesMeaning(roots: seq<Node>, rest: seq<Node>, v: Valuation, x: Access)
    requires Undeclared(roots + rest, 0, Exception(roots, 0).1) && EnumeratedRules(roots) && DaemonIsType(v)
    requires Satisfies(Exception(roots, 0).0 + rest, v)
    ensures Satisfies(roots + rest, v)
    ensures Forbidden(Exception(roots, 0).0 + rest, v, x) <==> StillForbidden(roots, v, x) || Forbidden(rest, v, x)
  {
    InputStillHolds(roots, 0, rest, v);
    OutputMirrors(roots, 0, rest);
    MirrorsWritten(roots, 0, Exception(roots, 0).0 + rest);
    WrittenMean(roots, 0, Exception(roots, 0).0 + rest, v);
    OutputForbids(roots, 0, v, x);
  }

  // ---------- the exact difference ----------

  /** Every top-level capability rule treats the two rights as names. */
  ghost predicate EnumeratedCapabilities(roots: seq<Node>) {
    forall source, target, rights :: Neverallow(source, target, "capability", rights) in roots ==> Enumerates(rights)
  }

  lemma CapabilitiesCoverRules(roots: seq<Node>)
    requires EnumeratedCapabilities(roots)
    ensures EnumeratedRules(roots)
  {
    hide Enumerates, Neverallow;
    forall s | s in roots && Restricts(s) ensures Enumerates(Rights(s)) { RestrictsShape(s); }
  }

  /** An enumerating capability rule that forbids an exempt access names its right, so it is rewritten. */
  lemma ExemptIsRestricted(roots: seq<Node>, s: Node, v: Valuation, x: Access)
    requires EnumeratedCapabilities(roots) && s in roots && Exempt(x)
    ensures Forbids(s, v, x) ==> Restricts(s)
  {
    if !Forbids(s, v, x) {
      return;
    }
    var source, target, rights :| s == Neverallow(source, target, x.cls, rights) && Eval(List(rights), Itself, x.right);
    assert Neverallow(source, target, "capability", rights) in roots;
    assert EnumeratesAt(rights, x.right);
    assert Atom(x.right) in Selected(rights);
  }

  /**
   * With capability rules that treat the two rights as names, the rewritten policy forbids what
   * the original does minus exactly the exempt accesses, whatever is compiled with it.
   */
  lemma ExactDifference(roots: seq<Node>, rest: seq<Node>, v: Valuation, x: Access)
    requires Undeclared(roots + rest, 0, Exception(roots, 0).1) && EnumeratedCapabilities(roots) && DaemonIsType(v)
    requires Satisfies(Exception(roots, 0).0 + rest, v)
    ensures Forbidden(Exception(roots, 0).0 + rest, v, x) <==> (Forbidden(roots, v, x) && !Exempt(x)) || Forbidden(rest, v, x)
  {
    CapabilitiesCoverRules(roots);
    ExceptionPreservesMeaning(roots, rest, v, x);
    if Exempt(x) {
      forall s | s in roots && Forbids(s, v, x) ensures Restricts(s) { ExemptIsRestricted(roots, s, v, x); }
    }
    hide Forbids, Restricts, Exempt, Exception;
  }

  // ---------- the lists it is right about ----------

  /** One rule, rewritten alone, loses exactly the exempt accesses under `v`. */
  ghost predicate LosesExempt(rule: Node, v: Valuation) {
    forall x :: Forbidden(Exception([rule], 0).0, v, x) <==> Forbids(rule, v, x) && !Exempt(x)
  }

  /** Every capability rule with this permission list loses exactly the exempt accesses. */
  ghost predicate AlwaysExact(rights: seq<Node>) {
    forall source, target, v :: DaemonIsType(v) && NamesMean([Neverallow(source, target, "capability", rights)], 0, v)
      ==> LosesExempt(Neverallow(source, target, "capability", rights), v)
  }

  lemma OneRule(rule: Node)
    ensures Exception([rule], 0).0 == if Restricts(rule) then Replacement(rule, 0) else [rule]
  {
    assert Exception([], 1) == ([], 1) && Exception([], 0) == ([], 0) && [rule][1..] == [];
    if Restricts(rule) { assert Replacement(rule, 0) + [] == Replacement(rule, 0); }
  }

  lemma EnumeratedIsExact(rights: seq<Node>, source: Node, target: Node, v: Valuation)
    requires Enumerates(rights) && DaemonIsType(v) && NamesMean([Neverallow(source, target, "capability", rights)], 0, v)
    ensures LosesExempt(Neverallow(source, target, "capability", rights), v)
  {
    var rule := Neverallow(source, target, "capability", rights);
    OneRule(rule);
    forall x ensures Forbidden(Exception([rule], 0).0, v, x) <==> Forbids(rule, v, x) && !Exempt(x) {
      if Restricts(rule) {
        assert [rule][0] == rule;
        ReplacementForbids(rule, 0, v, x);
      } else {
        ForbidsRule(source, target, "capability", rights, v, x);
        assert Atom(x.right) in rights && IsLifted(Atom(x.right)) ==> Atom(x.right) in Selected(rights);
        assert EnumeratesAt(rights, x.right);
        hide Forbids, Eval, TargetMatches, Enumerates;
        assert rule in [rule];
      }
    }
  }

  /** Everything is its own type, and the first generated name is everything but the daemon. */
  ghost function Probe(): Valuation {
    (a, t) => if a == NameOf(0) then t != "rodin_daemon" else a == t
  }

  lemma ProbeFits(rights: seq<Node>)
    ensures DaemonIsType(Probe())
    ensures NamesMean([Neverallow(Atom("all"), Atom("all"), "capability", rights)], 0, Probe())
  {
    var v := Probe();
    var rule := Neverallow(Atom("all"), Atom("all"), "capability", rights);
    assert NameOf(0)[6] == 't' && "rodin_daemon"[6] == 'd';
    assert DaemonIsType(v);
    assert [rule][0] == rule && [rule][1..] == [] && rule.items[1] == Atom("all");
    forall t ensures v(NameOf(0), t) <==> Eval(WithoutDaemon(Atom("all")), v, t) {
      EvalWithoutDaemon(Atom("all"), v, t);
    }
    hide NameOf, WithoutDaemon, Eval, Neverallow;
    assert NamesMean([], 1, v) && NamesMean([], 0, v);
  }

  lemma ProbeRule(rights: seq<Node>, x: Access)
    requires x.cls == "capability"
    ensures var rule := Neverallow(Atom("all"), Atom("all"), "capability", rights);
      && (Forbids(rule, Probe(), x) <==> Eval(List(rights), Itself, x.right))
      && (Restricts(rule) ==> Rights(rule) == rights && Between(rule, Probe(), x))
  {
    ForbidsRule(Atom("all"), Atom("all"), "capability", rights, Probe(), x);
  }

  /** What the rewritten rule between everything and everything forbids under the probe. */
  lemma ProbeRewritten(rights: seq<Node>, x: Access)
    requires x.cls == "capability"
    ensures Forbidden(Exception([Neverallow(Atom("all"), Atom("all"), "capability", rights)], 0).0, Probe(), x) <==>
      || Eval(List(Remaining(rights)), Itself, x.right)
      || (IsLifted(Atom(x.right)) && Atom(x.right) in rights && x.source != "rodin_daemon")
  {
    var rule := Neverallow(Atom("all"), Atom("all"), "capability", rights);
    ProbeFits(rights);
    ProbeRule(rights, x);
    OneRule(rule);
    assert [rule][0] == rule;
    if Restricts(rule) {
      ReplacementMeans(rule, 0, Probe(), x);
    } else {
      RemainingAll(rights);
      hide Forbids, Eval, TargetMatches, Probe, Neverallow;
      assert rule in [rule];
    }
  }

  lemma ExactIsEnumerated(rights: seq<Node>, right: string)
    requires AlwaysExact(rights)
    ensures EnumeratesAt(rights, right)
  {
    hide Eval, Forbids, Forbidden, Neverallow, Exception, NamesMean, Probe, NameOf, DaemonIsType;
    var x, y := Access("rodin_daemon", "", "capability", right), Access("other", "", "capability", right);
    ProbeFits(rights);
    assert LosesExempt(Neverallow(Atom("all"), Atom("all"), "capability", rights), Probe());
    ProbeRule(rights, x);
    ProbeRule(rights, y);
    ProbeRewritten(rights, x);
    ProbeRewritten(rights, y);
  }

  lemma RemainingAll(rights: seq<Node>)
    requires Selected(rights) == []
    ensures Remaining(rights) == rights
  {
    if rights != [] { RemainingAll(rights[1..]); }
  }

  /** The rewriting is right about a permission list if and only if the list treats the two rights as names. */
  lemma ExactWhenEnumerated(rights: seq<Node>)
    ensures AlwaysExact(rights) <==> Enumerates(rights)
  {
    if AlwaysExact(rights) {
      forall right ensures EnumeratesAt(rights, right) { ExactIsEnumerated(rights, right); }
    }
    if Enumerates(rights) {
      forall source, target, v | DaemonIsType(v) && NamesMean([Neverallow(source, target, "capability", rights)], 0, v)
        ensures LosesExempt(Neverallow(source, target, "capability", rights), v)
      {
        EnumeratedIsExact(rights, source, target, v);
      }
    }
  }

  // ---------- every model extends ----------

  /** The name occurs nowhere in the expression. */
  ghost predicate Silent(e: Node, a: string) {
    match e
    case Atom(text) => text != a
    case List(items) => forall i | 0 <= i < |items| :: Silent(items[i], a)
  }

  ghost predicate SilentAll(policy: seq<Node>, number: nat, top: nat) {
    forall a, s :: Generated(a, number, top) && s in policy ==> Silent(s, a)
  }

  /** The original valuation, with each generated attribute meaning what the rewriting says. */
  ghost function Extended(roots: seq<Node>, number: nat, v: Valuation): Valuation {
    if roots == [] then v
    else if Restricts(roots[0]) then
      var w := Extended(roots[1..], number + 1, v);
      (a, t) => if a == NameOf(number) then Eval(WithoutDaemon(roots[0].items[1]), v, t) else w(a, t)
    else Extended(roots[1..], number, v)
  }

  ghost predicate AgreeOff(v: Valuation, w: Valuation, number: nat, top: nat) {
    forall a, t :: !Generated(a, number, top) ==> v(a, t) == w(a, t)
  }

  lemma {:induction false} ExtendedAgrees(roots: seq<Node>, number: nat, v: Valuation)
    ensures AgreeOff(v, Extended(roots, number, v), number, Exception(roots, number).1)
    ensures number <= Exception(roots, number).1
  {
    if roots != [] {
      if Restricts(roots[0]) {
        ExtendedAgrees(roots[1..], number + 1, v);
        hide NameOf, Eval;
        var top := Exception(roots, number).1;
        forall a, t | !Generated(a, number, top) ensures v(a, t) == Extended(roots, number, v)(a, t) {
        }
      } else {
        ExtendedAgrees(roots[1..], number, v);
      }
    }
  }

  lemma {:induction false} SilentEval(e: Node, v: Valuation, w: Valuation, number: nat, top: nat, t: string)
    requires AgreeOff(v, w, number, top)
    requires forall a :: Generated(a, number, top) ==> Silent(e, a)
    ensures Eval(e, v, t) == Eval(e, w, t)
  {
    match e
    case Atom(text) =>
      assert !Generated(text, number, top);
    case List(items) =>
      forall i | 0 <= i < |items| ensures Eval(items[i], v, t) == Eval(items[i], w, t) {
        SilentEval(items[i], v, w, number, top, t);
      }
  }

  lemma SilentWithoutDaemon(source: Node, a: string, number: nat)
    requires Silent(source, a) && a == NameOf(number)
    ensures Silent(WithoutDaemon(source), a)
  {
    assert a[6] == 't' && "rodin_daemon"[6] == 'd';
    assert |a| > 30 && |"and"| == 3 && |"not"| == 3;
    var daemon := List([Atom("rodin_daemon")]);
    assert Silent(daemon, a);
    assert Silent(List([Atom("not"), daemon]), a);
    assert Silent(Original(source), a);
  }

  lemma SilentSource(roots: seq<Node>, number: nat, top: nat)
    requires roots != [] && Restricts(roots[0]) && SilentAll(roots, number, top)
    ensures forall a :: Generated(a, number, top) ==> Silent(WithoutDaemon(roots[0].items[1]), a)
  {
    var source := roots[0].items[1];
    forall a | Generated(a, number, top) ensures Silent(WithoutDaemon(source), a) {
      var k :| number <= k < top && a == NameOf(k);
      assert Silent(roots[0], a);
      SilentWithoutDaemon(source, a, k);
    }
  }

  ghost predicate Matches(v: Valuation, w: Valuation, number: nat, top: nat) {
    forall a, t :: Generated(a, number, top) ==> w(a, t) == v(a, t)
  }

  lemma {:induction false} ExtendedMeans(roots: seq<Node>, number: nat, v: Valuation, w: Valuation, low: nat, high: nat)
    requires AgreeOff(v, w, low, high) && SilentAll(roots, low, high)
    requires low <= number && Exception(roots, number).1 <= high
    requires Matches(Extended(roots, number, v), w, number, Exception(roots, number).1)
    ensures NamesMean(roots, number, w)
  {
    if roots != [] {
      var top := Exception(roots, number).1;
      assert roots == [roots[0]] + roots[1..];
      ExtendedAgrees(roots, number, v);
      if Restricts(roots[0]) {
        var e := WithoutDaemon(roots[0].items[1]);
        var inner := Extended(roots[1..], number + 1, v);
        SilentSource(roots, low, high);
        ExtendedAgrees(roots[1..], number + 1, v);
        hide NameOf, Eval, WithoutDaemon;
        assert Generated(NameOf(number), number, top);
        forall t ensures w(NameOf(number), t) <==> Eval(e, w, t) {
          assert Extended(roots, number, v)(NameOf(number), t) == Eval(e, v, t);
          SilentEval(e, v, w, low, high, t);
        }
        GeneratedLater(number, top);
        forall a, t | Generated(a, number + 1, top) ensures w(a, t) == inner(a, t) {
          assert w(a, t) == Extended(roots, number, v)(a, t);
        }
        ExtendedMeans(roots[1..], number + 1, v, w, low, high);
      } else {
        ExtendedMeans(roots[1..], number, v, w, low, high);
      }
    }
  }

  lemma SilentUndeclared(policy: seq<Node>, number: nat, top: nat)
    requires SilentAll(policy, number, top)
    ensures Undeclared(policy, number, top)
  {
    forall a | Generated(a, number, top) ensures UndeclaredName(policy, a) {
      forall s | s in policy && s.List? && |s.items| >= 2 ensures s.items[1] != Atom(a) {
        assert Silent(s, a);
        assert Silent(s.items[1], a);
      }
      assert TypeStatement(a).items[1] == Atom(a) && AttributeStatement(a).items[1] == Atom(a);
      forall e ensures SetStatement(a, e) !in policy { assert SetStatement(a, e).items[1] == Atom(a); }
    }
  }

  lemma {:induction false} WrittenMembers(roots: seq<Node>, number: nat, policy: seq<Node>, w: Valuation, a: string, t: string)
    requires SetsAsWritten(roots, number, policy) && NamesMean(roots, number, w)
    requires Generated(a, number, Exception(roots, number).1)
    ensures w(a, t) <==> Member(policy, w, a, t)
  {
    if roots != [] {
      hide Eval, SetStatement, AttributeStatement, WithoutDaemon, NameOf, Replacement;
      if Restricts(roots[0]) {
        ExtendedAgrees(roots[1..], number + 1, w);
        if a == NameOf(number) {
          var e := WithoutDaemon(roots[0].items[1]);
          assert SetStatement(a, e) in policy;
        } else {
          WrittenMembers(roots[1..], number + 1, policy, w, a, t);
        }
      } else {
        WrittenMembers(roots[1..], number, policy, w, a, t);
      }
    }
  }

  lemma SilentMembers(policy: seq<Node>, v: Valuation, w: Valuation, number: nat, top: nat, a: string, t: string)
    requires SilentAll(policy, number, top) && AgreeOff(v, w, number, top)
    ensures Member(policy, v, a, t) <==> Member(policy, w, a, t)
  {
    forall e | SetStatement(a, e) in policy ensures Eval(e, v, t) <==> Eval(e, w, t) {
      var s := SetStatement(a, e);
      assert s.items[2] == e;
      forall n | Generated(n, number, top) ensures Silent(e, n) { assert Silent(s, n); assert Silent(s.items[2], n); }
      SilentEval(e, v, w, number, top, t);
    }
    hide Eval, SetStatement;
  }

  /**
   * The rewriting is conservative: when the generated names occur nowhere, every valuation of the
   * original whole extends to one of the rewritten whole without changing any other name. So no
   * meaning of the original policy is lost, and none of the others is touched.
   */
  lemma EveryModelExtends(roots: seq<Node>, rest: seq<Node>, v: Valuation)
    requires SilentAll(roots + rest, 0, Exception(roots, 0).1) && Satisfies(roots + rest, v)
    ensures Satisfies(Exception(roots, 0).0 + rest, Extended(roots, 0, v))
    ensures AgreeOff(v, Extended(roots, 0, v), 0, Exception(roots, 0).1)
  {
    var out, top, w := Exception(roots, 0).0, Exception(roots, 0).1, Extended(roots, 0, v);
    ExtendedAgrees(roots, 0, v);
    SilentUndeclared(roots + rest, 0, top);
    assert SilentAll(roots, 0, top);
    ExtendedMeans(roots, 0, v, w, 0, top);
    OutputMirrors(roots, 0, rest);
    MirrorsWritten(roots, 0, out + rest);
    hide Eval, SetStatement, AttributeStatement, TypeStatement, Generated, Extended, SilentAll;
    forall a, t | TypeStatement(a) in out + rest ensures w(a, t) <==> t == a {
      OutputDeclares(roots, 0, a, Atom(""));
      assert TypeStatement(a) in roots + rest;
      assert Generated(a, 0, top) ==> UndeclaredName(roots + rest, a);
    }
    forall a, t | AttributeStatement(a) in out + rest ensures w(a, t) <==> Member(out + rest, w, a, t) {
      if Generated(a, 0, top) {
        WrittenMembers(roots, 0, out + rest, w, a, t);
      } else {
        OutputDeclares(roots, 0, a, Atom(""));
        assert AttributeStatement(a) in roots + rest;
        SilentMembers(roots + rest, v, w, 0, top, a, t);
        SameMembers(roots, 0, rest, w, a, t);
      }
    }
  }

  // ---------- as text ----------

  lemma {:induction false} ProperEach(nodes: seq<Node>)
    ensures Proper(nodes) <==> forall n :: n in nodes ==> ProperOne(n)
  {
    if nodes != [] {
      ProperEach(nodes[1..]);
      if Proper(nodes) {
        forall n | n in nodes ensures ProperOne(n) { assert n == nodes[0] || n in nodes[1..]; }
      } else if ProperOne(nodes[0]) {
        var n :| n in nodes[1..] && !ProperOne(n);
        assert n in nodes;
      } else {
        assert nodes[0] in nodes;
      }
    }
  }

  lemma IdentifiersJoin(a: string, b: string)
    requires IsIdentifier(a) && IsIdentifier(b)
    ensures IsIdentifier(a + b)
  {
  }

  lemma DigitsAreIdentifier(n: nat)
    ensures IsIdentifier(Digits(n))
  {
    DigitsParse(n);
    var d := Digits(n);
    hide Digits;
    forall i | 0 <= i < |d| ensures '0' <= d[i] <= '9' { assert d[i] in d; }
  }

  lemma NameIsIdentifier(number: nat)
    ensures IsIdentifier(NameOf(number))
  {
    DigitsAreIdentifier(number);
    var a, b, d := "rodin_touch_capability", "_restriction_", Digits(number);
    assert IsIdentifier(a) && IsIdentifier(b);
    hide IsIdentifier, Digits;
    IdentifiersJoin(a, b);
    IdentifiersJoin(a + b, d);
    assert a + b == "rodin_touch_capability_restriction_";
  }

  lemma ReplacementProper(s: Node, number: nat)
    requires ProperOne(s) && Restricts(s)
    ensures forall n :: n in Replacement(s, number) ==> n.List? && ProperOne(n)
  {
    var source, rights, name := s.items[1], Rights(s), NameOf(number);
    RightsProper(s);
    NameIsIdentifier(number);
    WordIsProper(name);
    WithoutDaemonProper(source);
    hide NameOf, Restricts, WithoutDaemon, IsWord;
    RuleProper(source, s.items[2], Remaining(rights));
    RuleProper(Atom(name), s.items[2], Selected(rights));
    DeclarationsProper(name, WithoutDaemon(source));
    ReplacementMembers(s, number);
    hide ProperOne, Neverallow;
  }

  lemma RightsProper(s: Node)
    requires ProperOne(s) && Restricts(s)
    ensures ProperOne(s.items[1]) && ProperOne(s.items[2]) && Proper(Selected(Rights(s))) && Proper(Remaining(Rights(s)))
  {
    hide IsWord, IsQuoted;
    ProperEach(s.items);
    assert s.items[1] in s.items && s.items[2] in s.items && s.items[3] in s.items;
    ProperEach(s.items[3].items);
    assert s.items[3].items[1] in s.items[3].items;
    ProperEach(Rights(s));
    ProperEach(Selected(Rights(s)));
    ProperEach(Remaining(Rights(s)));
  }

  lemma WordIsProper(a: string)
    requires IsIdentifier(a)
    ensures ProperOne(Atom(a))
  {
    IdentifierIsWord(a);
  }

  lemma ProperList(items: seq<Node>)
    requires forall n :: n in items ==> ProperOne(n)
    ensures ProperOne(List(items))
  {
    ProperEach(items);
  }

  lemma WithoutDaemonProper(source: Node)
    requires ProperOne(source)
    ensures ProperOne(WithoutDaemon(source))
  {
    hide ProperOne;
    WordIsProper("and");
    WordIsProper("not");
    WordIsProper("rodin_daemon");
    ProperList([source]);
    var daemon := List([Atom("rodin_daemon")]);
    ProperList(daemon.items);
    ProperList([Atom("not"), daemon]);
    ProperList([Atom("and"), Original(source), List([Atom("not"), daemon])]);
  }

  lemma DeclarationsProper(name: string, e: Node)
    requires ProperOne(Atom(name)) && ProperOne(e)
    ensures ProperOne(AttributeStatement(name)) && ProperOne(SetStatement(name, e))
  {
    hide ProperOne;
    WordIsProper("typeattribute");
    WordIsProper("typeattributeset");
    ProperList([Atom("typeattribute"), Atom(name)]);
    ProperList([Atom("typeattributeset"), Atom(name), e]);
  }

  lemma RuleProper(source: Node, target: Node, rights: seq<Node>)
    requires ProperOne(source) && ProperOne(target) && Proper(rights)
    ensures ProperOne(Neverallow(source, target, "capability", rights))
  {
    ProperEach(rights);
    hide ProperOne, Proper;
    WordIsProper("capability");
    WordIsProper("neverallow");
    ProperList(rights);
    var inner := List([Atom("capability"), List(rights)]);
    ProperList(inner.items);
    ProperList([Atom("neverallow"), source, target, inner]);
  }

  lemma {:induction false} ExceptionProper(roots: seq<Node>, number: nat)
    requires forall n :: n in roots ==> n.List? && ProperOne(n)
    ensures forall n :: n in Exception(roots, number).0 ==> n.List? && ProperOne(n)
  {
    hide ProperOne, Restricts, Replacement;
    if roots != [] {
      assert roots == [roots[0]] + roots[1..];
      if Restricts(roots[0]) {
        ReplacementProper(roots[0], number);
        ExceptionProper(roots[1..], number + 1);
      } else {
        ExceptionProper(roots[1..], number);
      }
    }
  }

  /** The rewritten policy, written out, reads back as the rewritten policy. */
  lemma ExceptionRoundTrip(forest: seq<Node>)
    requires IsForest(forest) && Proper(forest)
    ensures Parse(RenderAll(Exception(forest, 0).0)) == Ok(Exception(forest, 0).0)
  {
    ProperEach(forest);
    ExceptionProper(forest, 0);
    ProperEach(Exception(forest, 0).0);
    RoundTrip(Exception(forest, 0).0);
  }
}
