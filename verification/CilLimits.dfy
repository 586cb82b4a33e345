// Inputs on which the rewriting does not do what it says, and why its conditions are needed.
module CilLimits {
  import opened CilException
  import opened CilPolicy
  import opened CilSyntax

  // ---------- permission lists with operators ----------

  lemma AtomMeans(a: string, v: Valuation, t: string)
    requires v(a, t)
    ensures Eval(Atom(a), v, t)
  {
  }

  lemma OtherRight(a: string, right: string)
    requires a != right && a != "all"
    ensures !Eval(List([Atom(a)]), Itself, right)
  {
  }

  lemma Complement(rights: seq<Node>, right: string)
    requires |rights| == 2 && rights[0] == Atom("not") && rights[1].Atom? && rights[1].text != right && rights[1].text != "all"
    ensures Eval(List(rights), Itself, right)
  {
    assert !Eval(rights[1], Itself, right);
  }

  /**
   * A capability list built with an operator is taken apart as if it enumerated rights: a rule
   * against everything but ptrace becomes rules that no longer forbid, say, chown.
   */
  lemma OperatorListLosesMeaning(v: Valuation, t: string)
    requires v("domain", "untrusted_app") && v("domain", t) && DaemonIsType(v)
    ensures var rule := Neverallow(Atom("domain"), Atom("domain"), "capability", [Atom("not"), Atom("sys_ptrace")]);
      var x := Access("untrusted_app", t, "capability", "chown");
      Forbids(rule, v, x) && !Forbidden(Exception([rule], 0).0, v, x)
  {
    hide Forbids, Eval, Replacement, Exception;
    var rights := [Atom("not"), Atom("sys_ptrace")];
    var domain := Atom("domain");
    var rule := Neverallow(domain, domain, "capability", rights);
    var x := Access("untrusted_app", t, "capability", "chown");
    ForbidsRule(domain, domain, "capability", rights, v, x);
    AtomMeans("domain", v, "untrusted_app");
    AtomMeans("domain", v, t);
    OtherRight("sys_ptrace", "chown");
    OtherRight("not", "chown");
    Complement(rights, "chown");
    assert Selected(rights) == [Atom("sys_ptrace")] && Remaining(rights) == [Atom("not")] by {
      assert rights[1..] == [Atom("sys_ptrace")] && rights[1..][1..] == [];
    }
    OneRule(rule);
    ReplacementMembers(rule, 0);
    ForbidsRule(domain, domain, "capability", [Atom("not")], v, x);
    ForbidsRule(Atom(NameOf(0)), domain, "capability", [Atom("sys_ptrace")], v, x);
    OtherHeadForbidsNothing(AttributeStatement(NameOf(0)), v, x);
    OtherHeadForbidsNothing(SetStatement(NameOf(0), WithoutDaemon(domain)), v, x);
    forall s | s in Replacement(rule, 0) ensures !Forbids(s, v, x) {}
  }

  /** Operators in permission lists: where they defeat the rewriting, and where they do not. */
  lemma OperatorsInLists()
    ensures !Enumerates([Atom("not"), Atom("sys_ptrace")])
    ensures !Enumerates([Atom("all")]) && !Enumerates([Atom("all"), Atom("sys_ptrace")])
    ensures Enumerates([Atom("chown"), Atom("not"), Atom("sys_ptrace")]) && !Plain([Atom("chown"), Atom("not"), Atom("sys_ptrace")])
  {
    hide Enumerates;
    ComplementIsNoList();
    AllIsNoList();
    LaterOperatorIsName();
    assert Atom("not") == [Atom("chown"), Atom("not"), Atom("sys_ptrace")][1];
  }

  lemma ComplementIsNoList()
    ensures !Enumerates([Atom("not"), Atom("sys_ptrace")])
  {
    var rights := [Atom("not"), Atom("sys_ptrace")];
    assert rights[1..] == [Atom("sys_ptrace")] && rights[1..][1..] == [];
    assert Remaining(rights) == [Atom("not")];
    Complement(rights, "chown");
    OtherRight("not", "chown");
    assert !EnumeratesAt(rights, "chown");
  }

  lemma AllIsNoList()
    ensures !Enumerates([Atom("all")]) && !Enumerates([Atom("all"), Atom("sys_ptrace")])
  {
    var a, b := [Atom("all")], [Atom("all"), Atom("sys_ptrace")];
    assert b[1..] == [Atom("sys_ptrace")] && b[1..][1..] == [] && a[1..] == [];
    assert Remaining(a) == a && Remaining(b) == a;
    assert Eval(a[0], Itself, "sys_ptrace");
    hide Remaining;
    assert !EnumeratesAt(a, "sys_ptrace") && !EnumeratesAt(b, "sys_ptrace");
  }

  lemma LaterOperatorIsName()
    ensures Enumerates([Atom("chown"), Atom("not"), Atom("sys_ptrace")])
  {
    var d, e := [Atom("chown"), Atom("not"), Atom("sys_ptrace")], [Atom("chown"), Atom("not")];
    assert d[1..] == [Atom("not"), Atom("sys_ptrace")] && d[1..][1..] == [Atom("sys_ptrace")] && d[1..][1..][1..] == [];
    assert Remaining(d) == e;
    hide Remaining, Eval;
    forall right ensures EnumeratesAt(d, right) {
      UnionOfNames(d, right);
      UnionOfNames(e, right);
    }
  }

  lemma UnionOfNames(rights: seq<Node>, right: string)
    requires rights != [] && rights[0] == Atom("chown") && forall n :: n in rights ==> n.Atom? && n.text != "all"
    ensures Eval(List(rights), Itself, right) <==> Atom(right) in rights
  {
    forall i | 0 <= i < |rights| ensures Eval(rights[i], Itself, right) <==> rights[i] == Atom(right) {
      assert rights[i] in rights;
    }
  }

  // ---------- why the generated names must be new ----------

  const GUARD: Node := Neverallow(Atom("all"), Atom("self"), "capability", [Atom("sys_ptrace")])

  /** A statement compiled with the policy that puts the daemon into the first generated attribute. */
  function Intruder(): Node {
    SetStatement(NameOf(0), Atom("rodin_daemon"))
  }

  /** Everything is its own type, and everything is in the first generated attribute. */
  ghost function Crowded(): Valuation {
    (a, t) => a == NameOf(0) || a == t
  }

  lemma GuardRewritten()
    ensures Restricts(GUARD) && Rights(GUARD) == [Atom("sys_ptrace")] && [GUARD][0] == GUARD
    ensures Exception([GUARD], 0).1 == 1
    ensures Exception([GUARD], 0).0 == [AttributeStatement(NameOf(0)), SetStatement(NameOf(0), WithoutDaemon(Atom("all"))),
                                        Neverallow(Atom(NameOf(0)), Atom("self"), "capability", [Atom("sys_ptrace")])]
  {
    var rights := [Atom("sys_ptrace")];
    assert rights[1..] == [] && Selected(rights) == rights && Remaining(rights) == [];
    assert Exception([], 1) == ([], 1) && [GUARD][1..] == [];
    OneRule(GUARD);
  }

  lemma GuardEnumerates()
    ensures EnumeratedCapabilities([GUARD])
  {
    PlainEnumerates([Atom("sys_ptrace")]);
    forall source, target, rights | Neverallow(source, target, "capability", rights) in [GUARD] ensures Enumerates(rights) {
      assert Neverallow(source, target, "capability", rights).items[3].items[1] == List(rights);
      assert GUARD.items[3].items[1] == List([Atom("sys_ptrace")]);
    }
  }

  lemma CrowdedMembers(t: string)
    ensures Member(Exception([GUARD], 0).0 + [Intruder()], Crowded(), NameOf(0), t)
  {
    var out, name := Exception([GUARD], 0).0 + [Intruder()], NameOf(0);
    var e, daemon := WithoutDaemon(Atom("all")), Atom("rodin_daemon");
    GuardRewritten();
    CrowdedDaemon();
    assert out[1] == SetStatement(name, e) && out[3] == SetStatement(name, daemon);
    EvalWithoutDaemon(Atom("all"), Crowded(), t);
    assert Eval(if t == "rodin_daemon" then daemon else e, Crowded(), t);
  }

  lemma CrowdedDaemon()
    ensures DaemonIsType(Crowded())
  {
    assert NameOf(0)[6] == 't' && "rodin_daemon"[6] == 'd';
  }

  lemma CrowdedFits()
    ensures Satisfies(Exception([GUARD], 0).0 + [Intruder()], Crowded())
  {
    var out, v, name := Exception([GUARD], 0).0 + [Intruder()], Crowded(), NameOf(0);
    GuardRewritten();
    hide Eval, Crowded, NameOf, WithoutDaemon, Exception, Member, Restricts;
    forall s | s in out ensures s.items[0] != Atom("type") && (s.items[0] == Atom("typeattribute") ==> s.items[1] == Atom(name)) {}
    forall a, t | AttributeStatement(a) in out ensures v(a, t) <==> Member(out, v, a, t) {
      assert AttributeStatement(a).items[0] == Atom("typeattribute") && AttributeStatement(a).items[1] == Atom(a);
      CrowdedName(t);
      CrowdedMembers(t);
    }
    forall a ensures TypeStatement(a) !in out { assert TypeStatement(a).items[0] == Atom("type"); }
  }

  lemma CrowdedName(t: string)
    ensures Crowded()(NameOf(0), t)
  {
  }

  lemma CrowdedForbids(x: Access)
    requires x == Access("rodin_daemon", "rodin_daemon", "capability", "sys_ptrace")
    ensures Forbidden(Exception([GUARD], 0).0 + [Intruder()], Crowded(), x) && !Forbidden([Intruder()], Crowded(), x)
  {
    var out, name := Exception([GUARD], 0).0 + [Intruder()], NameOf(0);
    var rights := [Atom("sys_ptrace")];
    var rule := Neverallow(Atom(name), Atom("self"), "capability", rights);
    GuardRewritten();
    ForbidsRule(Atom(name), Atom("self"), "capability", rights, Crowded(), x);
    OtherHeadForbidsNothing(Intruder(), Crowded(), x);
    CrowdedName("rodin_daemon");
    AtomMeans(name, Crowded(), "rodin_daemon");
    EvalPlain(rights, "sys_ptrace");
    hide Eval, Forbids, Crowded, NameOf, WithoutDaemon, Exception, Neverallow;
    assert rights[0] == Atom("sys_ptrace");
    assert out[2] == rule && rule in out;
  }

  /**
   * The generated names must be new: where a statement compiled with the policy puts the daemon
   * into the first of them, the daemon stays forbidden what the rewriting was to free.
   */
  lemma TakenNameLosesException()
    ensures var out := Exception([GUARD], 0).0 + [Intruder()];
      var x := Access("rodin_daemon", "rodin_daemon", "capability", "sys_ptrace");
      && EnumeratedCapabilities([GUARD]) && !Undeclared([GUARD] + [Intruder()], 0, Exception([GUARD], 0).1)
      && DaemonIsType(Crowded()) && Satisfies(out, Crowded())
      && Exempt(x) && !Forbidden([Intruder()], Crowded(), x) && Forbidden(out, Crowded(), x)
  {
    hide Satisfies, Forbidden, Crowded, NameOf, EnumeratedCapabilities, DaemonIsType, Exception;
    GuardEnumerates();
    CrowdedDaemon();
    CrowdedFits();
    CrowdedForbids(Access("rodin_daemon", "rodin_daemon", "capability", "sys_ptrace"));
    GuardRewritten();
    assert Generated(NameOf(0), 0, 1);
    assert Intruder() == ([GUARD] + [Intruder()])[1];
    assert !UndeclaredName([GUARD] + [Intruder()], NameOf(0));
  }
}
