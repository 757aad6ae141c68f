/** Enrolling and removing a factor, left alone, from any state in which it is in order:
    internal/auth/service.go, internal/auth/webauthn.go and internal/store/factors.go. */
module FactorFlows {
  import opened FactorHistory

  predicate IsProtected(s: State, u: int) {
    exists f :: f in s.factors && s.factors[f].owner == u
  }

  /** The account has no factor, or the password was proved. */
  predicate MayOpen(s: State, u: int, passwordOk: bool) {
    passwordOk || !IsProtected(s, u)
  }

  lemma ProtectedIs(s: State, u: int)
    ensures Protected(s.factors, u) <==> IsProtected(s, u)
  {
    if f :| f in s.factors && s.factors[f].owner == u { assert f in Owned(s.factors, u); }
    if !IsProtected(s, u) {
      assert forall f :: f !in Owned(s.factors, u);
      assert Owned(s.factors, u) == {};
    }
  }

  /** A removal takes the factor named exactly when it is the account's and not its last, and
      no other factor in any case. */
  lemma RemovalTakesIff(s: State, u: int, f: int, g: int)
    ensures var s' := Step(s, Remove(u, f));
            && (f in s.factors ==>
                  (f !in s'.factors <==>
                     s.factors[f].owner == u && exists h :: h in s.factors && h != f && s.factors[h].owner == u))
            && (g != f || f !in s.factors ==>
                  (g in s'.factors <==> g in s.factors) && (g in s.factors ==> s'.factors[g] == s.factors[g]))
  {
    if f in s.factors && s.factors[f].owner == u {
      var owned := Owned(s.factors, u);
      assert f in owned && |owned| == |owned - {f}| + 1 by { assert owned == (owned - {f}) + {f}; }
      if h :| h in s.factors && h != f && s.factors[h].owner == u { assert h in owned - {f}; }
      if owned - {f} != {} {
        var h :| h in owned - {f};
        assert h in s.factors && h != f && s.factors[h].owner == u;
      }
    }
  }

  // ----- an authenticator app -----

  lemma AppOpens(s: State, a: int, u: int, passwordOk: bool)
    requires a !in s.used && a !in s.reqs && MayOpen(s, u, passwordOk)
    ensures var s' := Step(Step(s, Open(a, u, false, passwordOk)), StorePending(a));
            var e := Enrol(u, false, s.nextSecret, IsProtected(s, u), a);
            s' == s.(used := s.used + {a}, pending := s.pending[u := e], nextSecret := s.nextSecret + 1, log := s'.log)
  {
    ProtectedIs(s, u);
    hide Owned, Protected, IsProtected;
    var s1 := Step(s, Open(a, u, false, passwordOk));
    OpensIff(s, a, u, false, passwordOk);
    assert s1.reqs - {a} == s.reqs;
  }

  lemma OpensIff(s: State, a: int, u: int, passkey: bool, passwordOk: bool)
    requires a !in s.used
    ensures var s' := Step(s, Open(a, u, passkey, passwordOk));
            if MayOpen(s, u, passwordOk) then
              s' == s.(used := s.used + {a}, log := s'.log,
                       reqs := s.reqs[a := Opening(Enrol(u, passkey, 0, IsProtected(s, u), a))])
            else s' == s
  {
    hide Owned, Protected;
    ProtectedIs(s, u);
  }

  lemma AppInserts(s: State, r: int, u: int)
    requires r !in s.used && r !in s.reqs && u in s.pending && s.pending[u].user == u && !s.pending[u].passkey
    requires (s.pending[u].stepUp || !IsProtected(s, u)) && |Owned(s.factors, u)| < 10
    ensures var s' := Step(Step(Step(s, ReadPending(r, u)), Count(r)), Insert(r));
            s'.factors == s.factors[s.nextFactor := Factor(u, false, s.pending[u].secret)] && u !in s'.pending
  {
    hide Owned, Protected;
    ProtectedIs(s, u);
    var s1 := Step(s, ReadPending(r, u));
    assert s1 == s.(used := s.used + {r}, reqs := s.reqs[r := Accepted(s.pending[u])]);
    var s2 := Step(s1, Count(r));
    assert s2.reqs == s1.reqs[r := Counted(s.pending[u])] && s2.pending == s.pending && s2.factors == s.factors;
  }

  /** An app is enrolled for an account with room that has no factor or proved its password. */
  lemma AppEnrols(s: State, a: int, r: int, u: int, passwordOk: bool)
    requires a !in s.used && r !in s.used && a != r && a !in s.reqs && r !in s.reqs
    requires MayOpen(s, u, passwordOk) && |Owned(s.factors, u)| < 10
    ensures var s2 := Step(Step(s, Open(a, u, false, passwordOk)), StorePending(a));
            var s' := Step(Step(Step(s2, ReadPending(r, u)), Count(r)), Insert(r));
            s'.factors == s.factors[s.nextFactor := Factor(u, false, s.nextSecret)] && u !in s'.pending
  {
    hide Step, Owned, IsProtected;
    AppOpens(s, a, u, passwordOk);
    var s2 := Step(Step(s, Open(a, u, false, passwordOk)), StorePending(a));
    SameProtection(s, s2, u);
    AppInserts(s2, r, u);
  }

  lemma SameProtection(s: State, s': State, u: int)
    requires s'.factors == s.factors
    ensures IsProtected(s', u) == IsProtected(s, u)
  {
  }

  // ----- a passkey -----

  lemma PasskeyOpens(s: State, a: int, u: int, passwordOk: bool)
    requires a !in s.used && a !in s.reqs && MayOpen(s, u, passwordOk) && |Owned(s.factors, u)| < 10
    ensures var s' := Step(Step(s, Open(a, u, true, passwordOk)), StoreCeremony(a));
            var e := Enrol(u, true, 0, IsProtected(s, u), a);
            s' == s.(used := s.used + {a}, ceremonies := s.ceremonies[u := e], log := s'.log)
  {
    hide Owned, Protected, IsProtected;
    var s1 := Step(s, Open(a, u, true, passwordOk));
    OpensIff(s, a, u, true, passwordOk);
    assert s1.reqs - {a} == s.reqs;
  }

  lemma PasskeyInserts(s: State, r: int, u: int)
    requires r !in s.used && r !in s.reqs && u in s.ceremonies && s.ceremonies[u].user == u && s.ceremonies[u].passkey
    requires (s.ceremonies[u].stepUp || !IsProtected(s, u)) && |Owned(s.factors, u)| < 10
    ensures var s' := Step(Step(Step(Step(s, TakeCeremony(r, u)), ReadAccount(r)), Count(r)), Insert(r));
            s'.factors == s.factors[s.nextFactor := Factor(u, true, s.ceremonies[u].secret)] && u !in s'.ceremonies
  {
    hide Owned, Protected;
    ProtectedIs(s, u);
    var e := s.ceremonies[u];
    var s1 := Step(s, TakeCeremony(r, u));
    assert s1.reqs == s.reqs[r := Taken(e)] && s1.factors == s.factors;
    var s2 := Step(s1, ReadAccount(r));
    assert s2.reqs == s1.reqs[r := Accepted(e)] && s2.factors == s.factors;
    var s3 := Step(s2, Count(r));
    assert s3.reqs == s2.reqs[r := Counted(e)] && s3.factors == s.factors;
  }

  /** And so is a passkey. */
  lemma PasskeyEnrols(s: State, a: int, r: int, u: int, passwordOk: bool)
    requires a !in s.used && r !in s.used && a != r && a !in s.reqs && r !in s.reqs
    requires MayOpen(s, u, passwordOk) && |Owned(s.factors, u)| < 10
    ensures var s2 := Step(Step(s, Open(a, u, true, passwordOk)), StoreCeremony(a));
            var s' := Step(Step(Step(Step(s2, TakeCeremony(r, u)), ReadAccount(r)), Count(r)), Insert(r));
            s'.factors == s.factors[s.nextFactor := Factor(u, true, 0)] && u !in s'.ceremonies
  {
    hide Step, Owned, IsProtected;
    PasskeyOpens(s, a, u, passwordOk);
    var s2 := Step(Step(s, Open(a, u, true, passwordOk)), StoreCeremony(a));
    SameProtection(s, s2, u);
    PasskeyInserts(s2, r, u);
  }
}
