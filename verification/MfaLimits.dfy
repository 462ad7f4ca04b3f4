/** How many factors a user can come to have. */
module MfaLimits {
  import opened Common
  import opened Mfa
  import opened MfaRuns

  function PendingKinds(t: Tables, u: nat): set<Kind> {
    set f | f in PendingOf(t, u) :: t.factors[f].kind
  }

  /** The verified factors plus the kinds with a pending one: what the number of verified factors can still become. */
  function Weight(t: Tables, u: nat): nat {
    |VerifiedOf(t, u)| + |PendingKinds(t, u)|
  }

  predicate Bounded(t: Tables, config: Config, u: nat) {
    && PendingKinds(t, u) <= config.kinds
    && Weight(t, u) <= config.maxVerified - 1 + |config.kinds|
    && |FactorsOf(t, u)| <= config.maxEnrolled
  }

  lemma BoundedBySubsets(t: Tables, config: Config, u: nat, r: Tables)
    requires Bounded(t, config, u)
    requires FactorsOf(r, u) <= FactorsOf(t, u) && VerifiedOf(r, u) <= VerifiedOf(t, u)
             && PendingKinds(r, u) <= PendingKinds(t, u)
    ensures Bounded(r, config, u)
  {
    SubsetSize(FactorsOf(r, u), FactorsOf(t, u));
    SubsetSize(VerifiedOf(r, u), VerifiedOf(t, u));
    SubsetSize(PendingKinds(r, u), PendingKinds(t, u));
  }

  lemma DropShrinks(t: Tables, gone: set<nat>, u: nat)
    ensures var r := DropFactors(t, gone);
            && FactorsOf(r, u) <= FactorsOf(t, u) && VerifiedOf(r, u) <= VerifiedOf(t, u)
            && PendingKinds(r, u) <= PendingKinds(t, u)
  {
    var r := DropFactors(t, gone);
    forall k | k in PendingKinds(r, u) ensures k in PendingKinds(t, u) {
      var f :| f in PendingOf(r, u) && r.factors[f].kind == k;
      assert f in PendingOf(t, u);
    }
  }

  lemma BoundedDrop(t: Tables, config: Config, gone: set<nat>, u: nat)
    requires Bounded(t, config, u)
    ensures Bounded(DropFactors(t, gone), config, u)
  {
    DropShrinks(t, gone, u);
    BoundedBySubsets(t, config, u, DropFactors(t, gone));
  }

  lemma AddPending(t: Tables, factor: Factor, u: nat)
    requires Sound(t) && !factor.verified
    ensures var r := AddFactor(t, factor);
            && VerifiedOf(r, u) == VerifiedOf(t, u)
            && FactorsOf(r, u) == FactorsOf(t, u) + (if factor.user == u then {t.nextFactor} else {})
            && PendingKinds(r, u) == PendingKinds(t, u) + (if factor.user == u then {factor.kind} else {})
  {
    var r := AddFactor(t, factor);
    assert PendingOf(r, u) == PendingOf(t, u) + (if factor.user == u then {t.nextFactor} else {});
    forall k | k in PendingKinds(t, u) ensures k in PendingKinds(r, u) {
      var f :| f in PendingOf(t, u) && t.factors[f].kind == k;
      assert f in PendingOf(r, u) && r.factors[f].kind == k;
    }
    if factor.user == u { assert t.nextFactor in PendingOf(r, u); }
  }

  lemma BoundedEnrol(t: Tables, config: Config, u: nat, req: Enrolment)
    requires Sound(t) && Bounded(t, config, u) && req.login in t.logins
    ensures Bounded(Enrol(t, config, req), config, u)
  {
    var d := if req.kind.Phone? then DropFactors(t, SamePhone(t, req.user, req.phone)) else t;
    BoundedDrop(t, config, SamePhone(t, req.user, req.phone), u);
    SoundDrop(t, SamePhone(t, req.user, req.phone));
    BoundedDrop(d, config, Expired(d, config.expiry, req.now, req.challenged), u);
    SoundDrop(d, Expired(d, config.expiry, req.now, req.challenged));
    var c, r := Cleared(t, config, req), Enrol(t, config, req);
    assert Bounded(c, config, u) && Sound(c);
    if r != t && r != c {
      var factor := r.factors[c.nextFactor];
      AddPending(c, factor, u);
      SubsetSize(PendingKinds(r, u), config.kinds);
    }
  }

  /** Verifying a pending factor trades a kind with a pending factor for a verified one. */
  lemma VerifyTrades(t: Tables, s: nat, f: nat, now: Time, u: nat)
    requires Enabled(t, VerifyEvent(s, f, now))
    ensures var r, own := Verify(t, s, f, now), t.factors[f].user == u;
            && FactorsOf(r, u) <= FactorsOf(t, u)
            && VerifiedOf(r, u) == VerifiedOf(t, u) + (if own then {f} else {})
            && PendingKinds(r, u) == PendingKinds(t, u) - (if own then {t.factors[f].kind} else {})
  {
    var r, kind := Verify(t, s, f, now), t.factors[f].kind;
    assert r.factors == MarkVerified(t, f).factors - PendingOfKind(MarkVerified(t, f), t.factors[f].user, kind);
    if t.factors[f].user == u {
      assert forall g :: g in PendingOf(r, u) <==> g in PendingOf(t, u) && t.factors[g].kind != kind;
    } else {
      assert PendingOf(r, u) == PendingOf(t, u);
    }
    forall k | k in PendingKinds(t, u) && (t.factors[f].user == u ==> k != kind) ensures k in PendingKinds(r, u) {
      var g :| g in PendingOf(t, u) && t.factors[g].kind == k;
      assert g in PendingOf(r, u) && r.factors[g].kind == k;
    }
  }

  lemma BoundedVerify(t: Tables, config: Config, u: nat, s: nat, f: nat, now: Time)
    requires Bounded(t, config, u) && Enabled(t, VerifyEvent(s, f, now))
    ensures Bounded(Verify(t, s, f, now), config, u)
  {
    VerifyTrades(t, s, f, now, u);
    var r := Verify(t, s, f, now);
    SubsetSize(FactorsOf(r, u), FactorsOf(t, u));
    if t.factors[f].user == u && !t.factors[f].verified {
      assert f in PendingOf(t, u) && t.factors[f].kind in PendingKinds(t, u);
    } else {
      assert VerifiedOf(r, u) == VerifiedOf(t, u);
      SubsetSize(PendingKinds(r, u), PendingKinds(t, u));
    }
  }

  lemma SameFactors(t: Tables, config: Config, u: nat, r: Tables)
    requires Bounded(t, config, u) && r.factors == t.factors
    ensures Bounded(r, config, u)
  {
    assert FactorsOf(r, u) == FactorsOf(t, u);
    assert VerifiedOf(r, u) == VerifiedOf(t, u);
    assert PendingOf(r, u) == PendingOf(t, u);
    BoundedBySubsets(t, config, u, r);
  }

  lemma BoundedStep(t: Tables, config: Config, u: nat, e: Event)
    requires Sound(t) && Bounded(t, config, u) && Enabled(t, e)
    ensures Bounded(Step(t, config, e), config, u)
  {
    match e
    case SignInEvent(_, _, _) => SameFactors(t, config, u, Step(t, config, e));
    case RefreshEvent(_, _) => SameFactors(t, config, u, Step(t, config, e));
    case LogoutEvent(_) => SameFactors(t, config, u, Step(t, config, e));
    case EnrolEvent(req) => BoundedEnrol(t, config, u, req);
    case VerifyEvent(s, f, now) => BoundedVerify(t, config, u, s, f, now);
    case UnenrolEvent(s, f) =>
      BoundedDrop(t, config, {f}, u);
      if MayUnenrol(t, s, f) { SameFactors(DropFactors(t, {f}), config, u, Unenrol(t, s, f)); }
    case ExpireEvent(gone) => BoundedDrop(t, config, gone, u);
  }

  /** Over every run a user has at most `maxEnrolled` factors, and at most `maxVerified - 1` verified ones more than
      there are kinds to enrol; with a single kind that is `maxVerified` itself. */
  lemma {:induction false} FactorsStayBounded(t: Tables, config: Config, u: nat, es: seq<Event>)
    requires Sound(t) && Bounded(t, config, u) && Runs(t, config, es)
    ensures var r := End(t, config, es);
            && Bounded(r, config, u)
            && |FactorsOf(r, u)| <= config.maxEnrolled
            && |VerifiedOf(r, u)| <= config.maxVerified - 1 + |config.kinds|
            && (|config.kinds| == 1 ==> |VerifiedOf(r, u)| <= config.maxVerified)
    decreases |es|
  {
    if es != [] {
      SoundStep(t, config, es[0]);
      BoundedStep(t, config, u, es[0]);
      FactorsStayBounded(Step(t, config, es[0]), config, u, es[1..]);
    }
  }

  /** A user without factors satisfies the bound under every configuration with positive caps. */
  lemma NoFactorsAreBounded(t: Tables, config: Config, u: nat)
    requires FactorsOf(t, u) == {} && config.maxVerified > 0 && config.maxEnrolled >= 0
    ensures Bounded(t, config, u)
  {
    assert VerifiedOf(t, u) == {} && PendingOf(t, u) == {} && PendingKinds(t, u) == {};
  }

  // ----- the bound is reached

  /** The user can be given a pending factor of each kind named, and nothing pending stands in the way. */
  predicate Roomy(t: Tables, config: Config, u: nat, s: nat, names: seq<string>) {
    && Sound(t) && s in t.logins && t.logins[s].user == u && (|VerifiedOf(t, u)| > 0 ==> t.logins[s].IsAal2())
    && |VerifiedOf(t, u)| < config.maxVerified
    && |FactorsOf(t, u)| + |names| <= config.maxEnrolled
    && (forall f, i :: f in FactorsOf(t, u) && 0 <= i < |names| ==> t.factors[f].name != names[i])
    && (forall i, j :: 0 <= i < j < |names| ==> names[i] != names[j])
  }

  /** An enrolment while all pending factors have a challenge. */
  function Asks(t: Tables, u: nat, s: nat, kind: Kind, name: string, phone: string, now: Time): Enrolment {
    Enrolment(u, s, kind, name, phone, now, t.factors.Keys)
  }

  /** With nothing to clear away an enrolment that is allowed adds its factor, and that is all. */
  lemma EnrolAdds(t: Tables, config: Config, u: nat, s: nat, name: string, kind: Kind, phone: string, now: Time)
    requires s in t.logins && kind in config.kinds && MayEnrol(t, config, u, name, t.logins[s].IsAal2())
    requires kind.Phone? ==> SamePhone(t, u, phone) == {}
    ensures Enrol(t, config, Asks(t, u, s, kind, name, phone, now)) ==
            AddFactor(t, Factor(u, kind, false, name, if kind.Phone? then phone else "", now))
  {
    assert DropFactors(t, {}) == t;
    assert Expired(t, config.expiry, now, t.factors.Keys) == {};
    assert Cleared(t, config, Asks(t, u, s, kind, name, phone, now)) == t;
  }

  lemma EnrolOne(t: Tables, config: Config, u: nat, s: nat, names: seq<string>, kind: Kind, phone: string, now: Time)
    requires names != [] && Roomy(t, config, u, s, names) && kind in config.kinds
    requires kind.Phone? ==> SamePhone(t, u, phone) == {}
    ensures var r := Enrol(t, config, Asks(t, u, s, kind, names[0], phone, now));
            && r == AddFactor(t, Factor(u, kind, false, names[0], if kind.Phone? then phone else "", now))
            && Roomy(r, config, u, s, names[1..])
            && VerifiedOf(r, u) == VerifiedOf(t, u)
            && (!kind.Phone? ==> SamePhone(r, u, phone) == SamePhone(t, u, phone))
  {
    EnrolAdds(t, config, u, s, names[0], kind, phone, now);
    RoomyAfter(t, config, u, s, names, Factor(u, kind, false, names[0], if kind.Phone? then phone else "", now));
  }

  lemma RoomyAfter(t: Tables, config: Config, u: nat, s: nat, names: seq<string>, factor: Factor)
    requires names != [] && Roomy(t, config, u, s, names) && !factor.verified && factor.user == u
             && factor.name == names[0]
    ensures var r := AddFactor(t, factor);
            && Roomy(r, config, u, s, names[1..]) && VerifiedOf(r, u) == VerifiedOf(t, u)
            && forall phone :: !factor.kind.Phone? ==> SamePhone(r, u, phone) == SamePhone(t, u, phone)
  {
    AddPending(t, factor, u);
    var r := AddFactor(t, factor);
    forall f, i | f in FactorsOf(r, u) && 0 <= i < |names[1..]| ensures r.factors[f].name != names[1..][i] {
      if f != t.nextFactor { assert f in FactorsOf(t, u); }
    }
  }

  lemma VerifySparesOtherKinds(t: Tables, s: nat, f: nat, now: Time, g: nat)
    requires Enabled(t, VerifyEvent(s, f, now)) && g in t.factors && g != f && t.factors[g].kind != t.factors[f].kind
    ensures var r := Verify(t, s, f, now); g in r.factors && r.factors[g] == t.factors[g]
  {
    var marked := MarkVerified(t, f);
    assert marked.factors[g] == t.factors[g];
  }

  lemma VerifyAddsOne(t: Tables, u: nat, s: nat, f: nat, now: Time)
    requires Sound(t) && s in t.logins && t.logins[s].user == u && f in PendingOf(t, u)
    ensures var r := Verify(t, s, f, now);
            && Sound(r) && s in r.logins && r.logins[s].user == u
            && |VerifiedOf(r, u)| == |VerifiedOf(t, u)| + 1
            && (forall g :: g in PendingOf(t, u) && t.factors[g].kind != t.factors[f].kind ==>
                  g in PendingOf(r, u) && r.factors[g] == t.factors[g])
  {
    SoundVerify(t, s, f, now);
    VerifyKeepsOnlyLevelTwo(t, s, f, now);
    VerifyTrades(t, s, f, now, u);
    var r := Verify(t, s, f, now);
    forall g | g in PendingOf(t, u) && t.factors[g].kind != t.factors[f].kind
      ensures g in PendingOf(r, u) && r.factors[g] == t.factors[g]
    {
      VerifySparesOtherKinds(t, s, f, now, g);
    }
  }

  lemma Prefixed(t: Tables, config: Config, e: Event, es: seq<Event>)
    requires Enabled(t, e) && Runs(Step(t, config, e), config, es)
    ensures Runs(t, config, [e] + es) && End(t, config, [e] + es) == End(Step(t, config, e), config, es)
  {
    assert ([e] + es)[1..] == es;
  }

  lemma {:induction false} Concatenated(t: Tables, config: Config, a: seq<Event>, b: seq<Event>)
    requires Runs(t, config, a) && Runs(End(t, config, a), config, b)
    ensures Runs(t, config, a + b) && End(t, config, a + b) == End(End(t, config, a), config, b)
    decreases |a|
  {
    if a == [] {
      assert a + b == b;
    } else {
      Concatenated(Step(t, config, a[0]), config, a[1..], b);
      Prefixed(t, config, a[0], a[1..] + b);
      assert a + b == [a[0]] + (a[1..] + b);
    }
  }

  predicate Distinct<T(==)>(s: seq<T>) {
    forall i, j :: 0 <= i < j < |s| ==> s[i] != s[j]
  }

  predicate IsPending(t: Tables, u: nat, f: nat, kind: Kind) {
    f in t.factors && t.factors[f].user == u && !t.factors[f].verified && t.factors[f].kind == kind
  }

  /** These factors are pending factors of the user, of these kinds. */
  predicate ArePending(t: Tables, u: nat, fs: seq<nat>, kinds: seq<Kind>) {
    |fs| == |kinds| && forall i :: 0 <= i < |fs| ==> IsPending(t, u, fs[i], kinds[i])
  }

  predicate KeepsFactors(t: Tables, r: Tables) {
    forall g :: g in t.factors ==> g in r.factors && r.factors[g] == t.factors[g]
  }

  lemma {:induction false} EnrolAll(t: Tables, config: Config, u: nat, s: nat, kinds: seq<Kind>, names: seq<string>,
                                    phone: string, now: Time)
    returns (es: seq<Event>, fs: seq<nat>)
    requires |names| == |kinds| && Roomy(t, config, u, s, names) && Distinct(kinds)
    requires forall k :: k in kinds ==> k in config.kinds
    requires Phone in kinds ==> SamePhone(t, u, phone) == {}
    ensures Runs(t, config, es)
    ensures var r := End(t, config, es);
            && Sound(r) && r.logins == t.logins && VerifiedOf(r, u) == VerifiedOf(t, u)
            && ArePending(r, u, fs, kinds) && KeepsFactors(t, r)
    decreases |kinds|
  {
    if kinds == [] {
      es, fs := [], [];
    } else {
      var e := EnrolEvent(Asks(t, u, s, kinds[0], names[0], phone, now));
      var n := Step(t, config, e);
      EnrolOne(t, config, u, s, names, kinds[0], phone, now);
      assert IsPending(n, u, t.nextFactor, kinds[0]) && KeepsFactors(t, n) && n.logins == t.logins;
      assert forall k :: k in kinds[1..] ==> k in kinds && k != kinds[0];
      var rest, more := EnrolAll(n, config, u, s, kinds[1..], names[1..], phone, now);
      es, fs := [e] + rest, [t.nextFactor] + more;
      Prefixed(t, config, e, rest);
      PendingFirst(n, End(n, config, rest), u, t.nextFactor, more, kinds);
    }
  }

  lemma PendingFirst(n: Tables, r: Tables, u: nat, f: nat, more: seq<nat>, kinds: seq<Kind>)
    requires kinds != [] && IsPending(n, u, f, kinds[0]) && KeepsFactors(n, r) && ArePending(r, u, more, kinds[1..])
    ensures ArePending(r, u, [f] + more, kinds)
  {
    var fs := [f] + more;
    forall i | 0 <= i < |fs| ensures IsPending(r, u, fs[i], kinds[i]) {
      if i > 0 { assert fs[i] == more[i - 1] && kinds[i] == kinds[1..][i - 1]; }
    }
  }

  lemma {:induction false} VerifyAll(t: Tables, config: Config, u: nat, s: nat, fs: seq<nat>, kinds: seq<Kind>,
                                     now: Time)
    returns (es: seq<Event>)
    requires Sound(t) && s in t.logins && t.logins[s].user == u && Distinct(kinds) && ArePending(t, u, fs, kinds)
    ensures Runs(t, config, es) && |VerifiedOf(End(t, config, es), u)| == |VerifiedOf(t, u)| + |kinds|
    decreases |kinds|
  {
    if kinds == [] {
      es := [];
    } else {
      var e := VerifyEvent(s, fs[0], now);
      assert IsPending(t, u, fs[0], kinds[0]);
      VerifyAddsOne(t, u, s, fs[0], now);
      var n := Step(t, config, e);
      forall i | 0 <= i < |fs[1..]| ensures IsPending(n, u, fs[1..][i], kinds[1..][i]) {
        assert IsPending(t, u, fs[i + 1], kinds[i + 1]) && fs[i + 1] in PendingOf(t, u);
      }
      var rest := VerifyAll(n, config, u, s, fs[1..], kinds[1..], now);
      Prefixed(t, config, e, rest);
      es := [e] + rest;
    }
  }

  /** The bound cannot be improved: from any state with one verified factor less than the cap, an enrolment of each kind
      followed by a verification of each leads to it. */
  lemma BoundIsReached(t: Tables, config: Config, u: nat, s: nat, kinds: seq<Kind>, names: seq<string>, phone: string,
                       now: Time)
    requires (set k | k in kinds) == config.kinds && Distinct(kinds) && |names| == |kinds|
             && Roomy(t, config, u, s, names)
    requires |VerifiedOf(t, u)| == config.maxVerified - 1 && SamePhone(t, u, phone) == {}
    ensures exists es :: Runs(t, config, es)
                         && |VerifiedOf(End(t, config, es), u)| == config.maxVerified - 1 + |config.kinds|
  {
    forall k | k in kinds ensures k in config.kinds { assert k in set x | x in kinds; }
    var a, fs := EnrolAll(t, config, u, s, kinds, names, phone, now);
    var b := VerifyAll(End(t, config, a), config, u, s, fs, kinds, now);
    Concatenated(t, config, a, b);
    DistinctSize(kinds);
  }

  lemma {:induction false} DistinctSize<T>(s: seq<T>)
    requires Distinct(s)
    ensures |set x | x in s| == |s|
  {
    if s != [] {
      DistinctSize(s[1..]);
      assert s[0] !in s[1..];
      assert (set x | x in s) == (set x | x in s[1..]) + {s[0]};
    }
  }
}
