/** The charm DIS hadronic-system stage. A charmed hadron is drawn from a
    charm-fraction table and accepted only if it fits in the hadronic system;
    the rest of the hadronic system is either kept as one void (pdg 0) entry
    or replaced by pions that carry the remnant charge. */
module FragmentCharmDISGenerator {
  import opened Outcomes
  import opened Registry
  import opened PdgCodes
  import opened Interactions
  import opened GHep
  import opened HadronicSystemGenerator

  /** The bound of both retry loops. */
  const MaxTries: nat := 1000

  function Max(a: int, b: int): (m: int)
    ensures m >= a && m >= b && (m == a || m == b)
  {
    if a >= b then a else b
  }

  // ---------------------------------------------------------------------
  // Configuration

  datatype Config = Config(pT2scale: real, charmOnly: bool)

  /** `LoadConfig`: the pT^2 scale (default 0.6) and the charm-only switch
      (default off). */
  function LoadConfig(reg: Registry): (c: Config)
    ensures c.pT2scale == (if "pT2scale" in reg.doubles then reg.doubles["pT2scale"] else 0.6)
    ensures c.charmOnly <==> "model-charm-only" in reg.bools && reg.bools["model-charm-only"]
  {
    Config(GetDoubleDef(reg, "pT2scale", 0.6), GetBoolDef(reg, "model-charm-only", false))
  }

  // ---------------------------------------------------------------------
  // The charm-fraction table

  /** The upper edges of the D0, D+ and Ds+ bands of the table at energy E;
      the Lambda_c+ band takes the rest. */
  function CharmFractionEdges(E: real): (real, real, real)
  {
    if E <= 20.0 then (0.32, 0.37, 0.55)
    else if E <= 40.0 then (0.50, 0.60, 0.82)
    else (0.64, 0.86, 0.95)
  }

  /** `CharmedHadronPdgCode` for the uniform draw `rndm`. */
  function CharmedHadronPdgCode(E: real, rndm: real): (pdg: int)
    ensures pdg == D0 || pdg == DPlus || pdg == DsPlus || pdg == LambdaCPlus
    ensures var (e1, e2, e3) := CharmFractionEdges(E);
      && (pdg == D0 <==> rndm <= e1)
      && (pdg == DPlus <==> e1 < rndm <= e2)
      && (pdg == DsPlus <==> e2 < rndm <= e3)
      && (pdg == LambdaCPlus <==> e3 < rndm)
  {
    if E <= 20.0 then
      if rndm <= 0.32 then D0
      else if rndm > 0.32 && rndm <= 0.37 then DPlus
      else if rndm > 0.37 && rndm <= 0.55 then DsPlus
      else LambdaCPlus
    else if E > 20.0 && E <= 40.0 then
      if rndm <= 0.50 then D0
      else if rndm > 0.50 && rndm <= 0.60 then DPlus
      else if rndm > 0.60 && rndm <= 0.82 then DsPlus
      else LambdaCPlus
    else
      if rndm <= 0.64 then D0
      else if rndm > 0.64 && rndm <= 0.86 then DPlus
      else if rndm > 0.86 && rndm <= 0.95 then DsPlus
      else LambdaCPlus
  }

  /** The bands are ordered, so every draw in [0, 1] falls in exactly one. */
  lemma CharmFractionEdgesOrdered(E: real)
    ensures var (e1, e2, e3) := CharmFractionEdges(E); 0.0 < e1 < e2 < e3 < 1.0
  {
  }

  // ---------------------------------------------------------------------
  // Choosing the charmed hadron

  datatype P3 = P3(x: real, y: real, z: real)

  /** One try of the selection loop: the code, the fragmentation z, the mass,
      the energy z EHad and the momentum squared EC^2 - m^2. */
  datatype CharmChoice = CharmChoice(pdgc: int, z: real, m: real, ec: real, p2: real)

  /** The random input of one charm attempt: per try, the uniform draw for the
      code and the fragmentation function's z; and the charm hadron's
      3-momentum for the accepted choice (its pT from `GeneratePT2`, a random
      azimuth, and the rotation along the hadronic momentum). */
  datatype CharmDraws = CharmDraws(hadron: nat -> real, z: nat -> real, p3: CharmChoice -> P3)

  /** What one attempt reads besides the draws: the probe energy in the
      struck-nucleon rest frame, the hadronic 4-momentum and its invariant
      mass, the hadronic-shower charge, the PDG library and the pion mass. */
  datatype CharmContext = CharmContext(E: real, p4Had: P4, mHad: real, qhs: int, lib: PdgLibrary, pionMass: real)

  function ChoiceAt(E: real, eHad: real, lib: PdgLibrary, d: CharmDraws, k: nat): (c: CharmChoice)
    ensures c.pdgc == CharmedHadronPdgCode(E, d.hadron(k)) && c.m == lib.mass(c.pdgc)
  {
    var pdgc := CharmedHadronPdgCode(E, d.hadron(k));
    var m := lib.mass(pdgc);
    var ec := d.z(k) * eHad;
    CharmChoice(pdgc, d.z(k), m, ec, ec * ec - m * m)
  }

  /** The acceptance test: not heavier than the hadronic system, and a real momentum. */
  predicate Acceptable(c: CharmChoice, mHad: real)
  {
    !(c.m > mHad || c.p2 < 0.0)
  }

  /** The first try at or after `k` (and before the bound) that is accepted. */
  function FirstAccepted(E: real, eHad: real, mHad: real, lib: PdgLibrary, d: CharmDraws, k: nat): (r: Option<nat>)
    ensures r.Some? ==> k <= r.value < MaxTries && Acceptable(ChoiceAt(E, eHad, lib, d, r.value), mHad)
    ensures r.Some? ==> forall j :: k <= j < r.value ==> !Acceptable(ChoiceAt(E, eHad, lib, d, j), mHad)
    ensures r.None? ==> forall j :: k <= j < MaxTries ==> !Acceptable(ChoiceAt(E, eHad, lib, d, j), mHad)
    decreases MaxTries - k
  {
    if k >= MaxTries then None
    else if Acceptable(ChoiceAt(E, eHad, lib, d, k), mHad) then Some(k)
    else FirstAccepted(E, eHad, mHad, lib, d, k + 1)
  }

  /** The selection loop of `GenerateCharmHadronOnly`: up to 1000 tries, the
      first accepted one wins, and the assertion fails when none is. */
  method SelectCharmHadron(E: real, eHad: real, mHad: real, lib: PdgLibrary, d: CharmDraws)
    returns (r: Result<CharmChoice>)
    ensures var first := FirstAccepted(E, eHad, mHad, lib, d, 0);
      && (r.Ok? <==> first.Some?)
      && (r.Ok? ==> r.value == ChoiceAt(E, eHad, lib, d, first.value))
  {
    var itry := 0;
    var pdgc, z, m, ec, p2 := 0, 0.0, 0.0, 0.0, 0.0;
    while itry < MaxTries && pdgc == 0
      invariant 0 <= itry <= MaxTries
      invariant pdgc == 0 ==> FirstAccepted(E, eHad, mHad, lib, d, 0) == FirstAccepted(E, eHad, mHad, lib, d, itry)
      invariant pdgc != 0 ==> 0 < itry && FirstAccepted(E, eHad, mHad, lib, d, 0) == Some(itry - 1)
                              && CharmChoice(pdgc, z, m, ec, p2) == ChoiceAt(E, eHad, lib, d, itry - 1)
    {
      var c := ChoiceAt(E, eHad, lib, d, itry);
      pdgc, z, m, ec, p2 := c.pdgc, c.z, c.m, c.ec, c.p2;
      assert FirstAccepted(E, eHad, mHad, lib, d, itry) == if Acceptable(c, mHad) then Some(itry) else FirstAccepted(E, eHad, mHad, lib, d, itry + 1);
      if m > mHad || p2 < 0.0 {
        pdgc := 0;
      }
      itry := itry + 1;
    }
    if pdgc == 0 {
      return Abort("assert(pdgc!=0)");
    }
    r := Ok(CharmChoice(pdgc, z, m, ec, p2));
  }

  // ---------------------------------------------------------------------
  // The charm pT^2

  /** The index of the first draw at or after `k` that is within `bound`;
      `K` is an index known to be within it. */
  function FirstWithin(draw: nat -> real, bound: real, k: nat, K: nat): (i: nat)
    requires k <= K && draw(K) <= bound
    ensures k <= i <= K && draw(i) <= bound
    ensures forall j :: k <= j < i ==> draw(j) > bound
    decreases K - k
  {
    if draw(k) <= bound then k else FirstWithin(draw, bound, k + 1, K)
  }

  /** `GeneratePT2`: the rejection loop over the draws of the exponential
      exp(-pT^2 / pT2scale) on [0, sqrt|pT2max|], starting from 9999999. The
      result is within the bound: it is the first draw within it, or the
      starting value when that already is. */
  method GeneratePT2(pT2max: real, draw: nat -> real, ghost K: nat) returns (pT2: real)
    requires draw(K) <= pT2max
    ensures pT2 <= pT2max
    ensures pT2 == if 9999999.0 <= pT2max then 9999999.0 else draw(FirstWithin(draw, pT2max, 0, K))
  {
    pT2 := 9999999.0;
    var i: nat := 0;
    while pT2 > pT2max
      invariant i <= K + 1
      invariant i == 0 ==> pT2 == 9999999.0
      invariant i > 0 ==> 9999999.0 > pT2max && pT2 == draw(i - 1)
      invariant forall j :: 0 <= j < i - 1 ==> draw(j) > pT2max
      invariant pT2 > pT2max ==> forall j :: 0 <= j < i ==> draw(j) > pT2max
      decreases K + 1 - i
    {
      pT2 := draw(i);
      i := i + 1;
    }
    if i > 0 {
      var f := FirstWithin(draw, pT2max, 0, K);
      assert !(f < i - 1) && !(i - 1 < f);
    }
  }

  // ---------------------------------------------------------------------
  // One charm attempt: `GenerateCharmHadronOnly`

  /** How one attempt ends. */
  datatype Attempt =
    | NoHadron                        // no try was accepted: assert(pdgc!=0)
    | TooLight(pdgc: int)             // the remnant is too light for its pions
    | NoHadSyst(pdgc: int)            // no hadronic-system entry: assert(mom!=-1)
    | Added(pdgc: int, mom: int, charm: P4, remnant: P4)

  function CharmP4(c: CharmChoice, p: P3): P4
  {
    P4(p.x, p.y, p.z, c.ec)
  }

  /** The invariant mass the remnant pions need: max(2, qremn) pion masses. */
  function MassNeeded(qremn: int, pionMass: real): real
  {
    (Max(2, qremn) as real) * pionMass
  }

  /** What follows the choice of the charm hadron `c` with 3-momentum `p`:
      the remnant is what is left of the hadronic 4-momentum, the mass check
      when remnants are not ignored, and the search for the mother. */
  function AttemptWith(s: seq<Particle>, ignoreRemnants: bool, ctx: CharmContext, c: CharmChoice, p: P3): Attempt
  {
    var charm := CharmP4(c, p);
    var remnant := ctx.p4Had.Minus(charm);
    var need := MassNeeded(ctx.qhs - HadronCharge(ctx.lib, c.pdgc), ctx.pionMass);
    if !ignoreRemnants && remnant.Mag2() < need * need then TooLight(c.pdgc)
    else
      var mom := FindEntry(s, HadronicSyst, IStDISPreFragmHadronicState, 0);
      if mom == -1 then NoHadSyst(c.pdgc) else Added(c.pdgc, mom, charm, remnant)
  }

  /** The outcome of `GenerateCharmHadronOnly` on a record with entries `s`. */
  function CharmAttempt(s: seq<Particle>, ignoreRemnants: bool, ctx: CharmContext, d: CharmDraws): Attempt
  {
    var first := FirstAccepted(ctx.E, ctx.p4Had.e, ctx.mHad, ctx.lib, d, 0);
    if first.None? then NoHadron
    else
      var c := ChoiceAt(ctx.E, ctx.p4Had.e, ctx.lib, d, first.value);
      AttemptWith(s, ignoreRemnants, ctx, c, d.p3(c))
  }

  /** The boolean `GenerateCharmHadronOnly` returns, or the assertion it fails. */
  function AttemptReturn(a: Attempt): Result<bool>
  {
    match a
    case NoHadron => Abort("assert(pdgc!=0)")
    case TooLight(_) => Ok(false)
    case NoHadSyst(_) => Abort("assert(mom!=-1)")
    case Added(_, _, _, _) => Ok(true)
  }

  /** The record entries after an attempt: two stable entries, the charm
      hadron and then the void remnant, each a child of the hadronic system. */
  function AttemptEntries(s: seq<Particle>, a: Attempt): seq<Particle>
  {
    if a.Added? then
      s + [Particle(a.pdgc, IStStableFinalState, a.mom, a.charm), Particle(0, IStStableFinalState, a.mom, a.remnant)]
    else s
  }

  /** The interaction after an attempt: tagged with the chosen hadron as soon
      as one was chosen. */
  function AttemptInteraction(i: Interaction, a: Attempt): Interaction
  {
    if a.NoHadron? then i else i.SetExclTag(CharmTag(a.pdgc))
  }

  method GenerateCharmHadronOnly(rec: EventRecord, ignoreRemnants: bool, ctx: CharmContext, d: CharmDraws)
    returns (r: Result<bool>)
    modifies rec
    ensures var a := CharmAttempt(old(rec.entries), ignoreRemnants, ctx, d);
      && r == AttemptReturn(a)
      && rec.entries == AttemptEntries(old(rec.entries), a)
      && rec.interaction == AttemptInteraction(old(rec.interaction), a)
      && rec.flags == old(rec.flags)
  {
    var sel := SelectCharmHadron(ctx.E, ctx.p4Had.e, ctx.mHad, ctx.lib, d);
    if sel.Abort? {
      assert CharmAttempt(rec.entries, ignoreRemnants, ctx, d) == NoHadron;
      return Abort("assert(pdgc!=0)");
    }
    var c := sel.value;
    assert CharmAttempt(rec.entries, ignoreRemnants, ctx, d) == AttemptWith(rec.entries, ignoreRemnants, ctx, c, d.p3(c));
    rec.SetInteraction(rec.interaction.SetExclTag(CharmTag(c.pdgc)));
    r := AddCharmHadron(rec, ignoreRemnants, ctx, c, d.p3(c));
  }

  /** The part of `GenerateCharmHadronOnly` after the choice of the charm
      hadron `c`, whose 3-momentum (generated pT, azimuth, rotation along the
      hadronic momentum) is `p3`. */
  method AddCharmHadron(rec: EventRecord, ignoreRemnants: bool, ctx: CharmContext, c: CharmChoice, p3: P3)
    returns (r: Result<bool>)
    modifies rec
    ensures var a := AttemptWith(old(rec.entries), ignoreRemnants, ctx, c, p3);
      && r == AttemptReturn(a)
      && rec.entries == AttemptEntries(old(rec.entries), a)
      && rec.interaction == old(rec.interaction) && rec.flags == old(rec.flags)
  {
    var p4Had := ctx.p4Had;
    var pxC, pyC, pzC := p3.x, p3.y, p3.z;
    var pRx := p4Had.px - pxC;
    var pRy := p4Had.py - pyC;
    var pRz := p4Had.pz - pzC;
    var eR := p4Had.e - c.ec;
    assert P4(pRx, pRy, pRz, eR) == p4Had.Minus(CharmP4(c, p3));

    if !ignoreRemnants {
      var qch := HadronCharge(ctx.lib, c.pdgc);
      var qremn := ctx.qhs - qch;
      var nmult := Max(2, qremn);
      var mneed := (nmult as real) * ctx.pionMass;
      assert mneed == MassNeeded(qremn, ctx.pionMass);
      var mneed2 := mneed * mneed;
      var mavail2 := eR * eR - pRx * pRx - pRy * pRy - pRz * pRz;
      assert mavail2 == P4(pRx, pRy, pRz, eR).Mag2();
      if mavail2 < mneed2 {
        return Ok(false);
      }
    }

    var mom := rec.FinalStateHadronicSystemPosition();
    if mom == -1 {
      return Abort("assert(mom!=-1)");
    }
    rec.AddParticle(Particle(c.pdgc, IStStableFinalState, mom, P4(pxC, pyC, pzC, c.ec)));
    rec.AddParticle(Particle(0, IStStableFinalState, mom, P4(pRx, pRy, pRz, eR)));
    r := Ok(true);
  }

  /** An added charm hadron is one of the four table codes, was accepted by
      the selection test, and is a child of the hadronic-system entry; with
      the remnant it makes up the hadronic 4-momentum exactly. */
  lemma AddedCharmHadron(s: seq<Particle>, ignoreRemnants: bool, ctx: CharmContext, d: CharmDraws)
    requires CharmAttempt(s, ignoreRemnants, ctx, d).Added?
    ensures var a := CharmAttempt(s, ignoreRemnants, ctx, d);
      && (a.pdgc == D0 || a.pdgc == DPlus || a.pdgc == DsPlus || a.pdgc == LambdaCPlus)
      && a.mom == FindEntry(s, HadronicSyst, IStDISPreFragmHadronicState, 0) && 0 <= a.mom < |s|
      && a.charm.Plus(a.remnant) == ctx.p4Had
      && ctx.lib.mass(a.pdgc) <= ctx.mHad
  {
    var first := FirstAccepted(ctx.E, ctx.p4Had.e, ctx.mHad, ctx.lib, d, 0);
    assert first.Some?;
    var c := ChoiceAt(ctx.E, ctx.p4Had.e, ctx.lib, d, first.value);
    assert CharmAttempt(s, ignoreRemnants, ctx, d) == AttemptWith(s, ignoreRemnants, ctx, c, d.p3(c));
    assert Acceptable(c, ctx.mHad);
  }

  /** The attempt comes back short of remnant mass exactly when remnants are
      not ignored and the remnant's mass squared is below (max(2, qremn) m_pi)^2;
      so with remnants ignored the returned boolean is never false. */
  lemma TooLightExactly(s: seq<Particle>, ignoreRemnants: bool, ctx: CharmContext, c: CharmChoice, p: P3)
    ensures var remnant := ctx.p4Had.Minus(CharmP4(c, p));
      var need := MassNeeded(ctx.qhs - HadronCharge(ctx.lib, c.pdgc), ctx.pionMass);
      AttemptWith(s, ignoreRemnants, ctx, c, p).TooLight? <==> !ignoreRemnants && remnant.Mag2() < need * need
    ensures ignoreRemnants ==> AttemptReturn(AttemptWith(s, ignoreRemnants, ctx, c, p)) != Ok(false)
  {
  }

  // ---------------------------------------------------------------------
  // The remnant pions

  /** The code of pion `i` when the loop starts with remnant charge `q`: the
      first |q| pions carry the charge's sign, the rest are neutral. */
  function PionAt(q: int, i: nat): int
  {
    if q < 0 && i < -q then PiMinus
    else if q > 0 && i < q then PiPlus
    else Pi0
  }

  /** The remnant pion codes: max(2, q) pions, charged ones first. */
  function PionCodes(q: int): (codes: seq<int>)
    ensures |codes| == Max(2, q)
    ensures forall i :: 0 <= i < |codes| ==> codes[i] == PionAt(q, i)
  {
    seq(Max(2, q), (i: int) requires 0 <= i => PionAt(q, i))
  }

  /** The remnant charge still to be assigned after `i` pions. */
  function ChargeLeft(q: int, i: nat): int
  {
    if q < 0 then (if i < -q then q + i else 0)
    else if q > 0 then (if i < q then q - i else 0)
    else 0
  }

  /** The charge-assignment loop of `GenerateHadronicSystem`: each pi- raises
      the remaining charge by one, each pi+ lowers it, and a pi0 is emitted
      once it is zero. */
  method AssignPionCodes(qremn0: int) returns (rpdgc: array<int>)
    ensures fresh(rpdgc)
    ensures rpdgc[..] == PionCodes(qremn0)
  {
    var qremn := qremn0;
    var nmult := Max(2, qremn);
    rpdgc := new int[nmult];
    for i := 0 to nmult
      invariant qremn == ChargeLeft(qremn0, i)
      invariant forall j :: 0 <= j < i ==> rpdgc[j] == PionAt(qremn0, j)
    {
      if qremn < 0 {
        rpdgc[i] := PiMinus;
        qremn := qremn + 1;
      } else if qremn > 0 {
        rpdgc[i] := PiPlus;
        qremn := qremn - 1;
      } else {
        rpdgc[i] := Pi0;
      }
    }
  }

  function PionCharge(code: int): int
  {
    if code == PiPlus then 1 else if code == PiMinus then -1 else 0
  }

  function TotalCharge(codes: seq<int>): int
    decreases |codes|
  {
    if codes == [] then 0 else TotalCharge(codes[..|codes| - 1]) + PionCharge(codes[|codes| - 1])
  }

  /** The first n pions carry the charge assigned so far. */
  lemma {:induction false} PrefixCharge(q: int, n: nat)
    requires n <= Max(2, q)
    ensures TotalCharge(PionCodes(q)[..n]) == q - ChargeLeft(q, n)
  {
    var codes := PionCodes(q);
    if n > 0 {
      PrefixCharge(q, n - 1);
      assert codes[..n][..n - 1] == codes[..n - 1];
      assert codes[..n][n - 1] == PionAt(q, n - 1);
    }
  }

  /** The pions carry the remnant charge exactly when it is at least -2; below
      that only two pi- are emitted. */
  lemma PionChargeBalance(q: int)
    ensures TotalCharge(PionCodes(q)) == (if q < -2 then -2 else q)
    ensures TotalCharge(PionCodes(q)) == q <==> q >= -2
  {
    var codes := PionCodes(q);
    PrefixCharge(q, |codes|);
    assert codes[..|codes|] == codes;
  }

  /** The phase-space generator: whether a decay of the given 4-momentum into
      the given masses is allowed, and the i-th generated 4-momentum. */
  datatype PhaseSpace = PhaseSpace(permitted: (P4, seq<real>) -> bool, momentum: (P4, seq<real>, nat) -> P4)

  function Masses(codes: seq<int>, lib: PdgLibrary): (ms: seq<real>)
    ensures |ms| == |codes| && forall i :: 0 <= i < |codes| ==> ms[i] == lib.mass(codes[i])
  {
    seq(|codes|, (i: int) requires 0 <= i < |codes| => lib.mass(codes[i]))
  }

  /** The pion entries, stable and children of `mom`, in code order. */
  function PionEntries(codes: seq<int>, mom: int, pR4: P4, masses: seq<real>, ps: PhaseSpace): (r: seq<Particle>)
    ensures |r| == |codes|
    ensures forall i :: 0 <= i < |r| ==> r[i] == Particle(codes[i], IStStableFinalState, mom, ps.momentum(pR4, masses, i))
  {
    seq(|codes|, (i: int) requires 0 <= i < |codes| => Particle(codes[i], IStStableFinalState, mom, ps.momentum(pR4, masses, i)))
  }

  /** Entries `s` followed by `extra`, with entry `ir` of `s` re-flagged as a
      pre-fragmentation state. */
  function Reflagged(s: seq<Particle>, ir: nat, extra: seq<Particle>): seq<Particle>
    requires ir < |s|
  {
    (s + extra)[ir := s[ir].(status := IStDISPreFragmHadronicState)]
  }

  /** The remnant pion codes for entries `s`: the hadronic system's charge
      less that of entry 5. */
  function RemnantCodes(s: seq<Particle>, ctx: CharmContext): seq<int>
    requires |s| > 5
  {
    PionCodes(ctx.qhs - HadronCharge(ctx.lib, s[5].pdg))
  }

  /** Whether the phase-space generator accepts the decay of entry `ir` into
      the remnant pions. */
  predicate RemnantDecayPermitted(s: seq<Particle>, ctx: CharmContext, ps: PhaseSpace, ir: nat)
    requires 5 < |s| && ir < |s|
  {
    ps.permitted(s[ir].p4, Masses(RemnantCodes(s, ctx), ctx.lib))
  }

  /** The remnant pions generated from entry `ir`, children of `mom`. */
  function RemnantPions(s: seq<Particle>, ctx: CharmContext, ps: PhaseSpace, ir: nat, mom: int): seq<Particle>
    requires 5 < |s| && ir < |s|
  {
    var codes := RemnantCodes(s, ctx);
    PionEntries(codes, mom, s[ir].p4, Masses(codes, ctx.lib), ps)
  }

  /** The second half of `GenerateHadronicSystem` on a record with entries
      `s`: the charge of the remnant from the code of entry 5, the pions in
      place of the first stable pdg-0 entry, and that entry re-flagged as a
      pre-fragmentation state. Every missing object is an abort. */
  function RemnantHadrons(s: seq<Particle>, ctx: CharmContext, ps: PhaseSpace): Result<seq<Particle>>
  {
    if |s| <= 5 then Abort("null Particle(5)")
    else
      var ir := FindEntry(s, 0, IStStableFinalState, 0);
      if ir == -1 then Abort("null remnant entry")
      else if !RemnantDecayPermitted(s, ctx, ps, ir) then Abort("assert(false)")
      else
        var mom := FindEntry(s, HadronicSyst, IStDISPreFragmHadronicState, 0);
        if mom == -1 then Abort("assert(mom!=-1)")
        else Ok(Reflagged(s, ir, RemnantPions(s, ctx, ps, ir, mom)))
  }

  /** The mass loop of `GenerateHadronicSystem`: the library mass of each code. */
  method FillMasses(rpdgc: array<int>, lib: PdgLibrary) returns (mass: array<real>)
    ensures fresh(mass)
    ensures mass[..] == Masses(rpdgc[..], lib)
  {
    mass := new real[rpdgc.Length];
    for i := 0 to rpdgc.Length
      invariant forall j :: 0 <= j < i ==> mass[j] == lib.mass(rpdgc[j])
    {
      mass[i] := lib.mass(rpdgc[i]);
    }
  }

  /** The loop that adds the remnant pions: one stable entry per code, child
      of `mom`, with the momentum the phase-space generator gives it. */
  method AppendPions(rec: EventRecord, rpdgc: array<int>, mass: array<real>, mom: int, pR4: P4, ps: PhaseSpace)
    requires rpdgc.Length == mass.Length
    modifies rec
    ensures rec.entries == old(rec.entries) + PionEntries(rpdgc[..], mom, pR4, mass[..], ps)
    ensures rec.flags == old(rec.flags) && rec.interaction == old(rec.interaction)
  {
    ghost var pions := PionEntries(rpdgc[..], mom, pR4, mass[..], ps);
    for i := 0 to rpdgc.Length
      invariant rec.entries == old(rec.entries) + pions[..i]
      invariant rec.flags == old(rec.flags) && rec.interaction == old(rec.interaction)
    {
      rec.AddParticle(Particle(rpdgc[i], IStStableFinalState, mom, ps.momentum(pR4, mass[..], i)));
      assert pions[..i + 1] == pions[..i] + [pions[i]];
    }
    assert pions[..rpdgc.Length] == pions;
  }

  method AddRemnantHadrons(rec: EventRecord, ctx: CharmContext, ps: PhaseSpace) returns (r: StageOutcome)
    modifies rec
    ensures var res := RemnantHadrons(old(rec.entries), ctx, ps);
      && (r.Completed? || r.Fatal?)
      && (r.Completed? <==> res.Ok?)
      && rec.entries == (if res.Ok? then res.value else old(rec.entries))
      && rec.flags == old(rec.flags) && rec.interaction == old(rec.interaction)
  {
    if |rec.entries| <= 5 {
      return Fatal("null Particle(5)");
    }
    var pdgc := rec.entries[5].pdg;
    var qch := HadronCharge(ctx.lib, pdgc);
    var qremn := ctx.qhs - qch;

    var ir := FindEntry(rec.entries, 0, IStStableFinalState, 0);
    if ir == -1 {
      return Fatal("null remnant entry");
    }
    var pR4 := rec.entries[ir].p4;

    var rpdgc := AssignPionCodes(qremn);
    var mass := FillMasses(rpdgc, ctx.lib);
    assert rpdgc[..] == RemnantCodes(rec.entries, ctx);

    if !ps.permitted(pR4, mass[..]) {
      return Fatal("assert(false)");
    }
    var mom := rec.FinalStateHadronicSystemPosition();
    if mom == -1 {
      return Fatal("assert(mom!=-1)");
    }

    ghost var s := rec.entries;
    AppendPions(rec, rpdgc, mass, mom, pR4, ps);
    assert rec.entries == s + RemnantPions(s, ctx, ps, ir, mom);
    assert rec.entries[ir] == s[ir];
    rec.SetStatus(ir, IStDISPreFragmHadronicState);
    r := Completed;
  }

  // ---------------------------------------------------------------------
  // `GenerateHadronicSystem`

  /** The retry loop over the outcomes of successive attempts: from attempt
      `k` on, the first one that is not short of remnant mass, or the last
      one allowed. */
  function FirstNotTooLight(outcomes: nat -> Attempt, k: nat): (r: nat)
    requires k < MaxTries
    ensures k <= r < MaxTries
    ensures forall j :: k <= j < r ==> outcomes(j).TooLight?
    ensures outcomes(r).TooLight? ==> r == MaxTries - 1
    decreases MaxTries - k
  {
    if outcomes(k).TooLight? && k + 1 < MaxTries then FirstNotTooLight(outcomes, k + 1) else k
  }

  /** The outcomes of the attempts of `GenerateHadronicSystem`, each with its
      own draws, on a record with entries `s` (a rejected attempt leaves the
      entries as they were). */
  function AttemptOutcomes(s: seq<Particle>, ctx: CharmContext, attempts: nat -> CharmDraws): nat -> Attempt
  {
    (j: nat) => CharmAttempt(s, false, ctx, attempts(j))
  }

  /** The attempt the retry loop ends with. */
  function FinalAttempt(s: seq<Particle>, ctx: CharmContext, attempts: nat -> CharmDraws): Attempt
  {
    var outcomes := AttemptOutcomes(s, ctx, attempts);
    outcomes(FirstNotTooLight(outcomes, 0))
  }

  /** The entries `GenerateHadronicSystem` leaves, or the assertion it fails. */
  function HadronicSystemEntries(s: seq<Particle>, ctx: CharmContext, attempts: nat -> CharmDraws, ps: PhaseSpace): Result<seq<Particle>>
  {
    var a := FinalAttempt(s, ctx, attempts);
    match a
    case NoHadron => Abort("assert(pdgc!=0)")
    case TooLight(_) => Abort("assert(itry<1000)")
    case NoHadSyst(_) => Abort("assert(mom!=-1)")
    case Added(_, _, _, _) => RemnantHadrons(AttemptEntries(s, a), ctx, ps)
  }

  method GenerateHadronicSystem(rec: EventRecord, ctx: CharmContext, attempts: nat -> CharmDraws, ps: PhaseSpace)
    returns (r: StageOutcome)
    modifies rec
    ensures var res := HadronicSystemEntries(old(rec.entries), ctx, attempts, ps);
      var a := FinalAttempt(old(rec.entries), ctx, attempts);
      && (r.Completed? || r.Fatal?)
      && (r.Completed? <==> res.Ok?)
      && (res.Ok? ==> rec.entries == res.value && rec.interaction == old(rec.interaction).SetExclTag(CharmTag(a.pdgc)))
      && (!a.Added? ==> rec.entries == old(rec.entries))
      && rec.flags == old(rec.flags)
  {
    ghost var s := rec.entries;
    ghost var outcomes := AttemptOutcomes(s, ctx, attempts);
    var itry := 0;
    var res := GenerateCharmHadronOnly(rec, false, ctx, attempts(itry));
    while res == Ok(false)
      invariant 0 <= itry < MaxTries
      invariant FirstNotTooLight(outcomes, 0) == FirstNotTooLight(outcomes, itry)
      invariant res == AttemptReturn(CharmAttempt(s, false, ctx, attempts(itry)))
      invariant rec.entries == AttemptEntries(s, CharmAttempt(s, false, ctx, attempts(itry)))
      invariant !CharmAttempt(s, false, ctx, attempts(itry)).NoHadron? ==>
        rec.interaction == old(rec.interaction).SetExclTag(CharmTag(CharmAttempt(s, false, ctx, attempts(itry)).pdgc))
      invariant rec.flags == old(rec.flags)
      decreases MaxTries - itry
    {
      itry := itry + 1;
      if !(itry < MaxTries) {
        return Fatal("assert(itry<1000)");
      }
      res := GenerateCharmHadronOnly(rec, false, ctx, attempts(itry));
    }
    assert outcomes(itry) == CharmAttempt(s, false, ctx, attempts(itry));
    if res.Abort? {
      return Fatal(res.reason);
    }
    r := AddRemnantHadrons(rec, ctx, ps);
  }

  /** Once an attempt has added its entries, the second search for the
      hadronic-system entry always succeeds. */
  lemma SecondHadSystSearchSucceeds(s: seq<Particle>, ctx: CharmContext, d: CharmDraws, ps: PhaseSpace)
    requires CharmAttempt(s, false, ctx, d).Added?
    ensures RemnantHadrons(AttemptEntries(s, CharmAttempt(s, false, ctx, d)), ctx, ps) != Abort("assert(mom!=-1)")
  {
    var a := CharmAttempt(s, false, ctx, d);
    var t := AttemptEntries(s, a);
    FindEntryAppend(s, t[|s|..], HadronicSyst, IStDISPreFragmHadronicState, 0);
    assert s + t[|s|..] == t;
  }

  /** The first stable pdg-0 entry after appending a charm hadron and a void
      remnant to entries that have none is that remnant. */
  lemma FreshRemnantFound(s: seq<Particle>, charm: Particle, remn: Particle)
    requires FindEntry(s, 0, IStStableFinalState, 0) == -1
    requires charm.pdg != 0 && remn.pdg == 0 && remn.status == IStStableFinalState
    ensures FindEntry(s + [charm, remn], 0, IStStableFinalState, 0) == |s| + 1
  {
    var t := s + [charm, remn];
    assert forall k :: 0 <= k < |s| ==> t[k] == s[k];
    assert t[|s|] == charm && t[|s| + 1] == remn;
  }

  lemma UpdateAfterAppend(s: seq<Particle>, x: Particle, y: Particle, rest: seq<Particle>)
    ensures Reflagged(s + [x, y], |s| + 1, rest) == s + [x, y.(status := IStDISPreFragmHadronicState)] + rest
  {
    var u := Reflagged(s + [x, y], |s| + 1, rest);
    var v := s + [x, y.(status := IStDISPreFragmHadronicState)] + rest;
    assert |u| == |v|;
    forall k | 0 <= k < |u| ensures u[k] == v[k] {
      if k < |s| {
      } else if k == |s| {
      } else if k == |s| + 1 {
      } else {
        assert u[k] == rest[k - |s| - 2];
      }
    }
  }

  /** `RemnantHadrons` on success, with the two searches it makes named. */
  lemma RemnantHadronsOk(t: seq<Particle>, ctx: CharmContext, ps: PhaseSpace, ir: int, mom: int)
    requires RemnantHadrons(t, ctx, ps).Ok?
    requires FindEntry(t, 0, IStStableFinalState, 0) == ir
    requires FindEntry(t, HadronicSyst, IStDISPreFragmHadronicState, 0) == mom
    ensures |t| > 5 && 0 <= ir < |t|
    ensures RemnantHadrons(t, ctx, ps).value == Reflagged(t, ir, RemnantPions(t, ctx, ps, ir, mom))
  {
  }

  /** After an added charm attempt on a record with no stable pdg-0 entry of
      its own, the two searches of `RemnantHadrons` find the remnant just
      added and the hadronic system the attempt found. */
  lemma AppendedEntriesFound(s: seq<Particle>, a: Attempt)
    requires a.Added? && a.pdgc != 0
    requires a.mom == FindEntry(s, HadronicSyst, IStDISPreFragmHadronicState, 0) && a.mom != -1
    requires FindEntry(s, 0, IStStableFinalState, 0) == -1
    ensures AttemptEntries(s, a) == s + [Particle(a.pdgc, IStStableFinalState, a.mom, a.charm),
                                         Particle(0, IStStableFinalState, a.mom, a.remnant)]
    ensures FindEntry(AttemptEntries(s, a), 0, IStStableFinalState, 0) == |s| + 1
    ensures FindEntry(AttemptEntries(s, a), HadronicSyst, IStDISPreFragmHadronicState, 0) == a.mom
  {
    var charm := Particle(a.pdgc, IStStableFinalState, a.mom, a.charm);
    var remn := Particle(0, IStStableFinalState, a.mom, a.remnant);
    FreshRemnantFound(s, charm, remn);
    FindEntryAppend(s, [charm, remn], HadronicSyst, IStDISPreFragmHadronicState, 0);
  }

  /** The remnant found is the one just added: the pions follow it and it is
      re-flagged in place. */
  lemma RemnantLayout(s: seq<Particle>, a: Attempt, ctx: CharmContext, ps: PhaseSpace)
    requires a.Added? && a.pdgc != 0
    requires a.mom == FindEntry(s, HadronicSyst, IStDISPreFragmHadronicState, 0) && a.mom != -1
    requires FindEntry(s, 0, IStStableFinalState, 0) == -1
    requires RemnantHadrons(AttemptEntries(s, a), ctx, ps).Ok?
    ensures |s| >= 4
    ensures var codes := RemnantCodes(AttemptEntries(s, a), ctx);
      RemnantHadrons(AttemptEntries(s, a), ctx, ps).value ==
        s + [Particle(a.pdgc, IStStableFinalState, a.mom, a.charm),
             Particle(0, IStDISPreFragmHadronicState, a.mom, a.remnant)]
          + PionEntries(codes, a.mom, a.remnant, Masses(codes, ctx.lib), ps)
  {
    var t := AttemptEntries(s, a);
    AppendedEntriesFound(s, a);
    RemnantHadronsOk(t, ctx, ps, |s| + 1, a.mom);
    var codes := RemnantCodes(t, ctx);
    var pions := PionEntries(codes, a.mom, a.remnant, Masses(codes, ctx.lib), ps);
    assert t[|s| + 1].p4 == a.remnant;
    assert RemnantPions(t, ctx, ps, |s| + 1, a.mom) == pions;
    UpdateAfterAppend(s, Particle(a.pdgc, IStStableFinalState, a.mom, a.charm), t[|s| + 1], pions);
  }

  /** The layout `GenerateHadronicSystem` leaves on success, when the record had
      no stable pdg-0 entry of its own: the charm hadron, the re-flagged
      remnant, then the pions, all children of the hadronic system. When the
      charm hadron sits at position 5, the pions carry exactly the charge it
      leaves over, provided that is at least -2. */
  lemma HadronicSystemLayout(s: seq<Particle>, ctx: CharmContext, attempts: nat -> CharmDraws, ps: PhaseSpace)
    requires HadronicSystemEntries(s, ctx, attempts, ps).Ok?
    requires FindEntry(s, 0, IStStableFinalState, 0) == -1
    ensures FinalAttempt(s, ctx, attempts).Added? && |s| >= 4
    ensures var a := FinalAttempt(s, ctx, attempts);
      var codes := RemnantCodes(AttemptEntries(s, a), ctx);
      && a.mom == FindEntry(s, HadronicSyst, IStDISPreFragmHadronicState, 0)
      && HadronicSystemEntries(s, ctx, attempts, ps).value ==
           s + [Particle(a.pdgc, IStStableFinalState, a.mom, a.charm),
                Particle(0, IStDISPreFragmHadronicState, a.mom, a.remnant)]
             + PionEntries(codes, a.mom, a.remnant, Masses(codes, ctx.lib), ps)
      && (|s| == 5 ==> (TotalCharge(codes) + HadronCharge(ctx.lib, a.pdgc) == ctx.qhs <==>
                         ctx.qhs - HadronCharge(ctx.lib, a.pdgc) >= -2))
  {
    var outcomes := AttemptOutcomes(s, ctx, attempts);
    var k := FirstNotTooLight(outcomes, 0);
    var a := FinalAttempt(s, ctx, attempts);
    assert a == CharmAttempt(s, false, ctx, attempts(k));
    assert a.Added?;
    AddedCharmHadron(s, false, ctx, attempts(k));
    var t := AttemptEntries(s, a);
    assert HadronicSystemEntries(s, ctx, attempts, ps) == RemnantHadrons(t, ctx, ps);
    RemnantLayout(s, a, ctx, ps);
    if |s| == 5 {
      assert t[5].pdg == a.pdgc;
    }
    PionChargeBalance(ctx.qhs - HadronCharge(ctx.lib, t[5].pdg));
  }

  // ---------------------------------------------------------------------
  // `ProcessEventRecord`

  method ProcessEventRecord(rec: EventRecord, cfg: Config, remnant: Option<Particle>, hadSystMother: int,
                            ctx: CharmContext, attempts: nat -> CharmDraws, ps: PhaseSpace)
    returns (r: StageOutcome)
    modifies rec
    ensures var head := old(rec.entries) + RemnantEntries(remnant) + [HadronicSystEntry(hadSystMother, ctx.p4Had)];
      && (r.Completed? || r.Fatal?)
      && rec.flags == old(rec.flags)
      && (cfg.charmOnly ==>
            var a := CharmAttempt(head, true, ctx, attempts(0));
            && (r.Fatal? <==> a.NoHadron?)
            && rec.entries == AttemptEntries(head, a)
            && rec.interaction == AttemptInteraction(old(rec.interaction), a))
      && (!cfg.charmOnly ==>
            var res := HadronicSystemEntries(head, ctx, attempts, ps);
            var a := FinalAttempt(head, ctx, attempts);
            && (r.Completed? <==> res.Ok?)
            && (res.Ok? ==> rec.entries == res.value && rec.interaction == old(rec.interaction).SetExclTag(CharmTag(a.pdgc)))
            && (!a.Added? ==> rec.entries == head))
  {
    AddTargetNucleusRemnant(rec, remnant);
    ghost var mid := rec.entries;
    AddFinalHadronicSyst(rec, hadSystMother, ctx.p4Had);
    HadronicSystFound(mid, hadSystMother, ctx.p4Had);
    if cfg.charmOnly {
      var res := GenerateCharmHadronOnly(rec, true, ctx, attempts(0));
      r := if res.Abort? then Fatal(res.reason) else Completed;
    } else {
      r := GenerateHadronicSystem(rec, ctx, attempts, ps);
    }
  }
}
