/** Kovalenko's duality model of quasi-elastic charm production,
    nu + n -> l + Lambda_c+, nu + n -> l + Sigma_c+ and nu + p -> l + Sigma_c++:
    the channel checks, the per-channel constants, the kinematic window, and
    the grid of parton densities that the resonance factor D^R integrates. */
module KovalenkoQELCharmPXSec {
  import opened Outcomes
  import opened Registry
  import opened PdgCodes
  import opened Interactions

  /** The configuration: F1^2 + FA^2 at Q^2 = 0 per channel, the resonance
      widths Delta M, the nucleon-dynamics scale Mo, the Q^2 window and the
      number of grid points. */
  datatype Config = Config(f2LambdaP: real, f2SigmaP: real, f2SigmaPP: real,
                           resDMLambda: real, resDMSigma: real, mo: real,
                           q2min: real, q2max: real, nbins: int)

  // ---------------------------------------------------------------------
  // `LoadConfigData`

  /** `LoadConfigData` as written: the "Q2max" entry is stored into the lower
      bound, overwriting "Q2min", and the upper bound keeps the value
      `priorQ2max` the member held before. Each failed assertion aborts. */
  function LoadConfigDataAsWritten(reg: Registry, priorQ2max: real): (r: Result<Config>)
    ensures r.Ok? <==> GetDoubleDef(reg, "Q2max", 999999.0) < priorQ2max && GetIntDef(reg, "nbins", 201) > 1
    ensures r.Ok? ==> r.value.q2min == GetDoubleDef(reg, "Q2max", 999999.0) && r.value.q2max == priorQ2max
  {
    var f2LambdaP := GetDoubleDef(reg, "F1^2+FA^2-LambdaP", 2.07);
    var f2SigmaP := GetDoubleDef(reg, "F1^2+FA^2-SigmaP", 0.71);
    var f2SigmaPP := GetDoubleDef(reg, "F1^2+FA^2-SigmaPP", 1.42);
    var resDMLambda := GetDoubleDef(reg, "Res-DeltaM-Lambda", 0.56);
    var resDMSigma := GetDoubleDef(reg, "Res-DeltaM-Sigma", 0.20);
    var mo := GetDoubleDef(reg, "Mo", 0.1);
    var q2min := GetDoubleDef(reg, "Q2min", -999999.0);
    var q2min' := GetDoubleDef(reg, "Q2max", 999999.0);
    if !(q2min' < priorQ2max) then Abort("assert(fQ2min < fQ2max)")
    else
      var nbins := GetIntDef(reg, "nbins", 201);
      if !(nbins > 1) then Abort("assert(fNBins>1)")
      else Ok(Config(f2LambdaP, f2SigmaP, f2SigmaPP, resDMLambda, resDMSigma, mo, q2min', priorQ2max, nbins))
  }

  /** `LoadConfigData` as evidently intended: each bound read from its own
      key. The configuration loads exactly when the window is non-empty and
      there are at least two grid points. */
  function LoadConfigData(reg: Registry): (r: Result<Config>)
    ensures r.Ok? <==> GetDoubleDef(reg, "Q2min", -999999.0) < GetDoubleDef(reg, "Q2max", 999999.0)
                       && GetIntDef(reg, "nbins", 201) > 1
    ensures r.Ok? ==>
      && r.value.q2min == GetDoubleDef(reg, "Q2min", -999999.0)
      && r.value.q2max == GetDoubleDef(reg, "Q2max", 999999.0)
      && r.value.nbins == GetIntDef(reg, "nbins", 201)
  {
    var f2LambdaP := GetDoubleDef(reg, "F1^2+FA^2-LambdaP", 2.07);
    var f2SigmaP := GetDoubleDef(reg, "F1^2+FA^2-SigmaP", 0.71);
    var f2SigmaPP := GetDoubleDef(reg, "F1^2+FA^2-SigmaPP", 1.42);
    var resDMLambda := GetDoubleDef(reg, "Res-DeltaM-Lambda", 0.56);
    var resDMSigma := GetDoubleDef(reg, "Res-DeltaM-Sigma", 0.20);
    var mo := GetDoubleDef(reg, "Mo", 0.1);
    var q2min := GetDoubleDef(reg, "Q2min", -999999.0);
    var q2max := GetDoubleDef(reg, "Q2max", 999999.0);
    if !(q2min < q2max) then Abort("assert(fQ2min < fQ2max)")
    else
      var nbins := GetIntDef(reg, "nbins", 201);
      if !(nbins > 1) then Abort("assert(fNBins>1)")
      else Ok(Config(f2LambdaP, f2SigmaP, f2SigmaPP, resDMLambda, resDMSigma, mo, q2min, q2max, nbins))
  }

  /** With nothing configured, the defaults of the model. */
  lemma DefaultConfig()
    ensures LoadConfigData(EmptyRegistry) == Ok(Config(2.07, 0.71, 1.42, 0.56, 0.20, 0.1, -999999.0, 999999.0, 201))
  {
  }

  // ---------------------------------------------------------------------
  // The interaction as the model reads it

  function CharmPdg(i: Interaction): int { i.exclTag.charmPdg }
  function HitNucleon(i: Interaction): int { i.initState.tgt.hitNucPdg }
  function Q2(i: Interaction): real { i.kine.Value(KQ2) }

  /** The three channels the model covers, by charmed hadron and struck nucleon. */
  predicate Handled(pdgc: int, nuc: int)
  {
    || (pdgc == LambdaCPlus && IsNeutron(nuc))
    || (pdgc == SigmaCPlus && IsNeutron(nuc))
    || (pdgc == SigmaCPlusPlus && IsProton(nuc))
  }

  /** `ValidProcess`: any process when the process check is skipped;
      otherwise an exclusive-charm, quasi-elastic, weak process in one of the
      three channels. */
  predicate ValidProcess(i: Interaction)
    ensures i.TestBit(SkipProcessChk) ==> ValidProcess(i)
    ensures !i.TestBit(SkipProcessChk) && ValidProcess(i) ==>
      && i.exclTag.isCharmEvent && i.exclTag.charmPdg != 0
      && i.procInfo.IsQuasiElastic() && i.procInfo.IsWeak()
      && (CharmPdg(i) == LambdaCPlus || CharmPdg(i) == SigmaCPlus || CharmPdg(i) == SigmaCPlusPlus)
      && (IsProton(HitNucleon(i)) <==> CharmPdg(i) == SigmaCPlusPlus)
      && (IsNeutron(HitNucleon(i)) <==> CharmPdg(i) != SigmaCPlusPlus)
    ensures i.exclTag.isCharmEvent && i.procInfo.IsQuasiElastic() && i.procInfo.IsWeak()
      && ((CharmPdg(i) == SigmaCPlusPlus && IsProton(HitNucleon(i)))
          || ((CharmPdg(i) == LambdaCPlus || CharmPdg(i) == SigmaCPlus) && IsNeutron(HitNucleon(i))))
      ==> ValidProcess(i)
  {
    if i.TestBit(SkipProcessChk) then true
    else
      var isExclusiveCharm := i.exclTag.isCharmEvent && !i.exclTag.IsInclusiveCharm();
      if !isExclusiveCharm then false
      else if !i.procInfo.IsQuasiElastic() then false
      else if !i.procInfo.IsWeak() then false
      else Handled(CharmPdg(i), HitNucleon(i))
  }

  /** `ResDM`: Delta M of the resonance, one value for Lambda_c+ and one for
      both Sigma_c; any other hadron aborts. */
  function ResDM(cfg: Config, i: Interaction): (r: Result<real>)
    ensures r.Ok? <==> CharmPdg(i) in {LambdaCPlus, SigmaCPlus, SigmaCPlusPlus}
    ensures r.Ok? ==> r.value == (if CharmPdg(i) == LambdaCPlus then cfg.resDMLambda else cfg.resDMSigma)
  {
    var pdgc := CharmPdg(i);
    var isLambda := pdgc == LambdaCPlus;
    var isSigma := pdgc == SigmaCPlus || pdgc == SigmaCPlusPlus;
    if isLambda then Ok(cfg.resDMLambda)
    else if isSigma then Ok(cfg.resDMSigma)
    else Abort("abort()")
  }

  /** `SumF2`: F1^2 + FA^2 at Q^2 = 0; defined on exactly the three channels. */
  function SumF2(cfg: Config, i: Interaction): (r: Result<real>)
    ensures r.Ok? <==> Handled(CharmPdg(i), HitNucleon(i))
    ensures r.Ok? && CharmPdg(i) == LambdaCPlus ==> r.value == cfg.f2LambdaP
    ensures r.Ok? && CharmPdg(i) == SigmaCPlus ==> r.value == cfg.f2SigmaP
    ensures r.Ok? && CharmPdg(i) == SigmaCPlusPlus ==> r.value == cfg.f2SigmaPP
  {
    var pdgc := CharmPdg(i);
    var isP := IsProton(HitNucleon(i));
    var isN := IsNeutron(HitNucleon(i));
    if pdgc == LambdaCPlus && isN then Ok(cfg.f2LambdaP)
    else if pdgc == SigmaCPlus && isN then Ok(cfg.f2SigmaP)
    else if pdgc == SigmaCPlusPlus && isP then Ok(cfg.f2SigmaPP)
    else Abort("abort()")
  }

  /** Without the skip bit, a valid process is one of the three channels, and
      neither channel table aborts on it. */
  lemma ValidProcessNeverAborts(cfg: Config, i: Interaction)
    requires !i.TestBit(SkipProcessChk) && ValidProcess(i)
    ensures (CharmPdg(i), HitNucleon(i)) in {(LambdaCPlus, Neutron), (SigmaCPlus, Neutron), (SigmaCPlusPlus, Proton)}
    ensures ResDM(cfg, i).Ok? && SumF2(cfg, i).Ok?
  {
  }

  /** Conversely, an exclusive-charm quasi-elastic weak process is valid once
      `SumF2` is defined on it. */
  lemma SumF2DefinedMeansValid(cfg: Config, i: Interaction)
    requires i.exclTag.isCharmEvent && !i.exclTag.IsInclusiveCharm()
    requires i.procInfo.IsQuasiElastic() && i.procInfo.IsWeak()
    requires SumF2(cfg, i).Ok?
    ensures ValidProcess(i)
  {
  }

  /** The resonance mass, from the PDG library. */
  function MRes(lib: PdgLibrary, i: Interaction): (mr: real)
    ensures mr == lib.mass(i.exclTag.charmPdg)
  {
    lib.mass(CharmPdg(i))
  }

  // ---------------------------------------------------------------------
  // `vR_minus`, `vR_plus`

  /** The energy transfer at which a state of mass `m` is produced at
      momentum transfer `q2` on a nucleon of mass `mn` at rest. */
  function ResonanceNu(m: real, q2: real, mn: real): real
    requires mn != 0.0
  {
    (m * m - mn * mn + q2) / (2.0 * mn)
  }

  /** `vR_minus`: at the lower edge M_R - Delta M of the resonance. */
  function VRMinus(cfg: Config, lib: PdgLibrary, i: Interaction, mn: real): (r: Result<real>)
    requires mn != 0.0
    ensures r.Ok? <==> ResDM(cfg, i).Ok?
  {
    match ResDM(cfg, i)
    case Abort(reason) => Abort(reason)
    case Ok(dR) => Ok(ResonanceNu(MRes(lib, i) - dR, Q2(i), mn))
  }

  /** `vR_plus`: at the upper edge M_R + Delta M of the resonance. */
  function VRPlus(cfg: Config, lib: PdgLibrary, i: Interaction, mn: real): (r: Result<real>)
    requires mn != 0.0
    ensures r.Ok? <==> ResDM(cfg, i).Ok?
  {
    match ResDM(cfg, i)
    case Abort(reason) => Abort(reason)
    case Ok(dR) => Ok(ResonanceNu(MRes(lib, i) + dR, Q2(i), mn))
  }

  /** The two edges differ by 2 M_R Delta M / M_N, so the lower edge is
      below the upper one exactly when M_R Delta M >= 0 (for a positive
      nucleon mass). */
  lemma VRMinusBelowPlus(cfg: Config, lib: PdgLibrary, i: Interaction, mn: real)
    requires mn > 0.0 && ResDM(cfg, i).Ok?
    ensures VRPlus(cfg, lib, i, mn).value - VRMinus(cfg, lib, i, mn).value == 2.0 * MRes(lib, i) * ResDM(cfg, i).value / mn
    ensures VRMinus(cfg, lib, i, mn).value <= VRPlus(cfg, lib, i, mn).value <==> MRes(lib, i) * ResDM(cfg, i).value >= 0.0
  {
    var mr := MRes(lib, i);
    var dR := ResDM(cfg, i).value;
    var q2 := Q2(i);
    var lo := ResonanceNu(mr - dR, q2, mn);
    var hi := ResonanceNu(mr + dR, q2, mn);
    assert (mr + dR) * (mr + dR) - (mr - dR) * (mr - dR) == 4.0 * (mr * dR);
    assert hi - lo == 2.0 * (mr * dR) / mn;
    QuotientSign(2.0 * (mr * dR), mn);
  }

  /** A quotient by a positive number has the sign of the numerator. */
  lemma QuotientSign(a: real, b: real)
    requires b > 0.0
    ensures a / b >= 0.0 <==> a >= 0.0
  {
    var q := a / b;
    assert a == q * b;
    if q < 0.0 {
      assert q * b < 0.0 by { assert (-q) * b > 0.0; }
    } else {
      assert q * b >= 0.0;
    }
  }

  // ---------------------------------------------------------------------
  // `ValidKinematics`

  /** The energy threshold ((M_R + m_l)^2 - M_N^2) / 2 M_N of the channel. */
  function Threshold(mr: real, ml: real, mn: real): real
    requires mn != 0.0
  {
    ((mr + ml) * (mr + ml) - mn * mn) / (2.0 * mn)
  }

  /** `ValidKinematics`: any kinematics when the kinematic check is skipped;
      otherwise Q^2 strictly inside the configured window and the probe
      energy strictly above the threshold. `ml` is the final-state lepton
      mass and `mn` the nucleon mass. */
  predicate ValidKinematics(cfg: Config, lib: PdgLibrary, i: Interaction, ml: real, mn: real)
    requires mn != 0.0
    ensures i.TestBit(SkipKinematicChk) ==> ValidKinematics(cfg, lib, i, ml, mn)
    ensures !i.TestBit(SkipKinematicChk) ==>
      (ValidKinematics(cfg, lib, i, ml, mn) <==>
         cfg.q2min < Q2(i) < cfg.q2max && i.initState.probeE > Threshold(MRes(lib, i), ml, mn))
  {
    if i.TestBit(SkipKinematicChk) then true
    else
      var e := i.initState.probeE;
      var q2 := Q2(i);
      var er := Threshold(MRes(lib, i), ml, mn);
      if q2 >= cfg.q2max || q2 <= cfg.q2min then false
      else if e <= er then false
      else true
  }

  /** The threshold says that the invariant mass squared M_N^2 + 2 M_N E of
      the probe on a nucleon at rest exceeds (M_R + m_l)^2. */
  lemma ThresholdMeaning(mr: real, ml: real, mn: real, e: real)
    requires mn > 0.0
    ensures e > Threshold(mr, ml, mn) <==> mn * mn + 2.0 * mn * e > (mr + ml) * (mr + ml)
  {
    var num := (mr + ml) * (mr + ml) - mn * mn;
    var d := 2.0 * mn;
    var er := num / d;
    assert num == er * d;
    if e > er {
      assert (e - er) * d > 0.0;
      assert e * d > num;
    } else {
      assert (er - e) * d >= 0.0;
      assert e * d <= num;
    }
  }

  /** Without the skip bit, the kinematics are valid exactly when Q^2 lies
      strictly inside the window and the probe is above the channel's
      production threshold. */
  lemma ValidKinematicsExactly(cfg: Config, lib: PdgLibrary, i: Interaction, ml: real, mn: real)
    requires mn > 0.0 && !i.TestBit(SkipKinematicChk)
    ensures var mr := MRes(lib, i);
      var e := i.initState.probeE;
      ValidKinematics(cfg, lib, i, ml, mn) <==>
        cfg.q2min < Q2(i) < cfg.q2max && mn * mn + 2.0 * mn * e > (mr + ml) * (mr + ml)
  {
    ThresholdMeaning(MRes(lib, i), ml, mn, i.initState.probeE);
  }

  /** As written, a registry that leaves "Q2max" at its default sets the lower
      bound to 999999, so every Q^2 up to that is outside the window and no
      interaction passes the kinematic check without the skip bit, whatever
      "Q2min" says. */
  lemma AsWrittenWindowRejects(reg: Registry, priorQ2max: real, lib: PdgLibrary, i: Interaction, ml: real, mn: real)
    requires "Q2max" !in reg.doubles
    requires LoadConfigDataAsWritten(reg, priorQ2max).Ok?
    requires mn != 0.0 && !i.TestBit(SkipKinematicChk) && Q2(i) <= 999999.0
    ensures !ValidKinematics(LoadConfigDataAsWritten(reg, priorQ2max).value, lib, i, ml, mn)
  {
  }

  /** The counterexample: with an empty registry and any prior upper bound
      that lets the assertion pass, a Q^2 of 1 GeV^2 is rejected, while the
      intended configuration accepts it. */
  lemma AsWrittenRejectsOneGeV2(priorQ2max: real, lib: PdgLibrary, i: Interaction, ml: real, mn: real)
    requires LoadConfigDataAsWritten(EmptyRegistry, priorQ2max).Ok?
    requires mn > 0.0 && !i.TestBit(SkipKinematicChk) && Q2(i) == 1.0
    requires mn * mn + 2.0 * mn * i.initState.probeE > (MRes(lib, i) + ml) * (MRes(lib, i) + ml)
    ensures !ValidKinematics(LoadConfigDataAsWritten(EmptyRegistry, priorQ2max).value, lib, i, ml, mn)
    ensures LoadConfigData(EmptyRegistry).Ok? && ValidKinematics(LoadConfigData(EmptyRegistry).value, lib, i, ml, mn)
  {
    AsWrittenWindowRejects(EmptyRegistry, priorQ2max, lib, i, ml, mn);
    DefaultConfig();
    ValidKinematicsExactly(LoadConfigData(EmptyRegistry).value, lib, i, ml, mn);
  }

  // ---------------------------------------------------------------------
  // The grid of `DR`

  /** The parton densities x q(x, Q^2) the PDF model returns. */
  datatype Pdfs = Pdfs(upValence: real, upSea: real, downValence: real, downSea: real)

  /** The densities with up and down exchanged (an isospin rotation). */
  function SwapIsospin(pdf: (real, real) -> Pdfs): (real, real) -> Pdfs
  {
    (x: real, q2: real) => var p := pdf(x, q2); Pdfs(p.downValence, p.downSea, p.upValence, p.upSea)
  }

  /** The step of the uniform grid from `lo` to `hi` with `n` points. */
  function GridStep(lo: real, hi: real, n: int): real
    requires n > 1
  {
    (hi - lo) / (n - 1) as real
  }

  /** Point `i` of the uniform grid from `lo` to `hi` with `n` points. */
  function GridPoint(lo: real, hi: real, n: int, i: int): real
    requires n > 1
  {
    lo + i as real * GridStep(lo, hi, n)
  }

  /** The grid runs from its first bound to its second, evenly spaced. */
  lemma GridEnds(lo: real, hi: real, n: int)
    requires n > 1
    ensures GridPoint(lo, hi, n, 0) == lo && GridPoint(lo, hi, n, n - 1) == hi
    ensures forall i :: 0 <= i < n - 1 ==> GridPoint(lo, hi, n, i + 1) - GridPoint(lo, hi, n, i) == GridStep(lo, hi, n)
  {
    var d := (n - 1) as real;
    assert (n - 1) as real * ((hi - lo) / d) == hi - lo;
  }

  /** The point `t` at which `DR` evaluates the densities for grid index `i`,
      as written: the step is (xi+ - xi-) / (n - 1), the negative of the step
      of the grid (from xi+ to xi-) that the points are attached to. */
  function EvaluationPointAsWritten(xiPlus: real, xiMinus: real, n: int, i: int): (t: real)
    requires n > 1
    ensures t == 2.0 * xiPlus - GridPoint(xiPlus, xiMinus, n, i)
  {
    assert (xiPlus - xiMinus) / (n - 1) as real == -GridStep(xiPlus, xiMinus, n);
    xiPlus + i as real * ((xiPlus - xiMinus) / (n - 1) as real)
  }

  /** As written, the density at grid index `i` is taken at the mirror image
      of the grid point about xi+: it matches the grid point only at the first
      index, or when the interval is empty. With xi+ = 0.2, xi- = 0.4 and
      three points the densities are taken at 0.2, 0.1, 0.0 instead of 0.2,
      0.3, 0.4. */
  lemma EvaluationPointMirrored(xiPlus: real, xiMinus: real, n: int, i: int)
    requires n > 1
    ensures EvaluationPointAsWritten(xiPlus, xiMinus, n, i) - xiPlus == -(GridPoint(xiPlus, xiMinus, n, i) - xiPlus)
    ensures EvaluationPointAsWritten(xiPlus, xiMinus, n, i) == GridPoint(xiPlus, xiMinus, n, i) <==> i == 0 || xiPlus == xiMinus
  {
    var d := (n - 1) as real;
    var s := (xiMinus - xiPlus) / d;
    assert (xiPlus - xiMinus) / d == -s;
    if i != 0 && xiPlus != xiMinus {
      assert s != 0.0 by { assert s * d == xiMinus - xiPlus; }
      assert i as real * s != 0.0;
    }
  }

  lemma ThreePointExample()
    ensures EvaluationPointAsWritten(0.2, 0.4, 3, 1) == 0.1 && EvaluationPointAsWritten(0.2, 0.4, 3, 2) == 0.0
    ensures GridPoint(0.2, 0.4, 3, 1) == 0.3 && GridPoint(0.2, 0.4, 3, 2) == 0.4
  {
  }

  /** The value the map holds at a point `t`: 0 outside [0, 1]; otherwise the
      down-quark densities for a proton target and the up-quark densities for
      a neutron target, at Q^2 = 0 for the normalisation `norm`. */
  function PointValue(t: real, q2: real, norm: bool, isP: bool, pdf: (real, real) -> Pdfs): real
  {
    if t < 0.0 || t > 1.0 then 0.0
    else
      var p := pdf(t, if norm then 0.0 else q2);
      if isP then p.downValence + p.downSea else p.upValence + p.upSea
  }

  /** The sampling point of index `i` of a map that starts at `start`. */
  function SamplePoint(start: real, step: real, i: int): real
  {
    start + i as real * step
  }

  /** The values of the densities sampled at `start + i * step` for the `n`
      indices i of a function map. */
  function SampledMap(start: real, step: real, n: nat, q2: real, norm: bool, isP: bool, pdf: (real, real) -> Pdfs): (m: seq<real>)
    ensures |m| == n
    ensures forall i :: 0 <= i < n ==> m[i] == PointValue(SamplePoint(start, step, i), q2, norm, isP, pdf)
  {
    seq(n, (i: int) requires 0 <= i < n => PointValue(SamplePoint(start, step, i), q2, norm, isP, pdf))
  }

  /** The function map `DR` integrates, with the intended step: point i of
      the grid from xi+ to xi- holds the densities at that grid point. */
  function DRMap(xiPlus: real, xiMinus: real, n: int, q2: real, norm: bool, isP: bool, pdf: (real, real) -> Pdfs): (m: seq<real>)
    requires n > 1
    ensures |m| == n
    ensures forall i :: 0 <= i < n ==> m[i] == PointValue(GridPoint(xiPlus, xiMinus, n, i), q2, norm, isP, pdf)
  {
    SampledMap(xiPlus, GridStep(xiPlus, xiMinus, n), n, q2, norm, isP, pdf)
  }

  /** The function map `DR` fills as written: point i of the grid holds the
      densities at xi+ + i (xi+ - xi-) / (n - 1). */
  function DRMapAsWritten(xiPlus: real, xiMinus: real, n: int, q2: real, norm: bool, isP: bool, pdf: (real, real) -> Pdfs): (m: seq<real>)
    requires n > 1
    ensures |m| == n
    ensures forall i :: 0 <= i < n ==> m[i] == PointValue(EvaluationPointAsWritten(xiPlus, xiMinus, n, i), q2, norm, isP, pdf)
  {
    var step := (xiPlus - xiMinus) / (n - 1) as real;
    assert forall i :: 0 <= i < n ==> SamplePoint(xiPlus, step, i) == EvaluationPointAsWritten(xiPlus, xiMinus, n, i);
    SampledMap(xiPlus, step, n, q2, norm, isP, pdf)
  }

  /** The as-written map holds at index i what the intended map would hold at
      the mirror image of grid point i about xi+; the two maps are equal when
      the interval is empty. */
  lemma DRMapAsWrittenMirrored(xiPlus: real, xiMinus: real, n: int, q2: real, norm: bool, isP: bool, pdf: (real, real) -> Pdfs)
    requires n > 1
    ensures forall i :: 0 <= i < n ==>
      DRMapAsWritten(xiPlus, xiMinus, n, q2, norm, isP, pdf)[i]
        == PointValue(2.0 * xiPlus - GridPoint(xiPlus, xiMinus, n, i), q2, norm, isP, pdf)
    ensures xiPlus == xiMinus ==> DRMapAsWritten(xiPlus, xiMinus, n, q2, norm, isP, pdf) == DRMap(xiPlus, xiMinus, n, q2, norm, isP, pdf)
  {
    forall i | 0 <= i < n
      ensures EvaluationPointAsWritten(xiPlus, xiMinus, n, i) == 2.0 * xiPlus - GridPoint(xiPlus, xiMinus, n, i)
    {
      EvaluationPointMirrored(xiPlus, xiMinus, n, i);
    }
    if xiPlus == xiMinus {
      var a := DRMapAsWritten(xiPlus, xiMinus, n, q2, norm, isP, pdf);
      var b := DRMap(xiPlus, xiMinus, n, q2, norm, isP, pdf);
      forall i | 0 <= i < n ensures a[i] == b[i] {
        EvaluationPointMirrored(xiPlus, xiMinus, n, i);
      }
    }
  }

  /** Densities equal to the sampling point, in the up-valence channel only. */
  function IdentityPdf(): (real, real) -> Pdfs
  {
    (x: real, q2: real) => Pdfs(x, 0.0, 0.0, 0.0)
  }

  /** With xi+ = 0.2, xi- = 0.4, three points and a neutron target whose
      up-valence density is x, the as-written map is [0.2, 0.1, 0.0] where the
      intended one is [0.2, 0.3, 0.4]. */
  lemma ThreePointMapExample(q2: real, norm: bool)
    ensures DRMapAsWritten(0.2, 0.4, 3, q2, norm, false, IdentityPdf()) == [0.2, 0.1, 0.0]
    ensures DRMap(0.2, 0.4, 3, q2, norm, false, IdentityPdf()) == [0.2, 0.3, 0.4]
  {
    ThreePointExample();
    var a := DRMapAsWritten(0.2, 0.4, 3, q2, norm, false, IdentityPdf());
    var b := DRMap(0.2, 0.4, 3, q2, norm, false, IdentityPdf());
    assert a[0] == 0.2 && a[1] == 0.1 && a[2] == 0.0;
    assert GridPoint(0.2, 0.4, 3, 0) == 0.2;
    assert b[0] == 0.2 && b[1] == 0.3 && b[2] == 0.4;
  }

  /** A proton target sees what a neutron target sees with up and down
      exchanged, point by point. */
  lemma ProtonIsRotatedNeutron(xiPlus: real, xiMinus: real, n: int, q2: real, norm: bool, pdf: (real, real) -> Pdfs)
    requires n > 1
    ensures DRMap(xiPlus, xiMinus, n, q2, norm, true, pdf) == DRMap(xiPlus, xiMinus, n, q2, norm, false, SwapIsospin(pdf))
  {
    var a := DRMap(xiPlus, xiMinus, n, q2, norm, true, pdf);
    var b := DRMap(xiPlus, xiMinus, n, q2, norm, false, SwapIsospin(pdf));
    forall i | 0 <= i < n ensures a[i] == b[i] {
      var t := GridPoint(xiPlus, xiMinus, n, i);
      if !(t < 0.0 || t > 1.0) {
        var q := if norm then 0.0 else q2;
        assert SwapIsospin(pdf)(t, q).upValence == pdf(t, q).downValence;
      }
    }
  }

  /** Grid points outside [0, 1] hold 0 whatever the densities, and the
      normalised map does not depend on Q^2. */
  lemma DRMapSupport(xiPlus: real, xiMinus: real, n: int, q2: real, q2': real, isP: bool, pdf: (real, real) -> Pdfs, pdf': (real, real) -> Pdfs, i: int)
    requires n > 1 && 0 <= i < n
    ensures var t := GridPoint(xiPlus, xiMinus, n, i);
      (t < 0.0 || t > 1.0) ==> DRMap(xiPlus, xiMinus, n, q2, false, isP, pdf)[i] == 0.0 == DRMap(xiPlus, xiMinus, n, q2', false, isP, pdf')[i]
    ensures DRMap(xiPlus, xiMinus, n, q2, true, isP, pdf) == DRMap(xiPlus, xiMinus, n, q2', true, isP, pdf)
  {
    var a := DRMap(xiPlus, xiMinus, n, q2, true, isP, pdf);
    var b := DRMap(xiPlus, xiMinus, n, q2', true, isP, pdf);
    forall j | 0 <= j < n ensures a[j] == b[j] {
    }
  }

  /** The grid-filling loop of `DR`: index i of the map gets the densities at
      `start + i * step`, or 0 outside [0, 1]. */
  method SampleDensities(start: real, step: real, n: nat, q2: real, norm: bool, isP: bool, pdf: (real, real) -> Pdfs)
    returns (fmap: array<real>)
    ensures fresh(fmap)
    ensures fmap[..] == SampledMap(start, step, n, q2, norm, isP, pdf)
  {
    fmap := new real[n];
    for i := 0 to n
      invariant forall j :: 0 <= j < i ==> fmap[j] == PointValue(SamplePoint(start, step, j), q2, norm, isP, pdf)
    {
      var t := start + i as real * step;
      assert t == SamplePoint(start, step, i);
      if t < 0.0 || t > 1.0 {
        fmap[i] := 0.0;
      } else {
        var p := if norm then pdf(t, 0.0) else pdf(t, q2);
        var f := if isP then p.downValence + p.downSea else p.upValence + p.upSea;
        fmap[i] := f;
      }
    }
  }

  /** The map of `DR` with the intended step (xi- - xi+) / (n - 1): point i
      of the grid from xi+ to xi- gets the densities at that grid point. */
  method FillFunctionMap(xiPlus: real, xiMinus: real, n: int, q2: real, norm: bool, isP: bool, pdf: (real, real) -> Pdfs)
    returns (fmap: array<real>)
    requires n > 1
    ensures fresh(fmap)
    ensures fmap[..] == DRMap(xiPlus, xiMinus, n, q2, norm, isP, pdf)
  {
    var deltaXiBar := (xiMinus - xiPlus) / (n - 1) as real;
    fmap := SampleDensities(xiPlus, deltaXiBar, n, q2, norm, isP, pdf);
  }

  /** The map of `DR` as written, with the step (xi+ - xi-) / (n - 1). */
  method FillFunctionMapAsWritten(xiPlus: real, xiMinus: real, n: int, q2: real, norm: bool, isP: bool, pdf: (real, real) -> Pdfs)
    returns (fmap: array<real>)
    requires n > 1
    ensures fresh(fmap)
    ensures fmap[..] == DRMapAsWritten(xiPlus, xiMinus, n, q2, norm, isP, pdf)
  {
    var deltaXiBar := (xiPlus - xiMinus) / (n - 1) as real;
    fmap := SampleDensities(xiPlus, deltaXiBar, n, q2, norm, isP, pdf);
  }

  /** `fIntegrator->Integrate(fmap)`: the integral of a function map over the
      uniform grid of `n` points from its first bound to its second. */
  type Integrator = (real, real, int, seq<real>) -> real

  /** `DR`: the integral of the map over the grid from the xi-bar value of the
      upper resonance edge to that of the lower one, with the intended step.
      `xiBar` is `xiBar(interaction, v)` for this interaction. */
  method DR(cfg: Config, lib: PdgLibrary, i: Interaction, mn: real, norm: bool,
            xiBar: real -> real, pdf: (real, real) -> Pdfs, integrate: Integrator)
    returns (r: Result<real>)
    requires mn != 0.0 && cfg.nbins > 1
    ensures r.Ok? <==> ResDM(cfg, i).Ok?
    ensures r.Ok? ==>
      var xiPlus := xiBar(VRPlus(cfg, lib, i, mn).value);
      var xiMinus := xiBar(VRMinus(cfg, lib, i, mn).value);
      r.value == integrate(xiPlus, xiMinus, cfg.nbins, DRMap(xiPlus, xiMinus, cfg.nbins, Q2(i), norm, IsProton(HitNucleon(i)), pdf))
  {
    var q2 := Q2(i);
    var mr := MRes(lib, i);
    var deltaR := ResDM(cfg, i);
    if deltaR.Abort? {
      return Abort(deltaR.reason);
    }
    var vRMinus := ResonanceNu(mr - deltaR.value, q2, mn);
    var vRPlus := ResonanceNu(mr + deltaR.value, q2, mn);
    var xiBarMinus := xiBar(vRMinus);
    var xiBarPlus := xiBar(vRPlus);
    var isP := IsProton(HitNucleon(i));
    var fmap := FillFunctionMap(xiBarPlus, xiBarMinus, cfg.nbins, q2, norm, isP, pdf);
    r := Ok(integrate(xiBarPlus, xiBarMinus, cfg.nbins, fmap[..]));
  }

  /** `DR` as written: the same grid, filled by the as-written step. */
  method DRAsWritten(cfg: Config, lib: PdgLibrary, i: Interaction, mn: real, norm: bool,
                     xiBar: real -> real, pdf: (real, real) -> Pdfs, integrate: Integrator)
    returns (r: Result<real>)
    requires mn != 0.0 && cfg.nbins > 1
    ensures r.Ok? <==> ResDM(cfg, i).Ok?
    ensures r.Ok? ==>
      var xiPlus := xiBar(VRPlus(cfg, lib, i, mn).value);
      var xiMinus := xiBar(VRMinus(cfg, lib, i, mn).value);
      r.value == integrate(xiPlus, xiMinus, cfg.nbins, DRMapAsWritten(xiPlus, xiMinus, cfg.nbins, Q2(i), norm, IsProton(HitNucleon(i)), pdf))
  {
    var q2 := Q2(i);
    var mr := MRes(lib, i);
    var deltaR := ResDM(cfg, i);
    if deltaR.Abort? {
      return Abort(deltaR.reason);
    }
    var vRMinus := ResonanceNu(mr - deltaR.value, q2, mn);
    var vRPlus := ResonanceNu(mr + deltaR.value, q2, mn);
    var xiBarMinus := xiBar(vRMinus);
    var xiBarPlus := xiBar(vRPlus);
    var isP := IsProton(HitNucleon(i));
    var fmap := FillFunctionMapAsWritten(xiBarPlus, xiBarMinus, cfg.nbins, q2, norm, isP, pdf);
    r := Ok(integrate(xiBarPlus, xiBarMinus, cfg.nbins, fmap[..]));
  }

  // ---------------------------------------------------------------------
  // `XSec`

  /** `XSec`: 0 unless the process and the kinematics are valid; otherwise
      the value of the dynamical part (Z^R D^R times the kinematic factor). */
  function XSec(cfg: Config, lib: PdgLibrary, i: Interaction, ml: real, mn: real, dynamics: Interaction -> real): (r: real)
    requires mn != 0.0
    ensures !ValidProcess(i) ==> r == 0.0
    ensures !ValidKinematics(cfg, lib, i, ml, mn) ==> r == 0.0
  {
    if !ValidProcess(i) then 0.0
    else if !ValidKinematics(cfg, lib, i, ml, mn) then 0.0
    else dynamics(i)
  }

  /** The dynamical part is consulted only on a valid process with valid
      kinematics, and with both skip bits set it always is. */
  lemma XSecConsultsDynamicsOnlyWhenValid(cfg: Config, lib: PdgLibrary, i: Interaction, ml: real, mn: real,
                                          d1: Interaction -> real, d2: Interaction -> real)
    requires mn != 0.0
    ensures !(ValidProcess(i) && ValidKinematics(cfg, lib, i, ml, mn)) ==>
      XSec(cfg, lib, i, ml, mn, d1) == XSec(cfg, lib, i, ml, mn, d2)
    ensures i.TestBit(SkipProcessChk) && i.TestBit(SkipKinematicChk) ==> XSec(cfg, lib, i, ml, mn, d1) == d1(i)
  {
  }
}
