/** The toy meson-exchange-current (MEC) cross-section model: a Gaussian in W
    times a dipole-like fall-off in Q^2 for the differential cross section,
    and, for the integrated cross section, a fixed fraction of the
    charged-current quasi-elastic cross section scaled by the number of
    nucleon pairs per nucleon. */
module MECPXSec {
  import opened Outcomes
  import opened Registry
  import opened PdgCodes
  import opened Interactions

  /** The model's parameters: the Q^2 scale, the mass and width of the W
      peak, the unused energy cut, and the fraction of the CCQE cross
      section. */
  datatype Config = Config(mq2d: real, mass: real, width: real, ec: real, fracCCQE: real)

  /** `LoadConfig`: fixed constants, whatever the registry holds. */
  function LoadConfig(reg: Registry): (c: Config)
    ensures c.mq2d == 0.5 && c.mass == 2.1 && c.width == 0.3 && c.ec == 0.4 && c.fracCCQE == 0.1
  {
    Config(0.5, 2.1, 0.3, 0.4, 0.1)
  }

  /** No registry entry changes the configuration. */
  lemma LoadConfigIgnoresRegistry(r1: Registry, r2: Registry)
    ensures LoadConfig(r1) == LoadConfig(r2)
  {
  }

  /** The kinematic phase spaces a differential cross section can be asked
      for; `WQ2fE` is the one the model is written in. */
  datatype KinePhaseSpace = WQ2fE | XYfE | Q2fE | WfE | LogQ2fE | Q2yfE

  /** The foreign numerical routines: `TMath::Gaus(x, mean, sigma)`,
      `TMath::Power(x, y)` and the kinematic Jacobian from one phase space to
      another for an interaction. */
  datatype Numerics = Numerics(gaus: (real, real, real) -> real, power: (real, real) -> real,
                               jacobian: (Interaction, KinePhaseSpace, KinePhaseSpace) -> real)

  /** d^2 sigma / dW dQ^2 in the model's own variables. */
  function NaturalXSec(cfg: Config, i: Interaction, num: Numerics): real
    requires cfg.mq2d != 0.0
  {
    var w := i.kine.Value(KW);
    var q2 := i.kine.Value(KQ2);
    num.gaus(w, cfg.mass, cfg.width) * num.power(1.0 + q2 / cfg.mq2d, -1.5)
  }

  /** `XSec(interaction, kps)`: the value in W, Q^2, multiplied by the
      Jacobian only when another phase space is asked for. */
  function XSec(cfg: Config, i: Interaction, kps: KinePhaseSpace, num: Numerics): (r: real)
    requires cfg.mq2d != 0.0
    ensures kps == WQ2fE ==> r == NaturalXSec(cfg, i, num)
    ensures kps != WQ2fE ==> r == NaturalXSec(cfg, i, num) * num.jacobian(i, WQ2fE, kps)
  {
    var w := i.kine.Value(KW);
    var q2 := i.kine.Value(KQ2);
    var wdep := num.gaus(w, cfg.mass, cfg.width);
    var q2dep := num.power(1.0 + q2 / cfg.mq2d, -1.5);
    var xsec := wdep * q2dep;
    if kps != WQ2fE then xsec * num.jacobian(i, WQ2fE, kps) else xsec
  }

  /** The Jacobian is never consulted for the model's own phase space, and
      any other phase space is the W, Q^2 value times the Jacobian. */
  lemma JacobianOnlyWhenNeeded(cfg: Config, i: Interaction, kps: KinePhaseSpace, n1: Numerics, n2: Numerics)
    requires cfg.mq2d != 0.0
    requires n1.gaus == n2.gaus && n1.power == n2.power
    ensures XSec(cfg, i, WQ2fE, n1) == XSec(cfg, i, WQ2fE, n2)
    ensures kps != WQ2fE ==> XSec(cfg, i, kps, n1) == XSec(cfg, i, WQ2fE, n1) * n1.jacobian(i, WQ2fE, kps)
  {
  }

  /** The hit nucleon the CCQE calculation is reset to: a neutron for a
      neutrino, a proton for an antineutrino, none for anything else. */
  function ResetNucleon(probe: int): (r: Option<int>)
    ensures r.Some? <==> IsNeutrino(probe) || IsAntiNeutrino(probe)
    ensures r.Some? ==> (r.value == Neutron <==> IsNeutrino(probe))
    ensures r.Some? ==> (r.value == Proton <==> IsAntiNeutrino(probe))
  {
    if IsNeutrino(probe) then Some(Neutron)
    else if IsAntiNeutrino(probe) then Some(Proton)
    else None
  }

  /** The combinatorial factor (A - 1) / 2, the number of nucleon pairs per
      nucleon, in double precision. */
  function CombinatorialFactor(a: int): (f: real)
    ensures f == 0.0 <==> a == 1
    ensures a > 1 ==> f > 0.0
  {
    (a - 1) as real / 2.0
  }

  /** `Integral`: for charged-current interactions, the CCQE integral (the
      sub-algorithm `ccqe`) of a temporary QE interaction on the same
      target, probe and energy, with the hit nucleon reset, times the
      fraction and the combinatorial factor; 0 for everything else; an exit
      for a charged-current probe that is not a neutrino. */
  function Integral(cfg: Config, i: Interaction, ccqe: Interaction -> real): (r: Result<real>)
    ensures !i.procInfo.IsWeakCC() ==> r == Ok(0.0)
    ensures i.procInfo.IsWeakCC() ==> (r.Ok? <==> IsNeutrino(i.initState.probePdg) || IsAntiNeutrino(i.initState.probePdg))
  {
    var iscc := i.procInfo.IsWeakCC();
    var nupdg := i.initState.probePdg;
    var tgtpdg := i.initState.tgt.pdg;
    var e := i.initState.probeE;
    if iscc then
      match ResetNucleon(nupdg)
      case None => Abort("exit(1)")
      case Some(nucpdg) =>
        var tmp := QELCC(tgtpdg, nucpdg, nupdg, e);
        var xsec := ccqe(tmp) * cfg.fracCCQE;
        var combfact := CombinatorialFactor(tmp.initState.tgt.A());
        Ok(xsec * combfact)
    else Ok(0.0)
  }

  /** The temporary interaction `Integral` hands to the CCQE model. */
  function CCQEInteraction(i: Interaction, nucpdg: int): Interaction
  {
    QELCC(i.initState.tgt.pdg, nucpdg, i.initState.probePdg, i.initState.probeE)
  }

  /** For a charged-current (anti)neutrino the integral is the CCQE integral
      of a quasi-elastic charged-current interaction on the same target,
      probe and energy, with the hit nucleon a neutron for neutrinos and a
      proton for antineutrinos, scaled by the fraction and by (A - 1) / 2. */
  lemma IntegralFromCCQE(cfg: Config, i: Interaction, ccqe: Interaction -> real)
    requires i.procInfo.IsWeakCC() && IsNeutrino(i.initState.probePdg)
    ensures var tmp := CCQEInteraction(i, Neutron);
      && tmp.procInfo.IsQuasiElastic() && tmp.procInfo.IsWeakCC()
      && tmp.initState.tgt.hitNucPdg == Neutron
      && Integral(cfg, i, ccqe).Ok?
      && Integral(cfg, i, ccqe).value == ccqe(tmp) * cfg.fracCCQE * CombinatorialFactor(i.initState.tgt.A())
  {
    var tmp := CCQEInteraction(i, Neutron);
    assert ResetNucleon(i.initState.probePdg) == Some(Neutron);
    assert Integral(cfg, i, ccqe).Ok?;
    assert Integral(cfg, i, ccqe).value == ccqe(tmp) * cfg.fracCCQE * CombinatorialFactor(tmp.initState.tgt.A());
    assert CombinatorialFactor(tmp.initState.tgt.A()) == CombinatorialFactor(i.initState.tgt.A());
  }

  lemma AntiNeutrinoIntegralFromCCQE(cfg: Config, i: Interaction, ccqe: Interaction -> real)
    requires i.procInfo.IsWeakCC() && IsAntiNeutrino(i.initState.probePdg)
    ensures var tmp := CCQEInteraction(i, Proton);
      && tmp.procInfo.IsQuasiElastic() && tmp.procInfo.IsWeakCC()
      && tmp.initState.tgt.hitNucPdg == Proton
      && Integral(cfg, i, ccqe).Ok?
      && Integral(cfg, i, ccqe).value == ccqe(tmp) * cfg.fracCCQE * CombinatorialFactor(i.initState.tgt.A())
  {
    var tmp := CCQEInteraction(i, Proton);
    assert ResetNucleon(i.initState.probePdg) == Some(Proton);
    assert Integral(cfg, i, ccqe).Ok?;
    assert Integral(cfg, i, ccqe).value == ccqe(tmp) * cfg.fracCCQE * CombinatorialFactor(tmp.initState.tgt.A());
    assert CombinatorialFactor(tmp.initState.tgt.A()) == CombinatorialFactor(i.initState.tgt.A());
  }

  /** On a single-nucleon target there is no nucleon pair, and the integral
      is 0 whatever the CCQE model returns. */
  lemma NoPairNoIntegral(cfg: Config, i: Interaction, ccqe: Interaction -> real)
    requires i.initState.tgt.A() == 1
    requires Integral(cfg, i, ccqe).Ok?
    ensures Integral(cfg, i, ccqe).value == 0.0
  {
  }

  /** With a non-negative CCQE integral and the configured fraction, the
      integral is never negative on a target of mass number at least 1. */
  lemma IntegralNonNegative(reg: Registry, i: Interaction, ccqe: Interaction -> real)
    requires forall k :: ccqe(k) >= 0.0
    requires i.initState.tgt.A() >= 1
    requires Integral(LoadConfig(reg), i, ccqe).Ok?
    ensures Integral(LoadConfig(reg), i, ccqe).value >= 0.0
  {
    var cfg := LoadConfig(reg);
    if i.procInfo.IsWeakCC() {
      var nucpdg := ResetNucleon(i.initState.probePdg).value;
      var tmp := CCQEInteraction(i, nucpdg);
      assert Integral(cfg, i, ccqe).value == ccqe(tmp) * cfg.fracCCQE * CombinatorialFactor(i.initState.tgt.A());
      assert ccqe(tmp) >= 0.0;
    }
  }

  /** `ValidProcess`: any process when the process check is skipped,
      otherwise exactly the MEC processes. */
  predicate ValidProcess(i: Interaction)
    ensures i.TestBit(SkipProcessChk) ==> ValidProcess(i)
    ensures ValidProcess(i) && !i.TestBit(SkipProcessChk) ==> i.procInfo.scattering == MesonExchange
  {
    if i.TestBit(SkipProcessChk) then true
    else i.procInfo.IsMEC()
  }

  /** Outside MEC the process is valid exactly when the skip bit is set, and
      setting it makes any process valid. */
  lemma ValidProcessExactly(i: Interaction)
    ensures ValidProcess(i) <==> i.TestBit(SkipProcessChk) || i.procInfo.scattering == MesonExchange
    ensures ValidProcess(i.SetBit(SkipProcessChk))
  {
  }
}
