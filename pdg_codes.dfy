/** PDG particle codes used by the modelled code, and the foreign PDG library
    (masses and charges) as a pair of uninterpreted lookups. */
module PdgCodes {

  const Pi0: int := 111
  const PiPlus: int := 211
  const PiMinus: int := -211
  const Proton: int := 2212
  const Neutron: int := 2112
  const DPlus: int := 411
  const DMinus: int := -411
  const D0: int := 421
  const AntiD0: int := -421
  const DsPlus: int := 431
  const DsMinus: int := -431
  const LambdaCPlus: int := 4122
  const SigmaCPlus: int := 4212
  const SigmaCPlusPlus: int := 4222
  /** The pseudo-particle code of the DIS pre-fragmentation hadronic system. */
  const HadronicSyst: int := 2000000001

  predicate IsProton(pdg: int) { pdg == Proton }
  predicate IsNeutron(pdg: int) { pdg == Neutron }
  predicate IsNeutrino(pdg: int) { pdg == 12 || pdg == 14 || pdg == 16 }
  predicate IsAntiNeutrino(pdg: int) { pdg == -12 || pdg == -14 || pdg == -16 }

  /** The PDG library: the mass (GeV) and the charge, in units of a third of
      the elementary charge as ROOT's TParticlePDG reports it. */
  datatype PdgLibrary = PdgLibrary(mass: int -> real, charge: int -> real)

  /** C++ `int(x)` on a double: truncation toward zero. */
  function TruncToInt(x: real): (n: int)
    ensures x >= 0.0 ==> n as real <= x < n as real + 1.0
    ensures x < 0.0 ==> n as real - 1.0 < x <= n as real
  {
    if x >= 0.0 then x.Floor else -((-x).Floor)
  }

  /** The charge of a hadron in units of the elementary charge, as
      `int(Charge()/3.)` computes it. */
  function HadronCharge(lib: PdgLibrary, pdg: int): int
  {
    TruncToInt(lib.charge(pdg) / 3.0)
  }
}
