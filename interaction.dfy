/** The interaction summary: an aggregate of an initial state, process
    information, kinematics and an exclusive-channel tag, plus the bit flags
    that tell cross-section models to skip their validity checks. */
module Interactions {
  import opened PdgCodes

  /** Bit flags of the interaction's TObject status word. */
  const SkipProcessChk: bv32 := 1 << 17
  const SkipKinematicChk: bv32 := 1 << 16
  const AssumeFreeNucleon: bv32 := 1 << 15
  const AssumeFreeElectron: bv32 := 1 << 15

  predicate SingleBit(f: bv32) { f != 0 && f & (f - 1) == 0 }

  /** Each flag is one bit; the two skip bits differ; the free-nucleon and free-electron names
      denote the same bit, which overlaps neither skip bit. */
  lemma FlagLayout()
    ensures SingleBit(SkipProcessChk) && SingleBit(SkipKinematicChk) && SingleBit(AssumeFreeNucleon)
    ensures SkipProcessChk & SkipKinematicChk == 0
    ensures (SkipProcessChk | SkipKinematicChk) & AssumeFreeNucleon == 0
    ensures AssumeFreeNucleon == AssumeFreeElectron
  {
  }

  /** The nuclear target, identified by its PDG code (a nucleon, or an ion
      coded 10LZZZAAAI), and the PDG code of the struck nucleon. */
  datatype Target = Target(pdg: int, hitNucPdg: int) {
    /** The mass number. */
    function A(): nat
    {
      if pdg == Proton || pdg == Neutron then 1
      else if pdg >= 1000000000 then (pdg / 10) % 1000
      else 0
    }
    predicate IsNucleus() { A() > 1 }
  }

  /** Initial state: probe code, probe energy, target. */
  datatype InitialState = InitialState(probePdg: int, probeE: real, tgt: Target)

  datatype ScatteringType = QuasiElastic | DeepInelastic | Resonant | Coherent | MesonExchange | InverseMuDecay
  datatype InteractionType = WeakCC | WeakNC | Electromagnetic

  datatype ProcessInfo = ProcessInfo(scattering: ScatteringType, current: InteractionType) {
    predicate IsQuasiElastic() { scattering == QuasiElastic }
    predicate IsMEC() { scattering == MesonExchange }
    predicate IsWeak() { current == WeakCC || current == WeakNC }
    predicate IsWeakCC() { current == WeakCC }
  }

  datatype KineVar = KX | KY | KQ2 | KW

  /** The value a kinematic variable reads as when it has not been set. */
  const Unset: real := -99999.0

  /** Kinematics: the running values that the getters read, and the values
      selected by the kinematics generator. */
  datatype Kinematics = Kinematics(running: map<KineVar, real>, selected: map<KineVar, real>) {

    function Value(v: KineVar): real
    {
      if v in running then running[v] else Unset
    }

    /** `UseSelectedKinematics`: each selected value is copied into the
        running one; a variable with no selected value keeps its running value. */
    function UseSelectedKinematics(): (k: Kinematics)
      ensures forall v :: v in selected ==> k.Value(v) == selected[v]
      ensures forall v :: v !in selected ==> k.Value(v) == Value(v)
      ensures k.selected == selected
    {
      Kinematics(running + selected, selected)
    }

    /** `ClearRunningValues`: every running value is dropped. */
    function ClearRunningValues(): (k: Kinematics)
      ensures forall v :: k.Value(v) == Unset
      ensures k.selected == selected
    {
      Kinematics(map[], selected)
    }

    /** `SetW`: W reads as `w`, every other variable as before. */
    function SetW(w: real): (k: Kinematics)
      ensures k.Value(KW) == w
      ensures forall v :: v != KW ==> k.Value(v) == Value(v)
      ensures k.selected == selected
    {
      Kinematics(running[KW := w], selected)
    }
  }

  const NoKinematics := Kinematics(map[], map[])

  /** Exclusive-channel tag: whether the event is a charm event and the code
      of the charmed hadron (0 for inclusive charm). */
  datatype XclsTag = XclsTag(isCharmEvent: bool, charmPdg: int) {
    predicate IsInclusiveCharm() { isCharmEvent && charmPdg == 0 }
  }

  const NoXclsTag := XclsTag(false, 0)

  /** A fresh tag marked with the given charmed hadron (`XclsTag xcls; xcls.SetCharm(pdg)`). */
  function CharmTag(pdg: int): (t: XclsTag)
    ensures t.isCharmEvent && t.charmPdg == pdg
    ensures pdg != 0 ==> !t.IsInclusiveCharm()
  {
    XclsTag(true, pdg)
  }

  /** The interaction owns exactly one of each of its four parts. */
  datatype Interaction = Interaction(initState: InitialState, procInfo: ProcessInfo,
                                     kine: Kinematics, exclTag: XclsTag, bits: bv32) {

    /** `TestBit(f)`: some bit of `f` is set. */
    predicate TestBit(f: bv32) { bits & f != 0 }

    function SetBit(f: bv32): (i: Interaction)
      ensures i.TestBit(f) <==> f != 0
      ensures forall g: bv32 {:trigger i.TestBit(g)} :: TestBit(g) ==> i.TestBit(g)
      ensures i.(bits := bits) == this
    {
      this.(bits := bits | f)
    }

    function SetKine(k: Kinematics): (i: Interaction)
      ensures i.kine == k
      ensures i.(kine := kine) == this
    {
      this.(kine := k)
    }

    function SetExclTag(t: XclsTag): (i: Interaction)
      ensures i.exclTag == t
      ensures i.(exclTag := exclTag) == this
    {
      this.(exclTag := t)
    }
  }

  /** Setting either the free-nucleon or the free-electron bit sets, and tests as, the other. */
  lemma AssumeFlagsAlias(i: Interaction)
    ensures i.SetBit(AssumeFreeNucleon).TestBit(AssumeFreeElectron)
    ensures i.TestBit(AssumeFreeNucleon) <==> i.TestBit(AssumeFreeElectron)
  {
  }

  /** Setting one skip bit leaves the other one as it was. */
  lemma SkipFlagsIndependent(i: Interaction)
    ensures i.SetBit(SkipProcessChk).TestBit(SkipKinematicChk) == i.TestBit(SkipKinematicChk)
    ensures i.SetBit(SkipKinematicChk).TestBit(SkipProcessChk) == i.TestBit(SkipProcessChk)
  {
  }

  /** The named constructor for a charged-current quasi-elastic interaction. */
  function QELCC(tgt: int, nuc: int, probe: int, e: real): (i: Interaction)
    ensures i.procInfo.IsQuasiElastic() && i.procInfo.IsWeakCC()
    ensures i.initState == InitialState(probe, e, Target(tgt, nuc))
    ensures i.bits == 0
  {
    Interaction(InitialState(probe, e, Target(tgt, nuc)), ProcessInfo(QuasiElastic, WeakCC),
                NoKinematics, NoXclsTag, 0)
  }
}
