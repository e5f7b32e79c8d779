/** The DIS hadronic-system stage: after the remnant and hadronic-system
    entries it runs the hadronizer on the interaction, whose W has just been
    set, and appends the hadronizer's final-state products. */
module DISHadronicSystemGenerator {
  import opened Outcomes
  import opened Interactions
  import opened GHep
  import opened HadronicSystemGenerator

  const NoPhaseSpaceReason := "Not enough phase space for hadronizer"

  /** The hadronizer: fragmentation products for an interaction, or None. */
  type Hadronizer = Interaction -> Option<seq<MCParticle>>

  /** The status the products get: in the nucleus when the target is a nucleus. */
  function ProductStatus(i: Interaction): (st: int)
    ensures st == IStHadronInTheNucleus <==> i.initState.tgt.IsNucleus()
    ensures st == IStStableFinalState <==> !i.initState.tgt.IsNucleus()
  {
    if i.initState.tgt.IsNucleus() then IStHadronInTheNucleus else IStStableFinalState
  }

  /** The interaction with W set to the invariant mass of the hadronic system. */
  function WithW(i: Interaction, w: real): Interaction
  {
    i.SetKine(i.kine.SetW(w))
  }

  /** `AddFragmentationProducts`. `invariantMass` is `TLorentzVector::M()` and
      `boost` the hadronic-CM-to-lab boost. */
  method AddFragmentationProducts(rec: EventRecord, p4Had: P4, invariantMass: P4 -> real,
                                  hadronize: Hadronizer, boost: P4 -> P4)
    returns (r: StageOutcome)
    modifies rec
    ensures rec.interaction == WithW(old(rec.interaction), invariantMass(p4Had))
    ensures var plist := hadronize(rec.interaction);
      && (plist.None? ==>
            && r == EventFailure(NoPhaseSpaceReason, true)
            && rec.flags == old(rec.flags) + {NoAvailablePhaseSpace}
            && rec.entries == old(rec.entries))
      && (plist.Some? ==>
            && rec.flags == old(rec.flags)
            && var mom := FindEntry(old(rec.entries), PdgCodes.HadronicSyst, IStDISPreFragmHadronicState, 0);
            && (mom == -1 ==> r.Fatal? && rec.entries == old(rec.entries))
            && (mom != -1 ==>
                  && r == Completed
                  && rec.entries == old(rec.entries) + KeptProducts(plist.value, ProductStatus(rec.interaction), mom, boost)))
  {
    var w := invariantMass(p4Had);
    rec.SetInteraction(WithW(rec.interaction, w));

    var plist := hadronize(rec.interaction);
    if plist.None? {
      rec.SetFlag(NoAvailablePhaseSpace);
      return EventFailure(NoPhaseSpaceReason, true);
    }

    var mom := rec.FinalStateHadronicSystemPosition();
    if mom == -1 {
      return Fatal("assert(mom != -1)");
    }

    var ist := ProductStatus(rec.interaction);
    var prods := plist.value;
    ghost var start := rec.entries;
    var i := 0;
    while i < |prods|
      invariant 0 <= i <= |prods|
      invariant rec.entries == start + KeptProducts(prods[..i], ist, mom, boost)
      invariant rec.flags == old(rec.flags) && rec.interaction == WithW(old(rec.interaction), w)
    {
      var p := prods[i];
      var p4 := boost(p.p4);
      if p.ks == 1 {
        rec.AddParticle(Particle(p.kf, ist, mom, p4));
      }
      assert prods[..i + 1][..i] == prods[..i];
      i := i + 1;
    }
    assert prods[..|prods|] == prods;
    r := Completed;
  }

  /** `ProcessEventRecord`: target remnant, then hadronic system, then the
      fragmentation products. It never reaches the `mom != -1` assertion. */
  method ProcessEventRecord(rec: EventRecord, remnant: Option<Particle>, hadSystMother: int, p4Had: P4,
                            invariantMass: P4 -> real, hadronize: Hadronizer, boost: P4 -> P4)
    returns (r: StageOutcome)
    modifies rec
    ensures !r.Fatal?
    ensures rec.interaction == WithW(old(rec.interaction), invariantMass(p4Had))
    ensures var head := old(rec.entries) + RemnantEntries(remnant) + [HadronicSystEntry(hadSystMother, p4Had)];
      && |head| <= |rec.entries| && rec.entries[..|head|] == head
      && var plist := hadronize(rec.interaction);
      && (plist.None? <==> r == EventFailure(NoPhaseSpaceReason, true))
      && (plist.None? ==> rec.entries == head && NoAvailablePhaseSpace in rec.flags)
      && (plist.Some? ==>
            && r == Completed
            && rec.entries == head + KeptProducts(plist.value, ProductStatus(rec.interaction),
                                                  FindEntry(head, PdgCodes.HadronicSyst, IStDISPreFragmHadronicState, 0), boost))
  {
    AddTargetNucleusRemnant(rec, remnant);
    ghost var mid := rec.entries;
    AddFinalHadronicSyst(rec, hadSystMother, p4Had);
    HadronicSystFound(mid, hadSystMother, p4Had);
    r := AddFragmentationProducts(rec, p4Had, invariantMass, hadronize, boost);
  }
}
