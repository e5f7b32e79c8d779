/** The two entries that the hadronic-system stages add before their own
    products: the target-nucleus remnant (only when the struck nucleon was
    inside a nucleus) and the DIS pre-fragmentation hadronic system. */
module HadronicSystemGenerator {
  import opened Outcomes
  import opened PdgCodes
  import opened GHep

  /** The remnant entry, when there is one, as a sequence of zero or one entries. */
  function RemnantEntries(remnant: Option<Particle>): (r: seq<Particle>)
    ensures |r| == (if remnant.Some? then 1 else 0)
  {
    if remnant.Some? then [remnant.value] else []
  }

  /** The hadronic-system entry, a child of the entry at `mother`. */
  function HadronicSystEntry(mother: int, p4Had: P4): Particle
  {
    Particle(HadronicSyst, IStDISPreFragmHadronicState, mother, p4Had)
  }

  method AddTargetNucleusRemnant(rec: EventRecord, remnant: Option<Particle>)
    modifies rec
    ensures rec.entries == old(rec.entries) + RemnantEntries(remnant)
    ensures rec.flags == old(rec.flags) && rec.interaction == old(rec.interaction)
  {
    if remnant.Some? {
      rec.AddParticle(remnant.value);
    }
  }

  method AddFinalHadronicSyst(rec: EventRecord, mother: int, p4Had: P4)
    modifies rec
    ensures rec.entries == old(rec.entries) + [HadronicSystEntry(mother, p4Had)]
    ensures rec.flags == old(rec.flags) && rec.interaction == old(rec.interaction)
  {
    rec.AddParticle(HadronicSystEntry(mother, p4Had));
  }

  /** Once the hadronic-system entry has been appended, its position is known. */
  lemma HadronicSystFound(s: seq<Particle>, mother: int, p4Had: P4)
    ensures FindEntry(s + [HadronicSystEntry(mother, p4Had)], HadronicSyst, IStDISPreFragmHadronicState, 0) != -1
  {
    var t := s + [HadronicSystEntry(mother, p4Had)];
    assert t[|s|].pdg == HadronicSyst && t[|s|].status == IStDISPreFragmHadronicState;
  }
}
