/** The event record: a growing sequence of particle entries, event flags and
    the interaction summary it describes. */
module GHep {
  import opened PdgCodes
  import opened Interactions

  /** Particle status codes. */
  const IStInitialState: int := 0
  const IStStableFinalState: int := 1
  const IStIntermediateState: int := 2
  const IStDecayedState: int := 3
  const IStNucleonTarget: int := 11
  const IStDISPreFragmHadronicState: int := 12
  const IStHadronInTheNucleus: int := 14

  datatype P4 = P4(px: real, py: real, pz: real, e: real) {
    function Plus(o: P4): P4 { P4(px + o.px, py + o.py, pz + o.pz, e + o.e) }
    function Minus(o: P4): P4 { P4(px - o.px, py - o.py, pz - o.pz, e - o.e) }
    /** The invariant mass squared, E^2 - |p|^2. */
    function Mag2(): real { e * e - px * px - py * py - pz * pz }
  }

  /** An entry of the record; `mother` is an index into the record, or -1. */
  datatype Particle = Particle(pdg: int, status: int, mother: int, p4: P4)

  /** A product handed back by a decayer or hadronizer (a TMCParticle): its
      code (KF), its status code (KS) and its momentum. */
  datatype MCParticle = MCParticle(kf: int, ks: int, p4: P4)

  datatype EventFlag = NoAvailablePhaseSpace

  /** The identity transform, for products copied without a boost. */
  function NoBoost(p: P4): P4 { p }

  /** The record entries made from the products whose KS is 1 (the stable
      final-state code), in their order, each with the given status and
      mother and its momentum passed through `boost`. */
  function KeptProducts(prods: seq<MCParticle>, status: int, mother: int, boost: P4 -> P4): (r: seq<Particle>)
    ensures |r| <= |prods|
    ensures forall k :: 0 <= k < |r| ==> r[k].status == status && r[k].mother == mother
    decreases |prods|
  {
    if prods == [] then []
    else
      var last := prods[|prods| - 1];
      KeptProducts(prods[..|prods| - 1], status, mother, boost)
        + (if last.ks == IStStableFinalState then [Particle(last.kf, status, mother, boost(last.p4))] else [])
  }

  /** A record entry comes from a product exactly when that product has KS 1. */
  lemma {:induction false} KeptProductsMembership(prods: seq<MCParticle>, status: int, mother: int, boost: P4 -> P4, p: Particle)
    ensures p in KeptProducts(prods, status, mother, boost) <==>
      exists j :: 0 <= j < |prods| && prods[j].ks == IStStableFinalState &&
                  p == Particle(prods[j].kf, status, mother, boost(prods[j].p4))
    decreases |prods|
  {
    if prods != [] {
      var init := prods[..|prods| - 1];
      KeptProductsMembership(init, status, mother, boost, p);
      if exists j :: 0 <= j < |init| && init[j].ks == IStStableFinalState &&
                     p == Particle(init[j].kf, status, mother, boost(init[j].p4)) {
        var j :| 0 <= j < |init| && init[j].ks == IStStableFinalState &&
                 p == Particle(init[j].kf, status, mother, boost(init[j].p4));
        assert prods[j] == init[j];
      }
    }
  }

  /** Nothing is kept when no product has KS 1; everything is kept when all do. */
  lemma {:induction false} KeptProductsExtremes(prods: seq<MCParticle>, status: int, mother: int, boost: P4 -> P4)
    ensures (forall j :: 0 <= j < |prods| ==> prods[j].ks != IStStableFinalState) ==> KeptProducts(prods, status, mother, boost) == []
    ensures (forall j :: 0 <= j < |prods| ==> prods[j].ks == IStStableFinalState) ==> |KeptProducts(prods, status, mother, boost)| == |prods|
    decreases |prods|
  {
    if prods != [] {
      KeptProductsExtremes(prods[..|prods| - 1], status, mother, boost);
    }
  }

  /** The first index at or after `from` holding an entry with this code and
      status, or -1. */
  function FindEntry(s: seq<Particle>, pdg: int, status: int, from: nat): (r: int)
    ensures r == -1 || (from <= r < |s| && s[r].pdg == pdg && s[r].status == status)
    ensures r == -1 <==> forall k :: from <= k < |s| ==> !(s[k].pdg == pdg && s[k].status == status)
    ensures r != -1 ==> forall k :: from <= k < r ==> !(s[k].pdg == pdg && s[k].status == status)
    decreases |s| - from
  {
    if from >= |s| then -1
    else if s[from].pdg == pdg && s[from].status == status then from
    else FindEntry(s, pdg, status, from + 1)
  }

  /** Appending entries never changes what an earlier successful search found. */
  lemma {:induction false} FindEntryAppend(s: seq<Particle>, t: seq<Particle>, pdg: int, status: int, from: nat)
    requires FindEntry(s, pdg, status, from) != -1
    ensures FindEntry(s + t, pdg, status, from) == FindEntry(s, pdg, status, from)
    decreases |s| - from
  {
    if !(s[from].pdg == pdg && s[from].status == status) {
      FindEntryAppend(s, t, pdg, status, from + 1);
    }
  }

  /** Every mother index refers to an earlier entry (or is -1). */
  ghost predicate MothersPrecede(s: seq<Particle>)
  {
    forall k :: 0 <= k < |s| ==> -1 <= s[k].mother < k
  }

  class EventRecord {
    var entries: seq<Particle>
    var flags: set<EventFlag>
    var interaction: Interaction

    constructor (i: Interaction, initial: seq<Particle>)
      ensures entries == initial && flags == {} && interaction == i
    {
      entries, flags, interaction := initial, {}, i;
    }

    /** `FinalStateHadronicSystemPosition`: the index of the hadronic-system
        entry, or -1. */
    function FinalStateHadronicSystemPosition(): (r: int)
      reads this
      ensures r == -1 <==> forall k :: 0 <= k < |entries| ==>
        !(entries[k].pdg == HadronicSyst && entries[k].status == IStDISPreFragmHadronicState)
      ensures r != -1 ==> 0 <= r < |entries| && entries[r].pdg == HadronicSyst && entries[r].status == IStDISPreFragmHadronicState
      ensures r != -1 ==> forall k :: 0 <= k < r ==>
        !(entries[k].pdg == HadronicSyst && entries[k].status == IStDISPreFragmHadronicState)
    {
      FindEntry(entries, HadronicSyst, IStDISPreFragmHadronicState, 0)
    }

    /** `AddParticle`: one entry is appended, nothing else changes. */
    method AddParticle(p: Particle)
      modifies this
      ensures entries == old(entries) + [p]
      ensures flags == old(flags) && interaction == old(interaction)
    {
      entries := entries + [p];
    }

    /** `SetStatus` on entry `k`: only that entry's status changes. */
    method SetStatus(k: nat, status: int)
      requires k < |entries|
      modifies this
      ensures entries == old(entries)[k := old(entries)[k].(status := status)]
      ensures flags == old(flags) && interaction == old(interaction)
    {
      entries := entries[k := entries[k].(status := status)];
    }

    /** `EventFlags()->SetBitNumber(f, true)`. */
    method SetFlag(f: EventFlag)
      modifies this
      ensures flags == old(flags) + {f}
      ensures entries == old(entries) && interaction == old(interaction)
    {
      flags := flags + {f};
    }

    method SetInteraction(i: Interaction)
      modifies this
      ensures interaction == i
      ensures entries == old(entries) && flags == old(flags)
    {
      interaction := i;
    }
  }
}
