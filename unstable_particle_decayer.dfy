/** The stage that decays unstable particles: it scans the live record, hands
    every stable final-state unstable entry to a decayer, marks it decayed
    when products come back and appends its stable final-state products,
    which are visited later by the same scan. */
module UnstableParticleDecayer {
  import opened Outcomes
  import opened PdgCodes
  import opened GHep

  /** The decayer: products for a code and 4-momentum, or None when it cannot
      handle the particle. */
  type Decayer = (int, P4) -> Option<seq<MCParticle>>

  /** The codes the stage always decays. */
  const ParticlesToDecay: seq<int> :=
    [Pi0, DPlus, DMinus, D0, AntiD0, DsPlus, DsMinus, LambdaCPlus, SigmaCPlus, SigmaCPlusPlus]

  /** `std::count`. */
  function Count(s: seq<int>, x: int): (n: nat)
    ensures n <= |s|
    ensures n > 0 <==> x in s
  {
    if s == [] then 0 else (if s[0] == x then 1 else 0) + Count(s[1..], x)
  }

  /** `IsUnstable`: one of the ten listed codes, or a baryon resonance. The
      lifetime comparison has an empty branch and plays no part. */
  function IsUnstable(pdg: int, isBaryonResonance: int -> bool): (r: bool)
    ensures r <==> (pdg == 111 || pdg == 411 || pdg == -411 || pdg == 421 || pdg == -421 ||
                    pdg == 431 || pdg == -431 || pdg == 4122 || pdg == 4212 || pdg == 4222 ||
                    isBaryonResonance(pdg))
  {
    Count(ParticlesToDecay, pdg) > 0 || isBaryonResonance(pdg)
  }

  /** `ToBeDecayed`. */
  function ToBeDecayed(p: Particle, isBaryonResonance: int -> bool): (r: bool)
    ensures r <==> p.pdg != 0 && p.status == IStStableFinalState && IsUnstable(p.pdg, isBaryonResonance)
  {
    if p.pdg != 0 && p.status == IStStableFinalState then IsUnstable(p.pdg, isBaryonResonance) else false
  }

  /** The products `CopyToEventRecord` appends for a parent at `motherPos`. */
  function DecayProducts(prods: seq<MCParticle>, motherPos: int): seq<Particle>
  {
    KeptProducts(prods, IStStableFinalState, motherPos, NoBoost)
  }

  /** One visit of the scan at position `ipos`. */
  function DecayStep(s: seq<Particle>, ipos: nat, decay: Decayer, isRes: int -> bool): (r: seq<Particle>)
    requires ipos < |s|
    ensures |s| <= |r| && r[..ipos] == s[..ipos] && r[ipos + 1..|s|] == s[ipos + 1..]
    ensures !ToBeDecayed(s[ipos], isRes) || decay(s[ipos].pdg, s[ipos].p4).None? ==> r == s
    ensures ToBeDecayed(s[ipos], isRes) && decay(s[ipos].pdg, s[ipos].p4).Some? ==>
      r[ipos] == s[ipos].(status := IStDecayedState) &&
      r[|s|..] == DecayProducts(decay(s[ipos].pdg, s[ipos].p4).value, ipos)
  {
    var p := s[ipos];
    if !ToBeDecayed(p, isRes) then s
    else match decay(p.pdg, p.p4)
      case None => s
      case Some(prods) => s[ipos := p.(status := IStDecayedState)] + DecayProducts(prods, ipos)
  }

  /** An entry either stays as it was or is an unstable entry flagged decayed. */
  predicate Evolved(before: Particle, after: Particle, isRes: int -> bool)
  {
    after == before || (ToBeDecayed(before, isRes) && after == before.(status := IStDecayedState))
  }

  /** The scan from position `ipos` on, with at most `fuel` visits. */
  function DecayScan(s: seq<Particle>, ipos: nat, fuel: nat, decay: Decayer, isRes: int -> bool): (r: seq<Particle>)
    ensures |s| <= |r|
    ensures forall k :: 0 <= k < |s| ==> Evolved(s[k], r[k], isRes)
    ensures forall k :: 0 <= k < ipos && k < |s| ==> r[k] == s[k]
    decreases fuel
  {
    if ipos >= |s| || fuel == 0 then s
    else DecayScan(DecayStep(s, ipos, decay, isRes), ipos + 1, fuel - 1, decay, isRes)
  }

  /** From position `n` on, every entry was produced by a decay: its mother
      is an earlier entry that is flagged decayed. */
  ghost predicate ProductsOfDecays(s: seq<Particle>, n: nat)
  {
    forall k :: n <= k < |s| ==> ProductOfDecay(s, k)
  }

  /** Entry `k` has an earlier entry, flagged decayed, as its mother. */
  ghost predicate ProductOfDecay(s: seq<Particle>, k: nat)
    requires k < |s|
  {
    0 <= s[k].mother < k && s[s[k].mother].status == IStDecayedState
  }

  /** One visit keeps every entry from position `n` on a product of a
      decayed entry: a decayed parent stays decayed, and new products point
      at the entry just decayed. */
  lemma StepAppendsDecayProducts(s: seq<Particle>, n: nat, ipos: nat, decay: Decayer, isRes: int -> bool)
    requires n <= |s| && ipos < |s| && ProductsOfDecays(s, n)
    ensures ProductsOfDecays(DecayStep(s, ipos, decay, isRes), n)
  {
    var t := DecayStep(s, ipos, decay, isRes);
    if ToBeDecayed(s[ipos], isRes) && decay(s[ipos].pdg, s[ipos].p4).Some? {
      var prods := decay(s[ipos].pdg, s[ipos].p4).value;
      var u := s[ipos := s[ipos].(status := IStDecayedState)];
      var added := DecayProducts(prods, ipos);
      assert t == u + added;
      assert t[ipos].status == IStDecayedState;
      forall k | n <= k < |t|
        ensures ProductOfDecay(t, k)
      {
        if k < |s| {
          assert ProductOfDecay(s, k);
          var m := s[k].mother;
          assert t[k].mother == m;
          if m != ipos {
            assert t[m] == s[m];
          }
        } else {
          assert t[k] == added[k - |s|];
        }
      }
    }
  }

  /** Every entry the scan appends is a product of an entry it decayed, and
      the scan keeps mothers pointing backwards. */
  lemma {:induction false} ScanAppendsDecayProducts(s: seq<Particle>, n: nat, ipos: nat, fuel: nat, decay: Decayer, isRes: int -> bool)
    requires n <= |s| && ProductsOfDecays(s, n)
    ensures ProductsOfDecays(DecayScan(s, ipos, fuel, decay, isRes), n)
    decreases fuel
  {
    if !(ipos >= |s| || fuel == 0) {
      StepAppendsDecayProducts(s, n, ipos, decay, isRes);
      ScanAppendsDecayProducts(DecayStep(s, ipos, decay, isRes), n, ipos + 1, fuel - 1, decay, isRes);
    }
  }

  /** The scan keeps every mother index pointing at an earlier entry. */
  lemma {:induction false} ScanKeepsMothersPrecede(s: seq<Particle>, ipos: nat, fuel: nat, decay: Decayer, isRes: int -> bool)
    requires MothersPrecede(s)
    ensures MothersPrecede(DecayScan(s, ipos, fuel, decay, isRes))
  {
    var r := DecayScan(s, ipos, fuel, decay, isRes);
    ScanAppendsDecayProducts(s, |s|, ipos, fuel, decay, isRes);
    forall k | 0 <= k < |r| ensures -1 <= r[k].mother < k {
      if k < |s| { assert Evolved(s[k], r[k], isRes); } else { assert ProductOfDecay(r, k); }
    }
  }

  /** `CopyToEventRecord`: appends, in order, exactly the products with the
      stable final-state status, with the parent as mother. */
  method CopyToEventRecord(rec: EventRecord, prods: seq<MCParticle>, motherPos: int)
    modifies rec
    ensures rec.entries == old(rec.entries) + DecayProducts(prods, motherPos)
    ensures rec.flags == old(rec.flags) && rec.interaction == old(rec.interaction)
  {
    var i := 0;
    while i < |prods|
      invariant 0 <= i <= |prods|
      invariant rec.entries == old(rec.entries) + DecayProducts(prods[..i], motherPos)
      invariant rec.flags == old(rec.flags) && rec.interaction == old(rec.interaction)
    {
      var d := prods[i];
      var status := d.ks;
      if status == IStStableFinalState {
        rec.AddParticle(Particle(d.kf, status, motherPos, d.p4));
      }
      assert prods[..i + 1][..i] == prods[..i];
      i := i + 1;
    }
    assert prods[..|prods|] == prods;
  }

  /** One pass of the loop body of `ProcessEventRecord` at position `ipos`:
      an entry to be decayed is handed to the decayer, and when products come
      back it is flagged decayed and its stable products are appended. */
  method DecayEntry(rec: EventRecord, ipos: nat, decay: Decayer, isRes: int -> bool)
    requires ipos < |rec.entries|
    modifies rec
    ensures rec.entries == DecayStep(old(rec.entries), ipos, decay, isRes)
    ensures rec.flags == old(rec.flags) && rec.interaction == old(rec.interaction)
  {
    var p := rec.entries[ipos];
    if ToBeDecayed(p, isRes) {
      var products := decay(p.pdg, p.p4);
      if products.Some? {
        rec.SetStatus(ipos, IStDecayedState);
        CopyToEventRecord(rec, products.value, ipos);
      }
    }
  }

  /** `ProcessEventRecord`: the scan over the live record, visiting at most
      `fuel` positions. */
  method ProcessEventRecord(rec: EventRecord, decay: Decayer, isRes: int -> bool, fuel: nat)
    modifies rec
    ensures rec.entries == DecayScan(old(rec.entries), 0, fuel, decay, isRes)
    ensures rec.flags == old(rec.flags) && rec.interaction == old(rec.interaction)
  {
    var ipos: nat := 0;
    var left := fuel;
    while ipos < |rec.entries| && left > 0
      invariant DecayScan(rec.entries, ipos, left, decay, isRes) == DecayScan(old(rec.entries), 0, fuel, decay, isRes)
      invariant rec.flags == old(rec.flags) && rec.interaction == old(rec.interaction)
      decreases left
    {
      DecayEntry(rec, ipos, decay, isRes);
      ipos := ipos + 1;
      left := left - 1;
    }
  }
}
