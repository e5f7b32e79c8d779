/** The DIS primary-lepton stage: closed-form lepton kinematics from the
    selected x and y, two sanity assertions, and one lepton entry. */
module DISPrimaryLeptonGenerator {
  import opened Outcomes
  import opened Interactions
  import opened GHep

  /** Q^2 = 2 x y M Ev. */
  function Q2(x: real, y: real, m: real, ev: real): (q2: real)
    ensures x >= 0.0 && y >= 0.0 && m >= 0.0 && ev >= 0.0 ==> q2 >= 0.0
    ensures x == 0.0 || y == 0.0 ==> q2 == 0.0
  {
    2.0 * x * y * m * ev
  }

  /** W^2 = M^2 + 2 M Ev y (1 - x). */
  function W2(x: real, y: real, m: real, ev: real): (w2: real)
    ensures w2 - m * m + Q2(x, y, m, ev) == 2.0 * m * ev * y
    ensures x == 1.0 ==> w2 == m * m
  {
    calc {
      2.0 * m * ev * y * (1.0 - x) + Q2(x, y, m, ev);
      2.0 * m * ev * y * (1.0 - x) + 2.0 * x * y * m * ev;
      2.0 * m * ev * y * ((1.0 - x) + x);
    }
    m * m + 2.0 * m * ev * y * (1.0 - x)
  }

  /** The outgoing lepton energy Ev - (W^2 - M^2 + Q^2) / 2M, which is Ev (1 - y). */
  function LeptonEnergy(x: real, y: real, m: real, ev: real): (el: real)
    requires m != 0.0
    ensures el == ev * (1.0 - y)
  {
    var num := W2(x, y, m, ev) - m * m + Q2(x, y, m, ev);
    assert num == 2.0 * m * (ev * y);
    assert 0.5 * num / m == ev * y;
    ev - 0.5 * num / m
  }

  function Max0(v: real): (r: real)
    ensures r >= 0.0 && r >= v && (r == v || r == 0.0)
  {
    if v > 0.0 then v else 0.0
  }

  /** The lepton momentum squared, max(0, El^2 - ml^2). */
  function LeptonMomentum2(el: real, ml: real): (p2: real)
    ensures p2 >= 0.0
    ensures p2 > 0.0 <==> el * el > ml * ml
  {
    Max0(el * el - ml * ml)
  }

  /** The numerator of the scattering cosine, El - (Q^2 + ml^2) / 2Ev. */
  function CosineNumerator(el: real, q2: real, ml: real, ev: real): real
    requires ev != 0.0
  {
    el - 0.5 * (q2 + ml * ml) / ev
  }

  function Abs(v: real): (r: real)
    ensures r >= 0.0 && (r == v || r == -v)
  {
    if v < 0.0 then -v else v
  }

  lemma MulPositive(a: real, b: real)
    requires a > 0.0 && b > 0.0
    ensures a * b > 0.0
  {
  }

  lemma MulMonotone(a: real, b: real, c: real)
    requires a <= b && c >= 0.0
    ensures a * c <= b * c
  {
    assert b * c - a * c == (b - a) * c;
  }

  lemma StrictMulMonotone(a: real, b: real, c: real)
    requires a < b && c > 0.0
    ensures a * c < b * c
  {
    assert b * c - a * c == (b - a) * c;
    MulPositive(b - a, c);
  }

  /** What the model needs of `TMath::Sqrt`: on a non-negative argument it
      returns a non-negative value that is positive exactly when the argument
      is. */
  ghost predicate SignFaithfulRoot(sqrt: real -> real)
  {
    forall v: real :: v >= 0.0 ==> sqrt(v) >= 0.0 && (sqrt(v) > 0.0 <==> v > 0.0)
  }

  /** The assertion `pl > 0` holds exactly when El^2 > ml^2. */
  lemma MomentumAssertion(el: real, ml: real, sqrt: real -> real)
    requires SignFaithfulRoot(sqrt)
    ensures sqrt(LeptonMomentum2(el, ml)) > 0.0 <==> el * el > ml * ml
  {
    var p2 := LeptonMomentum2(el, ml);
    assert p2 >= 0.0;
    assert sqrt(p2) > 0.0 <==> p2 > 0.0;
  }

  /** With pl > 0, the cosine assertion |num / pl| <= 1 holds exactly when
      num^2 <= pl^2. */
  lemma CosineAssertion(num: real, pl: real)
    requires pl > 0.0
    ensures -1.0 <= num / pl <= 1.0 <==> num * num <= pl * pl
  {
    var c := num / pl;
    assert num == c * pl;
    assert num * num == (c * c) * (pl * pl);
    var a := Abs(c);
    assert c * c == a * a;
    assert pl * pl > 0.0 by { MulPositive(pl, pl); }
    if a <= 1.0 {
      MulMonotone(a, 1.0, a);
      assert a * a <= 1.0 * a;
      assert a * a <= 1.0;
      MulMonotone(a * a, 1.0, pl * pl);
    } else {
      StrictMulMonotone(1.0, a, a);
      assert 1.0 * a < a * a;
      assert 1.0 < a * a;
      StrictMulMonotone(1.0, a * a, pl * pl);
    }
  }


  /** The selected value of a kinematic variable, as the getters return it
      once the selected kinematics are in use. */
  function Selected(k: Kinematics, v: KineVar): real
  {
    k.UseSelectedKinematics().Value(v)
  }

  /** `ProcessEventRecord`. `sqrt` is `TMath::Sqrt`; `lepton4p` stands for the
      rotation into the nucleon rest frame followed by the boost to the lab,
      as a function of (cos theta, El); `probePos` is the mother the base
      class gives the lepton. */
  method ProcessEventRecord(rec: EventRecord, fsLeptonPdg: int, ml: real, m: real,
                            sqrt: real -> real, lepton4p: (real, real) -> P4, probePos: int)
    returns (r: StageOutcome)
    requires m != 0.0
    requires SignFaithfulRoot(sqrt)
    modifies rec
    ensures r.Completed? || r.Fatal?
    ensures rec.flags == old(rec.flags)
    ensures var ev := old(rec.interaction).initState.probeE;
      var k := old(rec.interaction).kine;
      var x := Selected(k, KX);
      var y := Selected(k, KY);
      var el := LeptonEnergy(x, y, m, ev);
      var pl := sqrt(LeptonMomentum2(el, ml));
      var cth := if pl > 0.0 then CosineNumerator(el, Q2(x, y, m, ev), ml, ev) / pl else 0.0;
      && (r.Completed? <==> el * el > ml * ml && Abs(cth) <= 1.0)
      && (r.Completed? ==>
            && rec.entries == old(rec.entries) + [Particle(fsLeptonPdg, IStStableFinalState, probePos, lepton4p(cth, el))]
            && rec.interaction == old(rec.interaction).SetKine(k.UseSelectedKinematics().ClearRunningValues()))
      && (r.Fatal? ==> rec.entries == old(rec.entries))
  {
    var pdgc := fsLeptonPdg;
    rec.SetInteraction(rec.interaction.SetKine(rec.interaction.kine.UseSelectedKinematics()));

    var ev := rec.interaction.initState.probeE;
    var x := rec.interaction.kine.Value(KX);
    var y := rec.interaction.kine.Value(KY);
    var ml2 := ml * ml;
    var q2 := Q2(x, y, m, ev);
    var w2 := W2(x, y, m, ev);

    assert x == Selected(old(rec.interaction).kine, KX) && y == Selected(old(rec.interaction).kine, KY);
    var el := ev - 0.5 * (w2 - m * m + q2) / m;
    assert el == LeptonEnergy(x, y, m, ev);

    assert Max0(el * el - ml2) == LeptonMomentum2(el, ml);
    var pl := sqrt(Max0(el * el - ml2));
    MomentumAssertion(el, ml, sqrt);
    if !(pl > 0.0) {
      return Fatal("assert(pl > 0)");
    }
    var cThSc := (el - 0.5 * (q2 + ml2) / ev) / pl;
    assert cThSc == CosineNumerator(el, q2, ml, ev) / pl;
    if !(Abs(cThSc) <= 1.0) {
      return Fatal("assert(|cos theta| <= 1)");
    }

    var pl4 := lepton4p(cThSc, el);
    rec.AddParticle(Particle(pdgc, IStStableFinalState, probePos, pl4));

    rec.SetInteraction(rec.interaction.SetKine(rec.interaction.kine.ClearRunningValues()));
    r := Completed;
  }
}
