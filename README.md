# Event-generation stages and cross-section glue of a neutrino event generator

This project models part of a GENIE-style neutrino Monte Carlo generator.
An event is built in an *event record*. The record is a growing list of
particle entries, each with a PDG code, a status, a mother index and a
4-momentum. It also holds a set of event flags and the *interaction summary*
the event describes. Event-generation modules, called stages, visit the
record one after another. They append entries and re-flag existing ones.

The model covers these stages and models:

- **Unstable-particle decayer** (`UnstableParticleDecayer`). It scans the
  live record. It hands every stable final-state entry with an unstable code
  to a decayer, and flags the entry decayed when products come back. It
  appends the stable final-state products with that entry as their mother.
  The scan later visits those products too.
- **Charm DIS hadronic system** (`FragmentCharmDISGenerator`). It draws a
  charmed hadron from a charm-fraction table, in a bounded retry loop. The
  hadronic 4-momentum is split between the charm hadron and a void remnant.
  The remnant either stays as it is or is replaced by pions that carry the
  remnant charge.
- **DIS hadronic system** (`DISHadronicSystemGenerator`). It sets W, runs
  the hadronizer, and appends the products with KS = 1 or raises a
  fast-forward event failure.
- **DIS primary lepton** (`DISPrimaryLeptonGenerator`). It computes the
  lepton kinematics in closed form, checks two assertions and appends one
  lepton.
- **Decision logic of two cross-section models.** For Kovalenko's
  quasi-elastic charm model (`KovalenkoQELCharmPXSec`): the validity
  checks, the channel tables, the resonance edges, the grid that D^R
  integrates, and the configuration. For the toy MEC model (`MECPXSec`): the
  integral built from a CCQE integral, the Jacobian rule, validity and
  constants. MEC stands for meson-exchange current; CCQE for
  charged-current quasi-elastic.
- **Interaction summary** (`Interactions`). It aggregates an initial state,
  process information, kinematics and an exclusive-channel tag, plus the
  bits that tell models to skip their checks.

Every foreign collaborator is a parameter of the model:

- the PDG library's masses and charges (`PdgCodes.PdgLibrary`);
- the decayer, the hadronizer and the phase-space generator;
- the random draws and the fragmentation function's z;
- the momentum, boost and rotation routines;
- `TMath::Sqrt`, `Gaus` and `Power`;
- the Jacobian, the PDF model, the integrator and the CCQE model.

The stages work on an `EventRecord` class whose methods change the entries,
flags and interaction in place. Each stage is a method with `modifies rec`
that is proved against a function of the old record. Its outcome is a
`StageOutcome`, which keeps two kinds of failure apart:

- an event failure, with a reason and fast-forward on;
- a fatal `assert`, `abort()` or `exit()`.

The cross-section logic is made of functions returning `Result`, where
`Abort` is an `abort()`, `exit()` or failed assertion.

Paths below are relative to the repository root.

## Model

| member | source | states |
|---|---|---|
| Interactions.FlagLayout | src/Interaction/Interaction.h:41-44 | The skip-process bit (1<<17) and the skip-kinematics bit (1<<16) are distinct single bits. The free-nucleon and free-electron names are the same bit, 1<<15, which overlaps neither skip bit. |
| Interactions.AssumeFlagsAlias | src/Interaction/Interaction.h:43-44 | Setting the free-nucleon bit makes the free-electron bit test true, and the two always test alike. |
| Interactions.SkipFlagsIndependent | src/Interaction/Interaction.h:41-42 | Setting one skip bit leaves the test of the other unchanged. |
| Interactions.Interaction.SetBit | src/Interaction/Interaction.h:41-44 | After the set, the flag tests true (when it is non-zero) and every bit that was set stays set. Only the bit word changes. |
| Interactions.Interaction.SetKine | src/Interaction/Interaction.h:67 | The kinematics are replaced and the other three owned parts, and the bits, are unchanged. |
| Interactions.Interaction.SetExclTag | src/Interaction/Interaction.h:68 | The exclusive tag is replaced and nothing else changes. |
| Interactions.QELCC | src/Interaction/Interaction.h:99 | The named constructor gives a quasi-elastic charged-current interaction with exactly the given target, hit nucleon, probe and energy, and no bits set. |
| Interactions.Kinematics.UseSelectedKinematics | src/EVGModules/DISPrimaryLeptonGenerator.cxx:56-63 | Afterwards every variable that has a selected value reads as that value, and every other variable reads as before; the selected values are kept. |
| Interactions.Kinematics.ClearRunningValues | src/EVGModules/DISPrimaryLeptonGenerator.cxx:100 | Afterwards every variable reads as unset; the selected values are kept. |
| Interactions.Kinematics.SetW | src/EVGModules/DISHadronicSystemGenerator.cxx:80-81 | W reads as the new value and every other variable as before. |
| Interactions.CharmTag | src/EVGModules/FragmentCharmDISGenerator.cxx:110-112 | The tag marks a charm event with the given hadron, and it is not inclusive charm when the code is non-zero. |
| PdgCodes.TruncToInt | src/EVGModules/FragmentCharmDISGenerator.cxx:162 | C++ `int()` truncates toward zero: the result is within one of x, on the side of zero. |
| GHep.KeptProducts | src/EVGModules/DISHadronicSystemGenerator.cxx:121-133 | The entries made from products are at most as many as the products, each with the given status and mother. |
| GHep.KeptProductsMembership | src/EVGModules/DISHadronicSystemGenerator.cxx:129-132 | An entry is among those kept exactly when some product with KS = 1 has its code and its boosted momentum. |
| GHep.KeptProductsExtremes | src/EVGModules/UnstableParticleDecayer.cxx:164-166 | If no product has KS = 1, nothing is appended. If all do, all are appended. |
| GHep.EventRecord.FinalStateHadronicSystemPosition | src/EVGModules/DISHadronicSystemGenerator.cxx:109 | The index of the first hadronic-system entry with the pre-fragmentation status. It is -1 exactly when there is no such entry. |
| GHep.FindEntry | src/EVGModules/FragmentCharmDISGenerator.cxx:219 | The result is the first matching index at or after the start, or -1 exactly when none matches. |
| GHep.FindEntryAppend | src/EVGModules/FragmentCharmDISGenerator.cxx:268-269 | Appending entries never changes the result of a search that already succeeded. |
| GHep.EventRecord.AddParticle | src/EVGModules/FragmentCharmDISGenerator.cxx:184-187 | One entry is appended and flags and interaction are unchanged. |
| GHep.EventRecord.SetStatus | src/EVGModules/UnstableParticleDecayer.cxx:91 | Only the status of entry k changes. |
| GHep.EventRecord.SetFlag | src/EVGModules/DISHadronicSystemGenerator.cxx:93 | The flag is added; entries and interaction are unchanged. |
| GHep.EventRecord.SetInteraction | src/EVGModules/FragmentCharmDISGenerator.cxx:112 | The interaction is replaced; entries and flags are unchanged. |
| HadronicSystemGenerator.RemnantEntries | src/EVGModules/DISHadronicSystemGenerator.cxx:62 | The target remnant contributes one entry when there is one, else none. |
| HadronicSystemGenerator.AddTargetNucleusRemnant | src/EVGModules/DISHadronicSystemGenerator.cxx:62 | Exactly the remnant entries are appended; nothing else changes. |
| HadronicSystemGenerator.AddFinalHadronicSyst | src/EVGModules/DISHadronicSystemGenerator.cxx:65 | Exactly the hadronic-system entry is appended; nothing else changes. |
| HadronicSystemGenerator.HadronicSystFound | src/EVGModules/DISHadronicSystemGenerator.cxx:109-110 | After the hadronic-system entry is appended, the search for it succeeds. |
| DISHadronicSystemGenerator.ProductStatus | src/EVGModules/DISHadronicSystemGenerator.cxx:117-119 | The product status is "hadron in the nucleus" iff the target is a nucleus, and "stable final state" iff it is not. |
| DISHadronicSystemGenerator.AddFragmentationProducts | src/EVGModules/DISHadronicSystemGenerator.cxx:71-137 | W is written into the kinematics before the hadronizer runs. With no product list: the no-phase-space flag is set, the outcome is the fast-forward event failure "Not enough phase space for hadronizer", and nothing is appended. With a list and no hadronic-system entry the assertion is fatal. Otherwise exactly the KS = 1 products are appended in order, as children of the hadronic system, with the target-dependent status. |
| DISHadronicSystemGenerator.ProcessEventRecord | src/EVGModules/DISHadronicSystemGenerator.cxx:56-69 | The record starts with the old entries, the remnant, then the hadronic system. The mother assertion is never reached. The event fails exactly when the hadronizer returns nothing, and otherwise the kept products follow the hadronic system. |
| UnstableParticleDecayer.Count | src/EVGModules/UnstableParticleDecayer.cxx:132 | The count is positive exactly when the code is in the list. |
| UnstableParticleDecayer.IsUnstable | src/EVGModules/UnstableParticleDecayer.cxx:113-138 | True iff the code is one of the ten listed (pi0, D+-, D0, anti-D0, Ds+-, Lambda_c+, Sigma_c+, Sigma_c++) or a baryon resonance; the lifetime test plays no part. |
| UnstableParticleDecayer.ToBeDecayed | src/EVGModules/UnstableParticleDecayer.cxx:105-111 | True iff the code is non-zero, the status is stable final state and the code is unstable. |
| UnstableParticleDecayer.DecayStep | src/EVGModules/UnstableParticleDecayer.cxx:67-100 | The record only grows and entries other than the visited one are untouched. If the entry is not to be decayed, or the decayer returns nothing, the record is unchanged. Otherwise only its status becomes decayed and the stable products follow, with it as mother. |
| UnstableParticleDecayer.DecayEntry | src/EVGModules/UnstableParticleDecayer.cxx:67-99 | The loop body leaves exactly the entries of one visit of the scan specification; flags and interaction are unchanged. |
| UnstableParticleDecayer.DecayScan | src/EVGModules/UnstableParticleDecayer.cxx:65-102 | Over the whole scan, the record only grows. Every old entry either is unchanged or was to be decayed and is now flagged decayed, and entries before the start are untouched. |
| UnstableParticleDecayer.StepAppendsDecayProducts | src/EVGModules/UnstableParticleDecayer.cxx:91-94 | After one visit, every entry from a given position on still has an earlier, decayed entry as mother. A parent stays decayed, and the new products point at the entry just decayed. |
| UnstableParticleDecayer.ScanAppendsDecayProducts | src/EVGModules/UnstableParticleDecayer.cxx:94 | Every appended entry has as mother an earlier entry that is flagged decayed, products of products included. |
| UnstableParticleDecayer.ScanKeepsMothersPrecede | src/EVGModules/UnstableParticleDecayer.cxx:100 | If every mother index pointed backwards before the scan, it still does after it. |
| UnstableParticleDecayer.CopyToEventRecord | src/EVGModules/UnstableParticleDecayer.cxx:140-168 | Exactly the products with stable final-state status are appended, in order, with the given mother; nothing else changes. |
| UnstableParticleDecayer.ProcessEventRecord | src/EVGModules/UnstableParticleDecayer.cxx:57-103 | The loop over the live record leaves exactly the entries of the scan specification. |
| DISPrimaryLeptonGenerator.Q2 | src/EVGModules/DISPrimaryLeptonGenerator.cxx:69 | Q^2 = 2xyMEv is non-negative for non-negative x, y, M and Ev, and 0 when x or y is 0. |
| DISPrimaryLeptonGenerator.W2 | src/EVGModules/DISPrimaryLeptonGenerator.cxx:70 | W^2 - M^2 + Q^2 = 2MEv y, the energy-transfer relation; at x = 1 (elastic) W^2 = M^2. |
| DISPrimaryLeptonGenerator.LeptonEnergy | src/EVGModules/DISPrimaryLeptonGenerator.cxx:69-73 | The lepton energy Ev - (W^2 - M^2 + Q^2)/2M, with Q^2 = 2xyMEv and W^2 = M^2 + 2MEvy(1-x), equals Ev(1 - y). |
| DISPrimaryLeptonGenerator.LeptonMomentum2 | src/EVGModules/DISPrimaryLeptonGenerator.cxx:76 | max(0, El^2 - ml^2) is never negative and is positive iff El^2 > ml^2. |
| DISPrimaryLeptonGenerator.MomentumAssertion | src/EVGModules/DISPrimaryLeptonGenerator.cxx:76-77 | The assertion pl > 0 holds iff El^2 > ml^2. |
| DISPrimaryLeptonGenerator.CosineAssertion | src/EVGModules/DISPrimaryLeptonGenerator.cxx:78-79 | For pl > 0, the assertion abs(num/pl) <= 1 holds iff num^2 <= pl^2. |
| DISPrimaryLeptonGenerator.ProcessEventRecord | src/EVGModules/DISPrimaryLeptonGenerator.cxx:43-101 | The stage completes iff El^2 > ml^2 and the cosine lies in [-1, 1], where El and the cosine come from the selected x and y. On completion exactly one lepton entry with the final-state lepton code is appended, and the kinematics are switched to the selected values with running values cleared. On a failed assertion nothing is appended. |
| FragmentCharmDISGenerator.LoadConfig | src/EVGModules/FragmentCharmDISGenerator.cxx:355-368 | The pT^2 scale is the configured value or 0.6. Charm-only mode is on iff it is configured true. |
| FragmentCharmDISGenerator.CharmedHadronPdgCode | src/EVGModules/FragmentCharmDISGenerator.cxx:298-328 | The code is always one of 421, 411, 431, 4122. It is D0 iff the draw is at most the first edge, D+ iff it is in the second band, Ds+ iff in the third, and Lambda_c+ above. |
| FragmentCharmDISGenerator.CharmFractionEdgesOrdered | src/EVGModules/FragmentCharmDISGenerator.cxx:309-326 | The edges (0.32/0.37/0.55, 0.50/0.60/0.82, 0.64/0.86/0.95) are strictly increasing inside (0, 1), so the four bands partition the draws. |
| FragmentCharmDISGenerator.ChoiceAt | src/EVGModules/FragmentCharmDISGenerator.cxx:96-102 | A try's code comes from the table at that try's draw, and its mass is the library mass of that code. |
| FragmentCharmDISGenerator.FirstAccepted | src/EVGModules/FragmentCharmDISGenerator.cxx:94-106 | The result is the first accepted try below 1000 (m <= MHad and (z EHad)^2 - m^2 >= 0), with every earlier try rejected; or none, when all 1000 are rejected. |
| FragmentCharmDISGenerator.SelectCharmHadron | src/EVGModules/FragmentCharmDISGenerator.cxx:91-107 | The loop succeeds iff some try below 1000 is accepted, and then returns the first accepted try. Otherwise the assertion aborts. |
| FragmentCharmDISGenerator.FirstWithin | src/EVGModules/FragmentCharmDISGenerator.cxx:338 | The first draw within the bound, with all earlier draws above it. |
| FragmentCharmDISGenerator.GeneratePT2 | src/EVGModules/FragmentCharmDISGenerator.cxx:330-341 | The rejection loop returns a value at most pT2max. It is the starting value when that is already within the bound, else the first draw within it. |
| FragmentCharmDISGenerator.GenerateCharmHadronOnly | src/EVGModules/FragmentCharmDISGenerator.cxx:73-190 | The returned boolean or abort, the entries and the interaction are those of the charm-attempt specification. Flags are unchanged. |
| FragmentCharmDISGenerator.AddCharmHadron | src/EVGModules/FragmentCharmDISGenerator.cxx:152-189 | After the hadron is chosen: false with nothing appended when remnants count and the remnant mass is too small; an abort without a hadronic-system entry; else the charm hadron and then the pdg-0 remnant, both stable and children of the hadronic system. |
| FragmentCharmDISGenerator.AddedCharmHadron | src/EVGModules/FragmentCharmDISGenerator.cxx:153-156 | An added charm hadron has one of the four table codes, a mass at most MHad, and the hadronic system as mother. Charm plus remnant equals the hadronic 4-momentum component by component. |
| FragmentCharmDISGenerator.TooLightExactly | src/EVGModules/FragmentCharmDISGenerator.cxx:160-176 | An attempt is short of mass iff remnants are not ignored and the remnant mass squared is below (max(2, qremn) m_pi)^2. With remnants ignored it never returns false. |
| FragmentCharmDISGenerator.PionCodes | src/EVGModules/FragmentCharmDISGenerator.cxx:235-247 | There are max(2, q) pion codes; the first abs(q) carry the sign of q and the rest are neutral. |
| FragmentCharmDISGenerator.AssignPionCodes | src/EVGModules/FragmentCharmDISGenerator.cxx:242-247 | The loop that moves qremn toward 0 fills a fresh array with exactly those codes. |
| FragmentCharmDISGenerator.PrefixCharge | src/EVGModules/FragmentCharmDISGenerator.cxx:243-247 | The first n pions carry the charge assigned so far, q minus what is left. |
| FragmentCharmDISGenerator.PionChargeBalance | src/EVGModules/FragmentCharmDISGenerator.cxx:235-247 | The pions carry total charge q when q >= -2, and -2 below that. So they balance the remnant charge iff q >= -2. |
| FragmentCharmDISGenerator.Masses | src/EVGModules/FragmentCharmDISGenerator.cxx:248-251 | mass[i] is the library mass of code i. |
| FragmentCharmDISGenerator.FillMasses | src/EVGModules/FragmentCharmDISGenerator.cxx:248-251 | The mass loop fills a fresh array with exactly the library masses of the codes. |
| FragmentCharmDISGenerator.PionEntries | src/EVGModules/FragmentCharmDISGenerator.cxx:273-287 | There is one stable entry per code, in code order, child of the hadronic system, with the i-th generated momentum. |
| FragmentCharmDISGenerator.AppendPions | src/EVGModules/FragmentCharmDISGenerator.cxx:273-287 | The loop appends exactly the pion entries, in order, and nothing else changes. |
| FragmentCharmDISGenerator.AddRemnantHadrons | src/EVGModules/FragmentCharmDISGenerator.cxx:204-295 | The stage completes iff the remnant specification succeeds: entry 5 exists, a stable pdg-0 entry exists, phase space permits the decay, and the hadronic system exists. The record is then exactly that specification's entries; otherwise it is unchanged. |
| FragmentCharmDISGenerator.FirstNotTooLight | src/EVGModules/FragmentCharmDISGenerator.cxx:198-202 | The retry loop stops at the first attempt that is not short of mass. An attempt short of mass can only be the last allowed one. |
| FragmentCharmDISGenerator.GenerateHadronicSystem | src/EVGModules/FragmentCharmDISGenerator.cxx:192-296 | The stage completes iff the hadronic-system specification succeeds, and then the entries are that specification's and the interaction is tagged with the final attempt's hadron. Without an added charm hadron the entries are unchanged. Flags are unchanged. |
| FragmentCharmDISGenerator.SecondHadSystSearchSucceeds | src/EVGModules/FragmentCharmDISGenerator.cxx:268-269 | After an added attempt, the second `mom != -1` assertion never fails. |
| FragmentCharmDISGenerator.FreshRemnantFound | src/EVGModules/FragmentCharmDISGenerator.cxx:219 | On a record with no stable pdg-0 entry of its own, the remnant search finds the void entry just appended. |
| FragmentCharmDISGenerator.RemnantLayout | src/EVGModules/FragmentCharmDISGenerator.cxx:273-291 | After an added attempt, the pions follow the remnant, and the remnant alone is re-flagged as pre-fragmentation state, in place. |
| FragmentCharmDISGenerator.HadronicSystemLayout | src/EVGModules/FragmentCharmDISGenerator.cxx:192-296 | On success the record is the old entries, the charm hadron, the re-flagged remnant, then the pions, all children of the hadronic system. With the charm hadron at position 5, the total charge is conserved iff the remnant charge is at least -2. |
| FragmentCharmDISGenerator.ProcessEventRecord | src/EVGModules/FragmentCharmDISGenerator.cxx:57-71 | First the target remnant, then the hadronic system, then the charm part. In charm-only mode the stage is fatal exactly when no hadron was accepted, and it leaves the attempt's entries and interaction. Otherwise it completes iff the hadronic-system specification succeeds. On success it leaves that specification's entries and tags the interaction with the final attempt's hadron. When the final attempt adds no hadron the entries are the remnant and the hadronic system only. |
| MECPXSec.LoadConfig | src/MEC/MECPXSec.cxx:184-192 | Mq2d = 0.5, mass = 2.1, width = 0.3, Ec = 0.4, CCQE fraction = 0.1. |
| MECPXSec.LoadConfigIgnoresRegistry | src/MEC/MECPXSec.cxx:188-192 | No registry content changes the configuration. |
| MECPXSec.XSec | src/MEC/MECPXSec.cxx:55-105 | The value is Gaus(W) times (1 + Q^2/Mq2d)^-1.5. It is multiplied by the Jacobian exactly when the phase space is not (W, Q^2). |
| MECPXSec.JacobianOnlyWhenNeeded | src/MEC/MECPXSec.cxx:93-102 | The value in (W, Q^2) does not depend on the Jacobian routine. Any other phase space gives that value times the Jacobian. |
| MECPXSec.ResetNucleon | src/MEC/MECPXSec.cxx:125-139 | A nucleon is chosen iff the probe is a neutrino or an antineutrino: a neutron iff a neutrino, a proton iff an antineutrino. |
| MECPXSec.CombinatorialFactor | src/MEC/MECPXSec.cxx:150-153 | (A - 1)/2 is 0 iff A = 1, and positive for A > 1. |
| MECPXSec.Integral | src/MEC/MECPXSec.cxx:107-160 | 0 for non-CC interactions. For CC it is defined iff the probe is a neutrino or an antineutrino; any other probe exits. |
| MECPXSec.IntegralFromCCQE | src/MEC/MECPXSec.cxx:128-153 | For a CC neutrino: the CCQE integral of a QE CC interaction on the same target, probe and energy with a neutron hit nucleon, times the fraction, times (A - 1)/2. |
| MECPXSec.AntiNeutrinoIntegralFromCCQE | src/MEC/MECPXSec.cxx:133-153 | The same for a CC antineutrino, with a proton hit nucleon. |
| MECPXSec.NoPairNoIntegral | src/MEC/MECPXSec.cxx:152-153 | On a single-nucleon target the integral is 0 whatever the CCQE model returns. |
| MECPXSec.IntegralNonNegative | src/MEC/MECPXSec.cxx:145-153 | With a non-negative CCQE model and A >= 1 the integral is never negative. |
| MECPXSec.ValidProcess | src/MEC/MECPXSec.cxx:162-170 | Any process is valid with the skip bit. Without it, only a meson-exchange process is valid. |
| MECPXSec.ValidProcessExactly | src/MEC/MECPXSec.cxx:162-170 | Valid iff the skip bit is set or the process is MEC; setting the skip bit makes any process valid. |
| KovalenkoQELCharmPXSec.LoadConfigDataAsWritten | src/Charm/KovalenkoQELCharmPXSec.cxx:361-382 | As written, the configuration loads iff the "Q2max" value is below the prior upper bound and nbins > 1. The lower bound is then the "Q2max" value and the upper bound the prior one. |
| KovalenkoQELCharmPXSec.LoadConfigData | src/Charm/KovalenkoQELCharmPXSec.cxx:361-382 | As intended, it loads iff Q2min < Q2max and nbins > 1, each read with its default (-999999, 999999, 201). The bounds and nbins are those values. |
| KovalenkoQELCharmPXSec.DefaultConfig | src/Charm/KovalenkoQELCharmPXSec.cxx:364-380 | With nothing configured: 2.07, 0.71, 1.42, 0.56, 0.20, 0.1, the window (-999999, 999999) and 201 points. |
| KovalenkoQELCharmPXSec.ResDM | src/Charm/KovalenkoQELCharmPXSec.cxx:207-227 | Defined iff the hadron is Lambda_c+, Sigma_c+ or Sigma_c++. The Lambda value for Lambda_c+, the Sigma value for both Sigma_c; abort otherwise. |
| KovalenkoQELCharmPXSec.SumF2 | src/Charm/KovalenkoQELCharmPXSec.cxx:264-283 | Defined iff (Lambda_c+, n), (Sigma_c+, n) or (Sigma_c++, p), with that channel's value; abort otherwise. |
| KovalenkoQELCharmPXSec.ValidProcess | src/Charm/KovalenkoQELCharmPXSec.cxx:285-317 | Any process is valid with the skip bit. Without it, a valid process is exclusive charm, quasi-elastic and weak, in one of three channels: Sigma_c++ on a proton, or Lambda_c+ or Sigma_c+ on a neutron. Every such process is valid. |
| KovalenkoQELCharmPXSec.MRes | src/Charm/KovalenkoQELCharmPXSec.cxx:228-236 | The library mass of the charm hadron that the exclusive tag names. |
| KovalenkoQELCharmPXSec.ValidKinematics | src/Charm/KovalenkoQELCharmPXSec.cxx:319-345 | Any kinematics are valid with the skip bit. Without it, they are valid iff Q2min < Q^2 < Q2max and the probe energy is strictly above the threshold ER. |
| KovalenkoQELCharmPXSec.ValidProcessNeverAborts | src/Charm/KovalenkoQELCharmPXSec.cxx:285-317 | Without the skip bit, a valid process is one of the three channels and neither ResDM nor SumF2 aborts on it. |
| KovalenkoQELCharmPXSec.SumF2DefinedMeansValid | src/Charm/KovalenkoQELCharmPXSec.cxx:300-316 | Conversely, an exclusive-charm QE weak process on which SumF2 is defined is valid. |
| KovalenkoQELCharmPXSec.VRMinus | src/Charm/KovalenkoQELCharmPXSec.cxx:238-249 | Defined iff ResDM is. |
| KovalenkoQELCharmPXSec.VRPlus | src/Charm/KovalenkoQELCharmPXSec.cxx:251-262 | Defined iff ResDM is. |
| KovalenkoQELCharmPXSec.VRMinusBelowPlus | src/Charm/KovalenkoQELCharmPXSec.cxx:238-262 | vR_plus - vR_minus = 2 MR dR / MN, so vR_minus <= vR_plus iff MR dR >= 0. |
| KovalenkoQELCharmPXSec.ThresholdMeaning | src/Charm/KovalenkoQELCharmPXSec.cxx:338-342 | E > ER iff MN^2 + 2 MN E > (MR + ml)^2, that is, the probe is above the production threshold. |
| KovalenkoQELCharmPXSec.ValidKinematicsExactly | src/Charm/KovalenkoQELCharmPXSec.cxx:319-345 | Without the skip bit, the kinematics are valid iff Q2min < Q^2 < Q2max and the probe is above threshold. |
| KovalenkoQELCharmPXSec.AsWrittenWindowRejects | src/Charm/KovalenkoQELCharmPXSec.cxx:375-378 | As written, with "Q2max" absent, no Q^2 up to 999999 passes the kinematic check, whatever "Q2min" says. |
| KovalenkoQELCharmPXSec.AsWrittenRejectsOneGeV2 | src/Charm/KovalenkoQELCharmPXSec.cxx:375-376 | With an empty registry and Q^2 = 1, above threshold, the intended configuration accepts the point. The as-written configuration rejects it whenever it loads, that is, whenever the never-assigned upper bound exceeds 999999. |
| KovalenkoQELCharmPXSec.GridEnds | src/Charm/KovalenkoQELCharmPXSec.cxx:152-153 | The grid of n points runs from its first bound to its second with a constant step. |
| KovalenkoQELCharmPXSec.EvaluationPointAsWritten | src/Charm/KovalenkoQELCharmPXSec.cxx:160-167 | As written, the point for index i is 2 xi+ minus grid point i, the mirror image of grid point i about xi+. |
| KovalenkoQELCharmPXSec.EvaluationPointMirrored | src/Charm/KovalenkoQELCharmPXSec.cxx:160-167 | As written, the densities for index i are taken at the mirror image of grid point i about xi+. That matches the grid point iff i = 0 or the interval is empty. |
| KovalenkoQELCharmPXSec.ThreePointExample | src/Charm/KovalenkoQELCharmPXSec.cxx:160-167 | With xi+ = 0.2, xi- = 0.4 and 3 points, the as-written points are 0.1 and 0.0 where the grid has 0.3 and 0.4. |
| KovalenkoQELCharmPXSec.SampledMap | src/Charm/KovalenkoQELCharmPXSec.cxx:164-182 | The map has n points. Point i holds the value at start + i step: 0 outside [0, 1], else the d-quark densities for a proton and the u-quark densities for a neutron, at Q^2 = 0 when normalising. |
| KovalenkoQELCharmPXSec.DRMap | src/Charm/KovalenkoQELCharmPXSec.cxx:153-182 | With the intended step, point i holds the value at grid point i of the grid from xi+ to xi-. |
| KovalenkoQELCharmPXSec.DRMapAsWritten | src/Charm/KovalenkoQELCharmPXSec.cxx:160-182 | As written, point i holds the value at xi+ + i (xi+ - xi-)/(n - 1). |
| KovalenkoQELCharmPXSec.DRMapAsWrittenMirrored | src/Charm/KovalenkoQELCharmPXSec.cxx:153-167 | As written, point i holds the value at the mirror image of grid point i about xi+. The as-written and intended maps are equal when the interval is empty. |
| KovalenkoQELCharmPXSec.ThreePointMapExample | src/Charm/KovalenkoQELCharmPXSec.cxx:160-175 | With xi+ = 0.2, xi- = 0.4, 3 points and a neutron density equal to x, the as-written map is [0.2, 0.1, 0.0] and the intended one [0.2, 0.3, 0.4]. |
| KovalenkoQELCharmPXSec.ProtonIsRotatedNeutron | src/Charm/KovalenkoQELCharmPXSec.cxx:162-175 | The proton map is the neutron map of the densities with up and down exchanged. |
| KovalenkoQELCharmPXSec.DRMapSupport | src/Charm/KovalenkoQELCharmPXSec.cxx:169-172 | Points outside [0, 1] hold 0 whatever the densities, and the normalised map does not depend on Q^2. |
| KovalenkoQELCharmPXSec.SampleDensities | src/Charm/KovalenkoQELCharmPXSec.cxx:164-182 | The loop fills a fresh array equal to the sampled map for the given start and step. |
| KovalenkoQELCharmPXSec.FillFunctionMap | src/Charm/KovalenkoQELCharmPXSec.cxx:155-182 | With the intended step (xi- - xi+)/(n - 1), the filled array is the map over the grid from xi+ to xi-. |
| KovalenkoQELCharmPXSec.FillFunctionMapAsWritten | src/Charm/KovalenkoQELCharmPXSec.cxx:155-182 | With the step of line 160, (xi+ - xi-)/(n - 1), the filled array is the as-written map. |
| KovalenkoQELCharmPXSec.DR | src/Charm/KovalenkoQELCharmPXSec.cxx:123-187 | The intended D^R. It is defined iff ResDM is. Its value is the integrator applied to the grid from xiBar(vR_plus) to xiBar(vR_minus), with nbins points, and to the intended map on that grid, for the hit nucleon's isospin. |
| KovalenkoQELCharmPXSec.DRAsWritten | src/Charm/KovalenkoQELCharmPXSec.cxx:123-187 | As written, the same, except that the integrator gets the as-written map on the same grid. |
| KovalenkoQELCharmPXSec.XSec | src/Charm/KovalenkoQELCharmPXSec.cxx:70-76 | 0 whenever the process or the kinematics are invalid. |
| KovalenkoQELCharmPXSec.XSecConsultsDynamicsOnlyWhenValid | src/Charm/KovalenkoQELCharmPXSec.cxx:74-75 | The dynamical part is consulted only when both checks pass. With both skip bits set it always is. |

## Left out

- Logging, ROOT container and memory management (`Delete`, `delete`), and the algorithm factory and sub-algorithm lookups (`SubAlg`, `LoadSubAlg`, the `assert`s on their results) are not modelled.
- Floating point is not modelled: every quantity is an exact real.
- The physics formulas of `XSec`, `ZR` and `xiBar` of the Kovalenko model are left out. `xiBar`, the dynamical part and the integrator are parameters.
- KovalenkoQELCharmPXSec.XSec: the value on valid input is an opaque `dynamics(i)`, because the formula involves the foreign PDF model and integrator.
- The MEC `XSec` takes `Gaus`, `Power` and the Jacobian as parameters. Its commented-out validity checks are absent, in the model as in the code.
- The momentum routines are parameters: `TGenPhaseSpace`, `RotateUz`, the Lorentz boosts, `P4InNucRestFrame` / `NucRestFrame2Lab`, and `TLorentzVector::M()`.
- Randomness is a parameter, as indexed draws: `RandomGen`, `TF1::GetRandom` and the fragmentation function's `GenerateZ`.
- FragmentCharmDISGenerator.GeneratePT2: the precondition that draw K is within pT2max stands for the termination of the loop at line 338. For pT2max < 0 the source loops forever, because the draws lie in [0, sqrt|pT2max|]. The only call, at line 120, passes p^2 >= 0, so that case is not reached.
- FragmentCharmDISGenerator.GenerateCharmHadronOnly: the charm 3-momentum is a parameter of the draws and is not computed through `GeneratePT2`, the azimuth and the rotation. `GeneratePT2` is modelled on its own.
- FragmentCharmDISGenerator.HadronicSystemLayout: charge balance is stated for a record whose entry 5 is the charm hadron. The source reads `Particle(5)` unconditionally, and the model keeps that reading.
- UnstableParticleDecayer.ProcessEventRecord: the scan visits at most `fuel` positions, so it terminates. With enough fuel it is the source's unbounded loop over a record that may keep growing.
- Unstable-particle lifetimes are not modelled. The lifetime comparison in `IsUnstable` has an empty branch, and its configured maximum lifetime (default 1e-10) is read but never used.
- DISPrimaryLeptonGenerator.ProcessEventRecord: `TMath::Sqrt` is known only by its sign (non-negative, and positive iff its argument is). The lepton's polarization (`SetPolarization`) is not modelled. The struck-nucleon mass M must be non-zero, because at M = 0 the lepton energy at line 73 is 0/0 (a NaN path in double precision) and real division has no such value.
- The struck-nucleon mass, lepton mass, pion mass and nucleon mass are parameters.
- Target.h, Kinematics.h, InitialState.h, GHepRecord, PDGCodes and Constants.h are not part of this model. Their types are modelled from the way the stages use them. That includes the `GHep.EventRecord` class, which keeps each entry's mother but not its daughter links.
- Base-class helpers are parameters or are modelled from their names:
  - `HadronicSystemGenerator::AddTargetNucleusRemnant` (the remnant entry is a parameter);
  - `AddFinalHadronicSyst`;
  - `Hadronic4pLAB` (the hadronic 4-momentum `ctx.p4Had`);
  - `HadronShowerCharge` (`ctx.qhs`);
  - `PrimaryLeptonGenerator::AddToEventRecord`, whose lepton mother is the parameter `probePos`.
- The grid of `UnifGrid` is taken to run evenly from its first bound to its second, since UnifGrid is not part of this model.
- The integrator of `DR` (`fIntegrator->Integrate`) is a parameter. It receives the grid's bounds, its number of points and the map's values.
- Interactions.Kinematics.UseSelectedKinematics, Interactions.Kinematics.ClearRunningValues and Interactions.Kinematics.SetW are modelled from their names and from how the stages use them, because Kinematics.h is not part of this model.
- `Interaction` is a value, so its const and `Ptr` accessors cannot alias. `Reset`, `Copy`, `AsString`, `Print`, the other named constructors and `EnergyThreshold` are not modelled; their bodies are not in the source.
- Probe energies are taken as given in the frame the code asks for. Reference-frame conversion is not modelled.
- The event-exception object is modelled by its reason and fast-forward switch only.

## Findings

| source | as written | input that shows it | evidently intended | confidence | as-written member | corrected member |
|---|---|---|---|---|---|---|
| src/Charm/KovalenkoQELCharmPXSec.cxx:375-376 | The "Q2max" value is stored into the lower bound, overwriting "Q2min", and the upper bound is never assigned | empty registry, Q^2 = 1 GeV^2 above threshold: the lower bound becomes 999999. Provided the never-assigned fQ2max exceeds 999999, the point is rejected; otherwise the assertion at line 378 aborts the configuration | the lower bound from "Q2min" and the upper bound from "Q2max" | not executed; high | KovalenkoQELCharmPXSec.LoadConfigDataAsWritten | KovalenkoQELCharmPXSec.LoadConfigData |
| src/Charm/KovalenkoQELCharmPXSec.cxx:160 | The evaluation step is (xi+ - xi-)/(n - 1), the negative of the step of the grid from xi+ to xi- built at line 153 | xi+ = 0.2, xi- = 0.4, n = 3: densities taken at 0.2, 0.1, 0.0 for grid points 0.2, 0.3, 0.4 | the step (xi- - xi+)/(n - 1), so each value sits at its grid point | not executed; medium | KovalenkoQELCharmPXSec.DRAsWritten | KovalenkoQELCharmPXSec.DR |
