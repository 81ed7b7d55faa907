/**
 * The slotted departure estimates.  Each estimator sums, over the users
 * currently in service, the tabulated probability that a user who has been
 * in the system for t seconds departs within the next five minutes, looked
 * up in slot t / 300 of a 96-slot table covering the first eight hours.
 */
module Departure {
  import opened Wrappers
  import opened Numeric

  /** The gamma-fit departure table (GammaDeparture), one row of twelve slots per hour. */
  const GammaHour1: seq<real> :=
    [ 0.045049231818548634, 0.05066505639066426, 0.05072477399184465, 0.04949755864427831,
      0.047713578767771984, 0.04566400428020913, 0.043495077745995696, 0.041289340561019836,
      0.03909651074129541, 0.036947580467831684, 0.03486208616336873, 0.032852199935571626 ]

  const GammaHour2: seq<real> :=
    [ 0.03092518824911926, 0.029084966287112417, 0.02733312069235078, 0.025669604311499644,
      0.02409322034698482, 0.022601966722532934, 0.021193285023312577, 0.01986424272654744,
      0.01861166784416786, 0.01743224902808574, 0.016322610239744108, 0.015279366453420477 ]

  const GammaHour3: seq<real> :=
    [ 0.01429916506964607, 0.013378716469502344, 0.012514816259974082, 0.01170436112807305,
      0.010944359760639462, 0.010231939946608063, 0.009564352724517939, 0.00893897424631365,
      0.008353305882360555, 0.007804972980249068, 0.007291722602903653, 0.006811420503564533 ]

  const GammaHour4: seq<real> :=
    [ 0.0063620475418428215, 0.005941695702892934, 0.0055485638482790966, 0.005180953300426871,
      0.0048372633411917125, 0.004515986687927317, 0.004215704996631841, 0.003935084430616046,
      0.0036728713241456433, 0.0034278879632431117, 0.0031990284999621954, 0.0029852550117065424 ]

  const GammaHour5: seq<real> :=
    [ 0.002785593713341501, 0.002599131326775649, 0.0024250116102272727, 0.002262432047431205,
      0.0021106406954906525, 0.001968933188864327, 0.0018366498960398895, 0.0017131732247306552,
      0.0015979250709034303, 0.0014903644065666429, 0.0013899850009923482, 0.0012963132698898892 ]

  const GammaHour6: seq<real> :=
    [ 0.0012089062469741224, 0.0011273496723610583, 0.0010512561922659056, 0.0009802636645615012,
      0.000914033564870379, 0.0008522494880036548, 0.0007946157397183289, 0.000740856013936644,
      0.0006907121507523758, 0.0006439429707361686, 0.0006003231812424103, 0.0005596423506113042 ]

  const GammaHour7: seq<real> :=
    [ 0.0005217039463500837, 0.0004863244335651504, 0.000453332430101176, 0.00042256791502301287,
      0.0003938814872508809, 0.0003671336713282938, 0.0003421942674650922, 0.00031894174315463505,
      0.00029726266381443345, 0.00027705116004325567, 0.0002582084292250433, 0.0002406422693407945 ]

  const GammaHour8: seq<real> :=
    [ 0.00022426664297415237, 0.00020900126961475985, 0.00019477124447579003, 0.00018150668214854,
      0.00016914238351781945, 0.00015761752445726828, 0.0001468753649138945, 0.00013686297707630172,
      0.00012753099140142812, 0.00011883335935040933, 0.00011072713175561128, 0.00010317225180814708 ]

  const GammaSlots: seq<real> :=
    GammaHour1 + GammaHour2 + GammaHour3 + GammaHour4 + GammaHour5 + GammaHour6 + GammaHour7 + GammaHour8

  /** The synthetic gamma(24, 5) table (GammaAlpha24Beta5Departure), one row of twelve slots per hour. */
  const SyntheticHour1: seq<real> :=
    [ 0.9999999599056155, 0.00000004544428027505281, 0.000000000000000000000000002626778814530667, 0.00000000000000000000000000000000000000000000000024104744371510626,
      0.0000000000000000000000000000000000000000000000000000000000000000000000015272980954811043, 0.0000000000000000000000000000000000000000000000000000000000000000000000000000000000000000000000022230864600878693, 0.0000000000000000000000000000000000000000000000000000000000000000000000000000000000000000000000000000000000000000000000012736883902207908, 0.0000000000000000000000000000000000000000000000000000000000000000000000000000000000000000000000000000000000000000000000000000000000000000000000003831447164455917,
      0.00000000000000000000000000000000000000000000000000000000000000000000000000000000000000000000000000000000000000000000000000000000000000000000000000000000000000000000000007189139965749505, 0.000000000000000000000000000000000000000000000000000000000000000000000000000000000000000000000000000000000000000000000000000000000000000000000000000000000000000000000000000000000000000000000000009404323586092787, 0.0000000000000000000000000000000000000000000000000000000000000000000000000000000000000000000000000000000000000000000000000000000000000000000000000000000000000000000000000000000000000000000000000000000000000000000000000009254200297810214, 0.00000000000000000000000000000000000000000000000000000000000000000000000000000000000000000000000000000000000000000000000000000000000000000000000000000000000000000000000000000000000000000000000000000000000000000000000000000000000000000000000000007232395623883432 ]

  const SyntheticHour2: seq<real> :=
    [ 0.000000000000000000000000000000000000000000000000000000000000000000000000000000000000000000000000000000000000000000000000000000000000000000000000000000000000000000000000000000000000000000000000000000000000000000000000000000000000000000000000000000000000000000000000000004672734569037646, 0.0000000000000000000000000000000000000000000000000000000000000000000000000000000000000000000000000000000000000000000000000000000000000000000000000000000000000000000000000000000000000000000000000000000000000000000000000000000000000000000000000000000000000000000000000000000000000000000000000000002572976120842042, 0.000000000000000000000000000000000000000000000000000000000000000000000000000000000000000000000000000000000000000000000000000000000000000000000000000000000000000000000000000000000000000000000000000000000000000000000000000000000000000000000000000000000000000000000000000000000000000000000000000000000000000000000000000000012366, 0.0,
      0.0, 0.0, 0.0, 0.0,
      0.0, 0.0, 0.0, 0.0 ]

  const SyntheticHour3: seq<real> :=
    [ 0.0, 0.0, 0.0, 0.0,
      0.0, 0.0, 0.0, 0.0,
      0.0, 0.0, 0.0, 0.0 ]

  const SyntheticHour4: seq<real> :=
    [ 0.0, 0.0, 0.0, 0.0,
      0.0, 0.0, 0.0, 0.0,
      0.0, 0.0, 0.0, 0.0 ]

  const SyntheticHour5: seq<real> :=
    [ 0.0, 0.0, 0.0, 0.0,
      0.0, 0.0, 0.0, 0.0,
      0.0, 0.0, 0.0, 0.0 ]

  const SyntheticHour6: seq<real> :=
    [ 0.0, 0.0, 0.0, 0.0,
      0.0, 0.0, 0.0, 0.0,
      0.0, 0.0, 0.0, 0.0 ]

  const SyntheticHour7: seq<real> :=
    [ 0.0, 0.0, 0.0, 0.0,
      0.0, 0.0, 0.0, 0.0,
      0.0, 0.0, 0.0, 0.0 ]

  const SyntheticHour8: seq<real> :=
    [ 0.0, 0.0, 0.0, 0.0,
      0.0, 0.0, 0.0, 0.0,
      0.0, 0.0, 0.0, 0.0 ]

  const SyntheticSlots: seq<real> :=
    SyntheticHour1 + SyntheticHour2 + SyntheticHour3 + SyntheticHour4 + SyntheticHour5 + SyntheticHour6 + SyntheticHour7 + SyntheticHour8

  /** The empirical table of the first half of 2008 (EmpiricalDeparture), one row of twelve slots per hour. */
  const EmpiricalHour1: seq<real> :=
    [ 0.04574924074353286, 0.030564111400693563, 0.03293342236198764, 0.06907618411700088,
      0.05677730630882891, 0.061634393779481766, 0.056454218450470633, 0.04332608180584574,
      0.035647360372197213, 0.0317487668813406, 0.030833351282658798, 0.03116720873629569 ]

  const EmpiricalHour2: seq<real> :=
    [ 0.05175867490899692, 0.044499967691214164, 0.03784435780903354, 0.014452796863893854,
      0.014032782648028087, 0.014054321838585305, 0.014097400219699744, 0.013128136644624895,
      0.012363495379843626, 0.011760398044241498, 0.011760398044241498, 0.013149675835182114 ]

  const EmpiricalHour3: seq<real> :=
    [ 0.022766924418980334, 0.0182760031878002, 0.015314364486182609, 0.005492493592090809,
      0.005363258448747496, 0.0049217050423245095, 0.005610959140155513, 0.005029400995110604,
      0.004900165851767291, 0.004630925969802055, 0.0042755293256079435, 0.00396321106252827 ]

  const EmpiricalHour4: seq<real> :=
    [ 0.005190944924289745, 0.0047924698989811965, 0.0043616860878368195, 0.003489348870269455,
      0.0033708833222047515, 0.003080104249682297, 0.0030908738449609064, 0.0030908738449609064,
      0.003166261011911172, 0.0032631873694186574, 0.003920132681413832, 0.005858659831563529 ]

  const EmpiricalHour5: seq<real> :=
    [ 0.019923751265427444, 0.016682103086566008, 0.01568053072565533, 0.0008938764081245827,
      0.0006138669308807375, 0.00048463178753742434, 0.0008077196458957073, 0.0006461757167165658,
      0.0007000236931096129, 0.0005815581450449092, 0.0006461757167165658, 0.0007000236931096129 ]

  const EmpiricalHour6: seq<real> :=
    [ 0.0018523703879208219, 0.0014862041484481013, 0.0016262088870700239, 0.0005492493592090809,
      0.0003661662394727206, 0.0004307838111443772, 0.0008938764081245827, 0.0009692635750748487,
      0.0008077196458957073, 0.0010661899325823336, 0.001055420337303724, 0.0010123419561892863 ]

  const EmpiricalHour7: seq<real> :=
    [ 0.00045232300170159603, 0.0001400047386219226, 0.00023693109612940745, 0.00009692635750748487,
      0.000075387166950266, 0.0001076959527860943, 0.00006461757167165658, 0.00006461757167165658,
      0.00006461757167165658, 0.00003230878583582829, 0.00006461757167165658, 0.0001830831197363603 ]

  const EmpiricalHour8: seq<real> :=
    [ 0.0002907790725224546, 0.0002477006914080169, 0.00019385271501496973, 0.0001076959527860943,
      0.0001076959527860943, 0.00004307838111443772, 0.0001076959527860943, 0.00006461757167165658,
      0.000075387166950266, 0.00009692635750748487, 0.00020462231029357917, 0.00034462704891550177 ]

  const EmpiricalSlots: seq<real> :=
    EmpiricalHour1 + EmpiricalHour2 + EmpiricalHour3 + EmpiricalHour4 + EmpiricalHour5 + EmpiricalHour6 + EmpiricalHour7 + EmpiricalHour8

  const SlotLength: int := 300

  predicate NonNegative(s: seq<real>) {
    forall i :: 0 <= i < |s| ==> s[i] >= 0.0
  }

  lemma NonNegativeAppend(a: seq<real>, b: seq<real>)
    requires NonNegative(a) && NonNegative(b)
    ensures NonNegative(a + b)
  {
    forall i | 0 <= i < |a + b|
      ensures (a + b)[i] >= 0.0
    {
      if i >= |a| {
        assert (a + b)[i] == b[i - |a|];
      }
    }
  }

  /** Eight hourly rows of twelve non-negative slots make a non-negative eight-hour table. */
  lemma EightHours(h1: seq<real>, h2: seq<real>, h3: seq<real>, h4: seq<real>,
                   h5: seq<real>, h6: seq<real>, h7: seq<real>, h8: seq<real>)
    requires NonNegative(h1) && NonNegative(h2) && NonNegative(h3) && NonNegative(h4)
    requires NonNegative(h5) && NonNegative(h6) && NonNegative(h7) && NonNegative(h8)
    ensures NonNegative(h1 + h2 + h3 + h4 + h5 + h6 + h7 + h8)
  {
    NonNegativeAppend(h1, h2);
    NonNegativeAppend(h1 + h2, h3);
    NonNegativeAppend(h1 + h2 + h3, h4);
    NonNegativeAppend(h1 + h2 + h3 + h4, h5);
    NonNegativeAppend(h1 + h2 + h3 + h4 + h5, h6);
    NonNegativeAppend(h1 + h2 + h3 + h4 + h5 + h6, h7);
    NonNegativeAppend(h1 + h2 + h3 + h4 + h5 + h6 + h7, h8);
  }

  lemma GammaNonNegative()
    ensures NonNegative(GammaSlots)
  {
    assert NonNegative(GammaHour1);
    assert NonNegative(GammaHour2);
    assert NonNegative(GammaHour3);
    assert NonNegative(GammaHour4);
    assert NonNegative(GammaHour5);
    assert NonNegative(GammaHour6);
    assert NonNegative(GammaHour7);
    assert NonNegative(GammaHour8);
    EightHours(GammaHour1, GammaHour2, GammaHour3, GammaHour4, GammaHour5, GammaHour6, GammaHour7, GammaHour8);
  }

  lemma SyntheticNonNegative()
    ensures NonNegative(SyntheticSlots)
  {
    assert NonNegative(SyntheticHour1);
    assert NonNegative(SyntheticHour2);
    assert NonNegative(SyntheticHour3);
    assert NonNegative(SyntheticHour4);
    assert NonNegative(SyntheticHour5);
    assert NonNegative(SyntheticHour6);
    assert NonNegative(SyntheticHour7);
    assert NonNegative(SyntheticHour8);
    EightHours(SyntheticHour1, SyntheticHour2, SyntheticHour3, SyntheticHour4, SyntheticHour5, SyntheticHour6, SyntheticHour7, SyntheticHour8);
  }

  lemma EmpiricalNonNegative()
    ensures NonNegative(EmpiricalSlots)
  {
    assert NonNegative(EmpiricalHour1);
    assert NonNegative(EmpiricalHour2);
    assert NonNegative(EmpiricalHour3);
    assert NonNegative(EmpiricalHour4);
    assert NonNegative(EmpiricalHour5);
    assert NonNegative(EmpiricalHour6);
    assert NonNegative(EmpiricalHour7);
    assert NonNegative(EmpiricalHour8);
    EightHours(EmpiricalHour1, EmpiricalHour2, EmpiricalHour3, EmpiricalHour4, EmpiricalHour5, EmpiricalHour6, EmpiricalHour7, EmpiricalHour8);
  }

  /** Every table covers eight hours of five-minute slots, and every tabulated probability is non-negative. */
  lemma TablesNonNegative()
    ensures |GammaSlots| == 96 && |SyntheticSlots| == 96 && |EmpiricalSlots| == 96
    ensures forall i :: 0 <= i < 96 ==> GammaSlots[i] >= 0.0
    ensures forall i :: 0 <= i < 96 ==> SyntheticSlots[i] >= 0.0
    ensures forall i :: 0 <= i < 96 ==> EmpiricalSlots[i] >= 0.0
  {
    GammaNonNegative();
    SyntheticNonNegative();
    EmpiricalNonNegative();
  }

  /** The three table-driven estimators, and the one that expects no departures. */
  datatype Estimator = GammaDeparture | SyntheticGammaDeparture | EmpiricalDeparture | NoDepartureEstimation

  function Table(est: Estimator): seq<real>
    requires !est.NoDepartureEstimation?
  {
    match est
    case GammaDeparture => GammaSlots
    case SyntheticGammaDeparture => SyntheticSlots
    case EmpiricalDeparture => EmpiricalSlots
  }

  /** The slot of a user in service since `start`: int() truncates, then Python 2 floors the division. */
  function SlotIndex(now: real, start: real): (r: int)
    ensures 0.0 <= now - start ==> r >= 0
    ensures 0.0 <= now - start < 28800.0 ==> r < 96
  {
    FloorDiv(Trunc(now - start), SlotLength)
  }

  /** One user's departure probability; a slot past either end of the table raises IndexError. */
  function Contribution(table: seq<real>, now: real, start: real): (r: Result<real>)
    ensures r.Err? <==> PyIndex(|table|, SlotIndex(now, start)).None?
    ensures r.Err? ==> r.error == IndexError
    ensures 0 <= SlotIndex(now, start) < |table| ==> r == Ok(table[SlotIndex(now, start)])
  {
    match PyIndex(|table|, SlotIndex(now, start))
    case None => Err(IndexError)
    case Some(i) => Ok(table[i])
  }

  /** Adding two partial estimates; the first failure wins. */
  function Combine(a: Result<real>, b: Result<real>): Result<real> {
    if a.Err? then a else if b.Err? then b else Ok(a.value + b.value)
  }

  /** The accumulation over the users in service, given by their start times. */
  function Accumulate(table: seq<real>, now: real, starts: seq<real>): (r: Result<real>)
    ensures r.Err? ==> r.error == IndexError
    ensures |starts| == 0 ==> r == Ok(0.0)
    decreases |starts|
  {
    if |starts| == 0 then Ok(0.0)
    else Combine(Contribution(table, now, starts[0]), Accumulate(table, now, starts[1..]))
  }

  /**
   * slotted_estimate of each estimator over the start times of the users in
   * service (the values of active_users, in any order).
   */
  function SlottedEstimate(est: Estimator, now: real, starts: seq<real>): (r: Result<real>)
    ensures est.NoDepartureEstimation? ==> r == Ok(0.0)
    ensures |starts| == 0 ==> r == Ok(0.0)
  {
    if est.NoDepartureEstimation? then Ok(0.0)
    else Accumulate(Table(est), now, starts)
  }

  predicate AllInTable(table: seq<real>, now: real, starts: seq<real>) {
    forall i :: 0 <= i < |starts| ==> PyIndex(|table|, SlotIndex(now, starts[i])).Some?
  }

  /** The estimate fails exactly when some user's slot is outside the table. */
  lemma {:induction false} AccumulateFails(table: seq<real>, now: real, starts: seq<real>)
    ensures Accumulate(table, now, starts).Ok? <==> AllInTable(table, now, starts)
    decreases |starts|
  {
    if |starts| > 0 {
      AccumulateFails(table, now, starts[1..]);
      assert forall i :: 1 <= i < |starts| ==> starts[i] == starts[1..][i - 1];
    }
  }

  /** With non-negative table entries, every estimate is non-negative. */
  lemma {:induction false} AccumulateNonNegative(table: seq<real>, now: real, starts: seq<real>)
    requires forall i :: 0 <= i < |table| ==> table[i] >= 0.0
    ensures Accumulate(table, now, starts).Ok? ==> Accumulate(table, now, starts).value >= 0.0
    decreases |starts|
  {
    if |starts| > 0 {
      AccumulateNonNegative(table, now, starts[1..]);
    }
  }

  lemma EstimateNonNegative(est: Estimator, now: real, starts: seq<real>)
    ensures SlottedEstimate(est, now, starts).Ok? ==> SlottedEstimate(est, now, starts).value >= 0.0
  {
    if !est.NoDepartureEstimation? {
      TablesNonNegative();
      AccumulateNonNegative(Table(est), now, starts);
    }
  }

  /** Users in service for less than eight hours always fall inside the table. */
  lemma {:induction false} EightHoursInTable(est: Estimator, now: real, starts: seq<real>)
    requires !est.NoDepartureEstimation?
    requires forall i :: 0 <= i < |starts| ==> 0.0 <= now - starts[i] < 28800.0
    ensures SlottedEstimate(est, now, starts).Ok?
  {
    TablesNonNegative();
    AccumulateFails(Table(est), now, starts);
  }

  lemma {:induction false} AccumulateAppend(table: seq<real>, now: real, u: seq<real>, v: seq<real>)
    ensures Accumulate(table, now, u + v) == Combine(Accumulate(table, now, u), Accumulate(table, now, v))
    decreases |u|
  {
    if |u| == 0 {
      assert u + v == v;
    } else {
      assert (u + v)[0] == u[0];
      assert (u + v)[1..] == u[1..] + v;
      AccumulateAppend(table, now, u[1..], v);
    }
  }

  /** Taking b[j] out of b leaves the multiset minus one copy of it. */
  lemma RemoveOneMultiset(b: seq<real>, j: nat)
    requires j < |b|
    ensures multiset(b[..j] + b[j + 1..]) == multiset(b) - multiset{b[j]}
  {
    assert b == b[..j] + [b[j]] + b[j + 1..];
  }

  /** Moving one contribution to the front of a combination; every failure is the same IndexError. */
  lemma CombineToFront(p: Result<real>, c: Result<real>, q: Result<real>)
    requires p.Err? ==> p.error == IndexError
    requires c.Err? ==> c.error == IndexError
    ensures Combine(Combine(p, Combine(c, Ok(0.0))), q) == Combine(c, Combine(p, q))
  {
  }

  /** Taking b[j] out of b takes its contribution out of the estimate. */
  lemma RemoveOneAccumulate(table: seq<real>, now: real, b: seq<real>, j: nat)
    requires j < |b|
    ensures Accumulate(table, now, b) == Combine(Contribution(table, now, b[j]), Accumulate(table, now, b[..j] + b[j + 1..]))
  {
    var x := b[j];
    var p, q := b[..j], b[j + 1..];
    assert b == (p + [x]) + q;
    AccumulateAppend(table, now, p + [x], q);
    AccumulateAppend(table, now, p, [x]);
    AccumulateAppend(table, now, p, q);
    assert Accumulate(table, now, [x]) == Combine(Contribution(table, now, x), Ok(0.0));
    CombineToFront(Accumulate(table, now, p), Contribution(table, now, x), Accumulate(table, now, q));
  }

  lemma RemoveFirstMultiset(a: seq<real>)
    requires |a| > 0
    ensures multiset(a[1..]) == multiset(a) - multiset{a[0]}
  {
    assert a == [a[0]] + a[1..];
  }

  lemma InPermutation(a: seq<real>, b: seq<real>)
    requires |a| > 0 && multiset(a) == multiset(b)
    ensures a[0] in b
  {
    assert a[0] in multiset(a);
  }

  /** The first element of a finds a partner in any permutation b of a, and the rests still match. */
  lemma MatchFirst(a: seq<real>, b: seq<real>) returns (j: nat)
    requires |a| > 0 && multiset(a) == multiset(b)
    ensures j < |b| && b[j] == a[0]
    ensures multiset(a[1..]) == multiset(b[..j] + b[j + 1..])
  {
    InPermutation(a, b);
    j :| 0 <= j < |b| && b[j] == a[0];
    RemoveOneMultiset(b, j);
    RemoveFirstMultiset(a);
  }

  /** The iteration order over active_users does not change the estimate. */
  lemma {:induction false} AccumulateOrderFree(table: seq<real>, now: real, a: seq<real>, b: seq<real>)
    requires multiset(a) == multiset(b)
    ensures Accumulate(table, now, a) == Accumulate(table, now, b)
    decreases |a|
  {
    if |a| > 0 {
      var j := MatchFirst(a, b);
      AccumulateOrderFree(table, now, a[1..], b[..j] + b[j + 1..]);
      RemoveOneAccumulate(table, now, b, j);
    }
  }
}
