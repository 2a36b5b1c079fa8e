/** The census lens aggregator: every statistic shown for the census blocks the user
    has selected is a reduction over that selection, recomputed from scratch. */
module Lens {
  import opened Tally

  /** One selected census block. The aggregator reads only its numeric properties;
      its geometry plays no part in any statistic. */
  datatype Feature = Feature(properties: Counts)

  /** Reads column `key` of a feature, an absent column counting as 0. */
  function Field(key: string): Feature -> int
  {
    (f: Feature) => Count(f.properties, key)
  }

  /** Column `key` summed over the selection. */
  function Total(fs: seq<Feature>, key: string): int
  {
    Sum(fs, Field(key))
  }

  lemma TotalAppend(a: seq<Feature>, b: seq<Feature>, key: string)
    ensures Total(a + b, key) == Total(a, key) + Total(b, key)
  {
    SumAppend(a, b, Field(key));
  }

  /** Over a single block, a column total is that block's own value. */
  lemma TotalsOfBlock(f: Feature)
    ensures forall key :: Total([f], key) == Count(f.properties, key)
  {
    forall key ensures Total([f], key) == Count(f.properties, key) {
      SumSingleton(f, Field(key));
    }
  }

  lemma TotalPermutation(a: seq<Feature>, b: seq<Feature>, key: string)
    requires multiset(a) == multiset(b)
    ensures Total(a, key) == Total(b, key)
  {
    SumPermutation(a, b, Field(key));
  }

  // ---------------------------------------------------------------- percentages

  /** A percentage as the dashboard shows it, before rounding: the literal 0 when the
      total is not positive, otherwise the exact value of `100 * part / total`. */
  datatype Percent = Zero | Exact(value: real)

  function Real(p: Percent): real
  {
    match p
    case Zero => 0.0
    case Exact(v) => v
  }

  /** `total > 0 ? (part / total) * 100 : 0`. */
  function Share(part: int, total: int): (p: Percent)
    ensures total <= 0 ==> p == Zero
    ensures total > 0 ==> p.Exact? && p.value * total as real == 100.0 * part as real
  {
    if total > 0 then Exact(100.0 * part as real / total as real) else Zero
  }

  /** Shares of the same positive total add up like their parts. */
  lemma SharesAdd(a: int, b: int, total: int)
    ensures total > 0 ==> Share(a, total).value + Share(b, total).value == Share(a + b, total).value
  {
    if total > 0 {
      var t := total as real;
      var x, y, z := Share(a, total).value, Share(b, total).value, Share(a + b, total).value;
      assert (x + y) * t == z * t;
    }
  }

  /** The share of the whole is exactly 100. */
  lemma ShareOfWhole(total: int)
    ensures total > 0 ==> Share(total, total) == Exact(100.0)
  {
    if total > 0 {
      var x := Share(total, total).value;
      assert x * total as real == 100.0 * total as real;
    }
  }

  /** A part between 0 and the total has a share between 0 and 100. */
  lemma {:induction false} ShareBounds(part: int, total: int)
    requires 0 <= part <= total
    ensures 0.0 <= Real(Share(part, total)) <= 100.0
  {
    if total > 0 {
      var x := Share(part, total).value;
      var t := total as real;
      assert x * t == 100.0 * part as real;
      assert x * t <= 100.0 * t;
      assert x * t >= 0.0;
    }
  }

  // ---------------------------------------------------------------- population

  const PopulationKey := "n_per"

  /** `totalPopulation`: `n_per` summed over the selection. */
  function TotalPopulation(fs: seq<Feature>): (n: int)
    ensures fs == [] ==> n == 0
    ensures (forall i :: 0 <= i < |fs| ==> Field(PopulationKey)(fs[i]) >= 0) ==> n >= 0
  {
    SumNonNegative(fs, Field(PopulationKey));
    Total(fs, PopulationKey)
  }

  // ---------------------------------------------------------------- gender

  const MaleKey := "n_hombres"
  const FemaleKey := "n_mujeres"

  datatype Gender = Gender(male: int, female: int, total: int, malePercent: Percent, femalePercent: Percent)

  /** `genderBreakdown`. */
  function GenderBreakdown(fs: seq<Feature>): (r: Gender)
    ensures r.male == Total(fs, MaleKey) && r.female == Total(fs, FemaleKey)
    ensures r.total == r.male + r.female
    ensures r.total <= 0 ==> r.malePercent == Zero && r.femalePercent == Zero
    ensures r.total > 0 ==>
      r.malePercent.Exact? && r.malePercent.value * r.total as real == 100.0 * r.male as real &&
      r.femalePercent.Exact? && r.femalePercent.value * r.total as real == 100.0 * r.female as real
    ensures r.total > 0 ==> r.malePercent.value + r.femalePercent.value == 100.0
  {
    var male := Total(fs, MaleKey);
    var female := Total(fs, FemaleKey);
    var total := male + female;
    SharesAdd(male, female, total);
    ShareOfWhole(total);
    Gender(male, female, total, Share(male, total), Share(female, total))
  }

  // ---------------------------------------------------------------- age groups

  /** One INE age bracket: the column it is read from and the label it is shown with. */
  datatype Bracket = Bracket(key: string, name: string)

  const AgeBrackets: seq<Bracket> := [
    Bracket("n_edad_0_5", "0-5"),
    Bracket("n_edad_6_13", "6-13"),
    Bracket("n_edad_14_17", "14-17"),
    Bracket("n_edad_18_24", "18-24"),
    Bracket("n_edad_25_44", "25-44"),
    Bracket("n_edad_45_59", "45-59"),
    Bracket("n_edad_60_mas", "60+")
  ]

  datatype AgeGroup = AgeGroup(name: string, count: int)

  function Labels(gs: seq<AgeGroup>): seq<string>
  {
    seq(|gs|, i requires 0 <= i < |gs| => gs[i].name)
  }

  /** `ageGroupsData`: one entry per bracket, in bracket order, whatever the selection. */
  function AgeGroupsData(fs: seq<Feature>): (r: seq<AgeGroup>)
    ensures |r| == 7
    ensures Labels(r) == ["0-5", "6-13", "14-17", "18-24", "25-44", "45-59", "60+"]
    ensures forall i :: 0 <= i < |r| ==> r[i].count == Total(fs, AgeBrackets[i].key)
  {
    seq(|AgeBrackets|, i requires 0 <= i < |AgeBrackets| =>
      AgeGroup(AgeBrackets[i].name, Total(fs, AgeBrackets[i].key)))
  }

  // ---------------------------------------------------------------- employment

  const EmployedKey := "n_ocupado"
  const UnemployedKey := "n_desocupado"
  const InactiveKey := "n_fuera_fuerza_trabajo"

  datatype Employment = Employment(
    employed: int, unemployed: int, inactive: int, total: int,
    employedPercent: Percent, unemployedPercent: Percent, inactivePercent: Percent)

  /** `employmentData`: shares of the three-way total. */
  function EmploymentData(fs: seq<Feature>): (r: Employment)
    ensures r.employed == Total(fs, EmployedKey)
    ensures r.unemployed == Total(fs, UnemployedKey)
    ensures r.inactive == Total(fs, InactiveKey)
    ensures r.total == r.employed + r.unemployed + r.inactive
    ensures r.total <= 0 ==>
      r.employedPercent == Zero && r.unemployedPercent == Zero && r.inactivePercent == Zero
    ensures r.total > 0 ==>
      r.employedPercent.Exact? && r.employedPercent.value * r.total as real == 100.0 * r.employed as real &&
      r.unemployedPercent.Exact? && r.unemployedPercent.value * r.total as real == 100.0 * r.unemployed as real &&
      r.inactivePercent.Exact? && r.inactivePercent.value * r.total as real == 100.0 * r.inactive as real
    ensures r.total > 0 ==>
      r.employedPercent.value + r.unemployedPercent.value + r.inactivePercent.value == 100.0
  {
    var employed := Total(fs, EmployedKey);
    var unemployed := Total(fs, UnemployedKey);
    var inactive := Total(fs, InactiveKey);
    var total := employed + unemployed + inactive;
    SharesAdd(employed, unemployed, total);
    SharesAdd(employed + unemployed, inactive, total);
    ShareOfWhole(total);
    Employment(employed, unemployed, inactive, total,
      Share(employed, total), Share(unemployed, total), Share(inactive, total))
  }

  // ---------------------------------------------------------------- literacy

  const IlliterateKey := "n_analfabet"

  datatype Literacy = Literacy(
    literate: int, illiterate: int, total: int, literatePercent: Percent, illiteratePercent: Percent)

  /** `literacyData`: the literate count is never read, it is the population minus the
      illiterate count. */
  function LiteracyData(fs: seq<Feature>): (r: Literacy)
    ensures r.total == TotalPopulation(fs)
    ensures r.illiterate == Total(fs, IlliterateKey)
    ensures r.literate + r.illiterate == r.total
    ensures r.total <= 0 ==> r.literatePercent == Zero && r.illiteratePercent == Zero
    ensures r.total > 0 ==>
      r.literatePercent.Exact? && r.literatePercent.value * r.total as real == 100.0 * r.literate as real &&
      r.illiteratePercent.Exact? && r.illiteratePercent.value * r.total as real == 100.0 * r.illiterate as real
    ensures r.total > 0 ==> r.literatePercent.value + r.illiteratePercent.value == 100.0
  {
    var illiterate := Total(fs, IlliterateKey);
    var totalPop := Total(fs, PopulationKey);
    var literate := totalPop - illiterate;
    SharesAdd(literate, illiterate, totalPop);
    ShareOfWhole(totalPop);
    Literacy(literate, illiterate, totalPop, Share(literate, totalPop), Share(illiterate, totalPop))
  }

  // ---------------------------------------------------------------- housing

  datatype Housing = Housing(
    casa: int, depto: int, mediagua: int, otro: int, totalViv: int, ocupadas: int, desocupadas: int)
  {
    function Plus(o: Housing): Housing
    {
      Housing(casa + o.casa, depto + o.depto, mediagua + o.mediagua, otro + o.otro,
        totalViv + o.totalViv, ocupadas + o.ocupadas, desocupadas + o.desocupadas)
    }
  }

  /** The housing figures of a single census block, each read on its own. */
  function BlockHousing(p: Counts): Housing
  {
    Housing(Count(p, "n_tipo_viv_casa"), Count(p, "n_tipo_viv_depto"), Count(p, "n_tipo_viv_mediagua"),
      Count(p, "n_tipo_viv_otro"), Count(p, "n_vp"), Count(p, "n_vp_ocupada"), Count(p, "n_vp_desocupada"))
  }

  /** `housingData`: seven independent column sums, no percentages. */
  function HousingData(fs: seq<Feature>): (r: Housing)
    ensures fs == [] ==> r == Housing(0, 0, 0, 0, 0, 0, 0)
  {
    Housing(Total(fs, "n_tipo_viv_casa"), Total(fs, "n_tipo_viv_depto"), Total(fs, "n_tipo_viv_mediagua"),
      Total(fs, "n_tipo_viv_otro"), Total(fs, "n_vp"), Total(fs, "n_vp_ocupada"), Total(fs, "n_vp_desocupada"))
  }

  /** For one block, each housing count is that block's own column. */
  lemma HousingOfBlock(f: Feature)
    ensures HousingData([f]) == BlockHousing(f.properties)
  {
    TotalsOfBlock(f);
  }

  // ---------------------------------------------------------------- households

  datatype Households = Households(
    total: int, unipersonal: int, conMenores: int, adultoMayor: int, jefaturaMujer: int)
  {
    function Plus(o: Households): Households
    {
      Households(total + o.total, unipersonal + o.unipersonal, conMenores + o.conMenores,
        adultoMayor + o.adultoMayor, jefaturaMujer + o.jefaturaMujer)
    }
  }

  /** The household figures of a single census block, each read on its own. */
  function BlockHouseholds(p: Counts): Households
  {
    Households(Count(p, "n_hog"), Count(p, "n_hog_unipersonales"), Count(p, "n_hog_menores"),
      Count(p, "n_hog_60"), Count(p, "n_jefatura_mujer"))
  }

  /** `householdData`: five independent column sums, no percentages. */
  function HouseholdData(fs: seq<Feature>): (r: Households)
    ensures fs == [] ==> r == Households(0, 0, 0, 0, 0)
  {
    Households(Total(fs, "n_hog"), Total(fs, "n_hog_unipersonales"), Total(fs, "n_hog_menores"),
      Total(fs, "n_hog_60"), Total(fs, "n_jefatura_mujer"))
  }

  /** For one block, each household count is that block's own column. */
  lemma HouseholdsOfBlock(f: Feature)
    ensures HouseholdData([f]) == BlockHouseholds(f.properties)
  {
    TotalsOfBlock(f);
  }

  // ---------------------------------------------------------------- average age

  const AgeKey := "prom_edad"

  /** `f.properties?.prom_edad > 0`: the block reports an average age. */
  predicate HasAge(f: Feature)
  {
    Field(AgeKey)(f) > 0
  }

  /** `$features.filter(f => f.properties?.prom_edad > 0)`, order kept. */
  function Dated(fs: seq<Feature>): (r: seq<Feature>)
    ensures |r| <= |fs|
    ensures forall i :: 0 <= i < |r| ==> HasAge(r[i])
  {
    if |fs| == 0 then []
    else
      var rest := Dated(fs[..|fs| - 1]);
      if HasAge(fs[|fs| - 1]) then rest + [fs[|fs| - 1]] else rest
  }

  /** The filter keeps exactly the blocks that report an average age. */
  lemma {:induction false} DatedMembers(fs: seq<Feature>)
    ensures forall f :: f in Dated(fs) <==> f in fs && HasAge(f)
  {
    if |fs| > 0 {
      var fs' := fs[..|fs| - 1];
      DatedMembers(fs');
      assert fs == fs' + [fs[|fs| - 1]];
    }
  }

  lemma {:induction false} DatedAppend(a: seq<Feature>, b: seq<Feature>)
    ensures Dated(a + b) == Dated(a) + Dated(b)
  {
    if |b| == 0 {
      assert a + b == a;
    } else {
      var b' := b[..|b| - 1];
      assert (a + b)[..|a + b| - 1] == a + b';
      DatedAppend(a, b');
    }
  }

  /** Each block's share of the filtered count: 1 when it reports an average age. */
  function DatedOne(): Feature -> int
  {
    (f: Feature) => if HasAge(f) then 1 else 0
  }

  /** Each block's share of the filtered age total: its `prom_edad` when it reports one. */
  function DatedAge(): Feature -> int
  {
    (f: Feature) => if HasAge(f) then Field(AgeKey)(f) else 0
  }

  /** The size and the age total of the filtered blocks are sums over the whole
      selection, block by block. */
  lemma {:induction false} DatedSums(fs: seq<Feature>)
    ensures |Dated(fs)| == Sum(fs, DatedOne())
    ensures Total(Dated(fs), AgeKey) == Sum(fs, DatedAge())
  {
    if |fs| > 0 {
      var fs', x := fs[..|fs| - 1], fs[|fs| - 1];
      DatedSums(fs');
      if HasAge(x) {
        TotalAppend(Dated(fs'), [x], AgeKey);
        TotalsOfBlock(x);
      }
    }
  }

  /** `sum / count` for a positive count, exactly. */
  function Mean(sum: int, count: int): (r: real)
    requires count > 0
    ensures r * count as real == sum as real
    ensures sum >= count ==> r >= 1.0
  {
    sum as real / count as real
  }

  /** Every reported average age is at least 1, so their sum is at least their number. */
  lemma DatedSumAtLeastCount(fs: seq<Feature>)
    ensures Total(Dated(fs), AgeKey) >= |Dated(fs)|
  {
    SumAtLeast(Dated(fs), Field(AgeKey), 1);
  }

  /** `avgAge`: the mean of `prom_edad` over the blocks that report one, or 0 when none does. */
  function AvgAge(fs: seq<Feature>): (r: real)
    ensures |Dated(fs)| == 0 ==> r == 0.0
    ensures |Dated(fs)| > 0 ==> r * |Dated(fs)| as real == Total(Dated(fs), AgeKey) as real
    ensures |Dated(fs)| > 0 ==> r >= 1.0
  {
    var ages := Dated(fs);
    if |ages| == 0 then 0.0
    else
      DatedSumAtLeastCount(fs);
      Mean(Total(ages, AgeKey), |ages|)
  }

  /** No mean exceeds the largest reported average age. */
  lemma AvgAgeAtMost(fs: seq<Feature>, hi: int)
    requires forall i :: 0 <= i < |fs| ==> Field(AgeKey)(fs[i]) <= hi
    ensures AvgAge(fs) <= if Dated(fs) == [] then 0.0 else hi as real
  {
    var ages := Dated(fs);
    if |ages| > 0 {
      DatedMembers(fs);
      forall i | 0 <= i < |ages| ensures Field(AgeKey)(ages[i]) <= hi {
        assert ages[i] in fs;
      }
      SumAtMost(ages, Field(AgeKey), hi);
      MeanAtMost(Total(ages, AgeKey), |ages|, hi);
    }
  }

  lemma MeanAtMost(sum: int, count: int, hi: int)
    requires count > 0 && sum <= hi * count
    ensures Mean(sum, count) <= hi as real
  {
    var r, n := Mean(sum, count), count as real;
    if r > hi as real {
      assert r * n > hi as real * n;
    }
  }

  /** A block without an average age changes neither the numerator nor the denominator. */
  lemma AvgAgeIgnoresUndated(a: seq<Feature>, g: Feature, b: seq<Feature>)
    requires !HasAge(g)
    ensures AvgAge(a + [g] + b) == AvgAge(a + b)
  {
    DatedAppend(a + [g], b);
    DatedAppend(a, [g]);
    DatedAppend(a, b);
    assert Dated([g]) == [];
  }

  // ---------------------------------------------------------------- whole-selection properties

  /** Column totals of two selections together are the sums of their totals. */
  lemma TotalsAppend(a: seq<Feature>, b: seq<Feature>)
    ensures forall key :: Total(a + b, key) == Total(a, key) + Total(b, key)
  {
    forall key ensures Total(a + b, key) == Total(a, key) + Total(b, key) {
      TotalAppend(a, b, key);
    }
  }

  /** The counts of two selections together are the sums of their counts. */
  lemma SelectionAppend(a: seq<Feature>, b: seq<Feature>)
    ensures TotalPopulation(a + b) == TotalPopulation(a) + TotalPopulation(b)
    ensures GenderBreakdown(a + b).male == GenderBreakdown(a).male + GenderBreakdown(b).male
    ensures GenderBreakdown(a + b).female == GenderBreakdown(a).female + GenderBreakdown(b).female
    ensures EmploymentData(a + b).total == EmploymentData(a).total + EmploymentData(b).total
    ensures LiteracyData(a + b).literate == LiteracyData(a).literate + LiteracyData(b).literate
  {
    TotalsAppend(a, b);
  }

  lemma AgeGroupsAppend(a: seq<Feature>, b: seq<Feature>)
    ensures forall i :: 0 <= i < 7 ==>
      AgeGroupsData(a + b)[i].count == AgeGroupsData(a)[i].count + AgeGroupsData(b)[i].count
  {
    TotalsAppend(a, b);
  }

  lemma HousingAppend(a: seq<Feature>, b: seq<Feature>)
    ensures HousingData(a + b) == HousingData(a).Plus(HousingData(b))
  {
    TotalsAppend(a, b);
  }

  lemma HouseholdAppend(a: seq<Feature>, b: seq<Feature>)
    ensures HouseholdData(a + b) == HouseholdData(a).Plus(HouseholdData(b))
  {
    TotalsAppend(a, b);
  }

  /** Column totals do not depend on the order of the selection. */
  lemma TotalsReordered(a: seq<Feature>, b: seq<Feature>)
    requires multiset(a) == multiset(b)
    ensures forall key :: Total(a, key) == Total(b, key)
  {
    forall key ensures Total(a, key) == Total(b, key) {
      TotalPermutation(a, b, key);
    }
  }

  lemma GenderReordered(a: seq<Feature>, b: seq<Feature>)
    requires multiset(a) == multiset(b)
    ensures GenderBreakdown(a) == GenderBreakdown(b)
  {
    TotalsReordered(a, b);
  }

  lemma AgeGroupsReordered(a: seq<Feature>, b: seq<Feature>)
    requires multiset(a) == multiset(b)
    ensures AgeGroupsData(a) == AgeGroupsData(b)
  {
    TotalsReordered(a, b);
  }

  lemma EmploymentReordered(a: seq<Feature>, b: seq<Feature>)
    requires multiset(a) == multiset(b)
    ensures EmploymentData(a) == EmploymentData(b)
  {
    TotalsReordered(a, b);
  }

  lemma LiteracyReordered(a: seq<Feature>, b: seq<Feature>)
    requires multiset(a) == multiset(b)
    ensures LiteracyData(a) == LiteracyData(b)
  {
    TotalsReordered(a, b);
  }

  lemma PopulationReordered(a: seq<Feature>, b: seq<Feature>)
    requires multiset(a) == multiset(b)
    ensures TotalPopulation(a) == TotalPopulation(b)
  {
    TotalPermutation(a, b, PopulationKey);
  }

  lemma HousingReordered(a: seq<Feature>, b: seq<Feature>)
    requires multiset(a) == multiset(b)
    ensures HousingData(a) == HousingData(b)
  {
    TotalsReordered(a, b);
  }

  lemma HouseholdReordered(a: seq<Feature>, b: seq<Feature>)
    requires multiset(a) == multiset(b)
    ensures HouseholdData(a) == HouseholdData(b)
  {
    TotalsReordered(a, b);
  }

  /** The order of the selection does not matter to any statistic. */
  lemma ReorderedSelection(a: seq<Feature>, b: seq<Feature>)
    requires multiset(a) == multiset(b)
    ensures TotalPopulation(a) == TotalPopulation(b)
    ensures GenderBreakdown(a) == GenderBreakdown(b)
    ensures AgeGroupsData(a) == AgeGroupsData(b)
    ensures EmploymentData(a) == EmploymentData(b)
    ensures LiteracyData(a) == LiteracyData(b)
    ensures HousingData(a) == HousingData(b)
    ensures AvgAge(a) == AvgAge(b)
    ensures HouseholdData(a) == HouseholdData(b)
  {
    PopulationReordered(a, b);
    HousingReordered(a, b);
    HouseholdReordered(a, b);
    GenderReordered(a, b);
    AgeGroupsReordered(a, b);
    EmploymentReordered(a, b);
    LiteracyReordered(a, b);
    AvgAgeReordered(a, b);
  }

  lemma AvgAgeReordered(a: seq<Feature>, b: seq<Feature>)
    requires multiset(a) == multiset(b)
    ensures AvgAge(a) == AvgAge(b)
  {
    DatedSums(a);
    DatedSums(b);
    SumPermutation(a, b, DatedOne());
    SumPermutation(a, b, DatedAge());
  }

  /** With nothing selected every count is 0 and every percentage is the literal 0. */
  lemma EmptySelection()
    ensures TotalPopulation([]) == 0
    ensures GenderBreakdown([]) == Gender(0, 0, 0, Zero, Zero)
    ensures AgeGroupsData([]) == [AgeGroup("0-5", 0), AgeGroup("6-13", 0), AgeGroup("14-17", 0),
      AgeGroup("18-24", 0), AgeGroup("25-44", 0), AgeGroup("45-59", 0), AgeGroup("60+", 0)]
    ensures EmploymentData([]) == Employment(0, 0, 0, 0, Zero, Zero, Zero)
    ensures LiteracyData([]) == Literacy(0, 0, 0, Zero, Zero)
    ensures AvgAge([]) == 0.0
  {
  }

  /** One block with 60 men and 40 women: 60 and 40 percent. */
  lemma GenderExample()
    ensures GenderBreakdown([Feature(map[MaleKey := 60, FemaleKey := 40])]) ==
      Gender(60, 40, 100, Exact(60.0), Exact(40.0))
  {
    var f := Feature(map[MaleKey := 60, FemaleKey := 40]);
    TotalsOfBlock(f);
    assert Total([f], MaleKey) == 60 && Total([f], FemaleKey) == 40;
  }

  /** For two blocks that both report an age, the average is the mean of the two. */
  lemma AvgAgeOfPair(f: Feature, h: Feature)
    requires HasAge(f) && HasAge(h)
    ensures AvgAge([f, h]) == (Count(f.properties, AgeKey) + Count(h.properties, AgeKey)) as real / 2.0
  {
    assert Dated([f, h]) == [f, h] by {
      DatedAppend([f], [h]);
      assert Dated([f]) == [f] && Dated([h]) == [h];
      assert [f] + [h] == [f, h];
    }
    assert Total([f, h], AgeKey) == Count(f.properties, AgeKey) + Count(h.properties, AgeKey) by {
      TotalsOfBlock(f);
      TotalsOfBlock(h);
      TotalAppend([f], [h], AgeKey);
      assert [f] + [h] == [f, h];
    }
  }

  /** Ages 40, 0 and 60: the block with 0 is left out, so the mean is 50 and not 33.3. */
  lemma AvgAgeExample()
    ensures AvgAge([Feature(map[AgeKey := 40]), Feature(map[AgeKey := 0]), Feature(map[AgeKey := 60])]) == 50.0
  {
    var f, g, h := Feature(map[AgeKey := 40]), Feature(map[AgeKey := 0]), Feature(map[AgeKey := 60]);
    assert [f] + [g] + [h] == [f, g, h];
    assert [f] + [h] == [f, h];
    AvgAgeIgnoresUndated([f], g, [h]);
    AvgAgeOfPair(f, h);
  }
}
