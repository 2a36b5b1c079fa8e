/** The thematic (heatmap) variables of the lens: which property each variable shows
    and which related properties it is compared with. Labels, descriptions and icons
    are presentation and are not modelled. */
module Heatmap {
  import opened Wrappers
  import opened Tally

  /** One heatmap variable: an id, its category, the property it shows (absent for a
      calculated variable), the properties it competes with for dominance (absent when
      the variable is not compared), and whether its value is calculated. */
  datatype Variable = Variable(
    id: string, category: string, field: Option<string>,
    compareFields: Option<seq<string>>, calculated: bool)

  const TransportFields: seq<string> := [
    "n_transporte_bicicleta", "n_transporte_publico", "n_transporte_camina",
    "n_transporte_auto", "n_transporte_motocicleta"]

  const AgeFields: seq<string> := [
    "n_edad_0_5", "n_edad_6_13", "n_edad_14_17", "n_edad_18_24",
    "n_edad_25_44", "n_edad_45_59", "n_edad_60_mas"]

  const HeatmapVariables: seq<Variable> := [
    Variable("transporte_bicicleta", "Transporte", Some("n_transporte_bicicleta"), Some(TransportFields), false),
    Variable("transporte_publico", "Transporte", Some("n_transporte_publico"), Some(TransportFields), false),
    Variable("transporte_camina", "Transporte", Some("n_transporte_camina"), Some(TransportFields), false),
    Variable("transporte_auto", "Transporte", Some("n_transporte_auto"), Some(TransportFields), false),
    Variable("jefatura_mujer", "Hogares", Some("n_jefatura_mujer"), None, false),
    Variable("pueblos_originarios", "Identidad", Some("n_pueblos_orig"), None, false),
    Variable("inmigrantes", "Identidad", Some("n_inmigrantes"), None, false),
    Variable("adultos_mayores", "Demografía", Some("n_edad_60_mas"), Some(AgeFields), false),
    Variable("jovenes", "Demografía", Some("n_edad_18_24"), Some(AgeFields), false),
    Variable("ninos", "Demografía", Some("n_edad_0_5"), Some(AgeFields), false),
    Variable("hacinamiento", "Vivienda", Some("n_viv_hacinadas"), None, false),
    Variable("sin_internet", "Conectividad", None, None, true),
    Variable("desocupacion", "Empleo", Some("n_desocupado"), None, false)
  ]

  /** A compared variable shows one of the fields it is compared with, and a variable
      has a stored field exactly when it is not calculated. */
  predicate Consistent(v: Variable)
  {
    (v.compareFields.Some? ==> v.field.Some? && v.field.value in v.compareFields.value) &&
    (v.field.None? <==> v.calculated)
  }

  lemma HeatmapVariablesConsistent()
    ensures forall i :: 0 <= i < |HeatmapVariables| ==> Consistent(HeatmapVariables[i])
  {
  }

  lemma HeatmapIdsDistinct()
    ensures forall i, j :: 0 <= i < j < |HeatmapVariables| ==> HeatmapVariables[i].id != HeatmapVariables[j].id
  {
  }

  /** `calculateFn` of `sin_internet`: the households without internet, shown only where
      they outnumber the households with internet, otherwise 0. */
  function SinInternet(props: Counts): (r: int)
    ensures r == 0 || r == Count(props, "n_hog") - Count(props, "n_internet")
    ensures r != 0 ==> 2 * r > Count(props, "n_hog")
    ensures 2 * (Count(props, "n_hog") - Count(props, "n_internet")) > Count(props, "n_hog") ==>
      r == Count(props, "n_hog") - Count(props, "n_internet")
    ensures Count(props, "n_internet") >= 0 ==> r >= 0
  {
    var total := Count(props, "n_hog");
    var withInternet := Count(props, "n_internet");
    var withoutInternet := total - withInternet;
    if withoutInternet > withInternet then withoutInternet else 0
  }

  /** Missing counts read as 0, so a block with no household data shows 0. */
  lemma SinInternetExamples()
    ensures SinInternet(map[]) == 0
    ensures SinInternet(map["n_hog" := 10, "n_internet" := 3]) == 7
    ensures SinInternet(map["n_hog" := 10, "n_internet" := 5]) == 0
    ensures SinInternet(map["n_hog" := 10]) == 10
  {
  }
}
