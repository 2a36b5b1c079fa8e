/** The census-block ("manzana") service: turning table rows into map features, the
    fetches built on the paginated read, the list of comunas and the per-comuna totals.
    Server-side filters (by comuna, by the Gran Concepción comunas, by bounding box)
    are outside the model: each fetch receives the already-filtered table or response. */
module Manzanas {
  import opened Wrappers
  import opened Tally
  import opened Pagination

  /** A table row: its columns by name. */
  type Row<V> = map<string, V>

  /** The column that holds the block's boundary, already encoded for the map. */
  const GeomColumn := "geom"

  /** A map feature: its type tag, the boundary taken from the row (absent when the row
      has no `geom` column), and every other column as a property. */
  datatype Feature<V> = Feature(kind: string, geometry: Option<V>, properties: Row<V>)

  datatype FeatureCollection<V> = FeatureCollection(kind: string, features: seq<Feature<V>>)

  /** `const { geom, ...properties } = row`: split off the boundary, keep the rest. */
  function ToFeature<V>(row: Row<V>): (f: Feature<V>)
    ensures f.kind == "Feature"
    ensures f.geometry.Some? <==> GeomColumn in row
    ensures f.geometry.Some? ==> f.geometry.value == row[GeomColumn]
    ensures f.properties.Keys == row.Keys - {GeomColumn}
    ensures forall k :: k in f.properties ==> f.properties[k] == row[k]
  {
    Feature("Feature", if GeomColumn in row then Some(row[GeomColumn]) else None, row - {GeomColumn})
  }

  /** Puts the boundary back among the properties. */
  function FromFeature<V>(f: Feature<V>): Row<V>
  {
    match f.geometry
    case None => f.properties
    case Some(g) => f.properties[GeomColumn := g]
  }

  /** Splitting off the boundary loses nothing. */
  lemma RowRoundTrip<V>(row: Row<V>)
    ensures FromFeature(ToFeature(row)) == row
  {
    var back := FromFeature(ToFeature(row));
    assert back.Keys == row.Keys;
    assert forall k :: k in back ==> back[k] == row[k];
  }

  /** `convertToGeoJSON`: one feature per row, in row order; no rows (or `null`) gives
      an empty collection. */
  function ConvertToGeoJSON<V>(rows: Option<seq<Row<V>>>): (c: FeatureCollection<V>)
    ensures c.kind == "FeatureCollection"
    ensures rows.None? ==> c.features == []
    ensures rows.Some? ==> |c.features| == |rows.value|
    ensures rows.Some? ==> forall i :: 0 <= i < |rows.value| ==> c.features[i] == ToFeature(rows.value[i])
  {
    match rows
    case None => FeatureCollection("FeatureCollection", [])
    case Some(rs) =>
      if |rs| == 0 then FeatureCollection("FeatureCollection", [])
      else FeatureCollection("FeatureCollection", seq(|rs|, i requires 0 <= i < |rs| => ToFeature(rs[i])))
  }

  /** The rows can be read back from the collection, in order. */
  lemma ConvertRecoversRows<V>(rows: seq<Row<V>>)
    ensures var fs := ConvertToGeoJSON(Some(rows)).features;
      seq(|fs|, i requires 0 <= i < |fs| => FromFeature(fs[i])) == rows
  {
    var fs := ConvertToGeoJSON(Some(rows)).features;
    forall i | 0 <= i < |rows| ensures FromFeature(fs[i]) == rows[i] {
      RowRoundTrip(rows[i]);
    }
  }

  /** A fetch that either converts its rows or passes the error on. */
  function Converted<V, E>(r: Result<seq<Row<V>>, E>): (c: Result<FeatureCollection<V>, E>)
    ensures r.Err? <==> c.Err?
    ensures r.Err? ==> c.error == r.error
    ensures r.Ok? ==> c.value == ConvertToGeoJSON(Some(r.value))
  {
    match r
    case Ok(rows) => Ok(ConvertToGeoJSON(Some(rows)))
    case Err(e) => Err(e)
  }

  /** `fetchAllManzanas`: the whole table, paginated, then converted. */
  method FetchAllManzanas<V, E>(manzanas: Store<Row<V>, E>) returns (result: Result<FeatureCollection<V>, E>)
    ensures result == Converted(Fetched(manzanas))
    ensures result.Ok? ==> |result.value.features| == |manzanas.rows|
  {
    var rows, _ := FetchPages(manzanas);
    FetchedOutcome(manzanas);
    result := Converted(rows);
  }

  /** `fetchGranConcepcionManzanas`: the same paginated read over the table already
      filtered to the nine Gran Concepción comunas, then converted. */
  method FetchGranConcepcionManzanas<V, E>(granConcepcion: Store<Row<V>, E>)
    returns (result: Result<FeatureCollection<V>, E>)
    ensures result == Converted(Fetched(granConcepcion))
    ensures result.Ok? ==> |result.value.features| == |granConcepcion.rows|
  {
    var rows, _ := FetchPages(granConcepcion);
    FetchedOutcome(granConcepcion);
    result := Converted(rows);
  }

  /** `fetchManzanasInBounds`: the rows of the bounding-box procedure, or, when that call
      fails, the whole table. */
  method FetchManzanasInBounds<V, E>(inBounds: Result<seq<Row<V>>, E>, manzanas: Store<Row<V>, E>)
    returns (result: Result<FeatureCollection<V>, E>)
    ensures inBounds.Ok? ==> result == Ok(ConvertToGeoJSON(Some(inBounds.value)))
    ensures inBounds.Err? ==> result == Converted(Fetched(manzanas))
  {
    if inBounds.Err? {
      result := FetchAllManzanas(manzanas);
    } else {
      result := Ok(ConvertToGeoJSON(Some(inBounds.value)));
    }
  }

  /** `fetchManzanasByComuna`: one unpaginated query; its error is passed on. */
  function FetchManzanasByComuna<V, E>(byComuna: Result<seq<Row<V>>, E>): (r: Result<FeatureCollection<V>, E>)
    ensures byComuna.Err? ==> r == Err(byComuna.error)
    ensures byComuna.Ok? ==> r == Ok(ConvertToGeoJSON(Some(byComuna.value)))
    ensures byComuna.Ok? ==> |r.value.features| == |byComuna.value|
  {
    Converted(byComuna)
  }

  // ---------------------------------------------------------------- list of comunas

  predicate NoDuplicates<T(==)>(s: seq<T>)
  {
    forall i, j :: 0 <= i < j < |s| ==> s[i] != s[j]
  }

  /** `[...new Set(s)]`: each value once, in the order a `Set` is filled from `s`. */
  function Dedup<T(==)>(s: seq<T>): (r: seq<T>)
    ensures NoDuplicates(r)
    ensures forall i :: 0 <= i < |r| ==> r[i] in s
    ensures forall i :: 0 <= i < |s| ==> s[i] in r
  {
    if |s| == 0 then []
    else
      var rest := Dedup(s[..|s| - 1]);
      var x := s[|s| - 1];
      assert forall i :: 0 <= i < |s| - 1 ==> s[i] == s[..|s| - 1][i];
      if x in rest then rest else rest + [x]
  }

  /** The position of the first occurrence of `x` in `s`. */
  function FirstIndex<T(==)>(s: seq<T>, x: T): (i: nat)
    requires x in s
    ensures i < |s| && s[i] == x && x !in s[..i]
  {
    if s[0] == x then 0 else 1 + FirstIndex(s[1..], x)
  }

  lemma {:induction false} FirstIndexOfPrefix<T>(s: seq<T>, t: seq<T>, x: T)
    requires x in s
    ensures FirstIndex(s + t, x) == FirstIndex(s, x)
  {
    if s[0] != x {
      assert (s + t)[1..] == s[1..] + t;
      FirstIndexOfPrefix(s[1..], t, x);
    }
  }

  lemma FirstIndexOfNew<T>(s: seq<T>, x: T)
    requires x !in s
    ensures FirstIndex(s + [x], x) == |s|
  {
    assert forall k :: 0 <= k < |s| ==> (s + [x])[k] == s[k];
  }

  /** Every value of `r` occurs in `s`, and they come in the order of their first
      occurrences in `s`. */
  ghost predicate InFirstOccurrenceOrder<T>(s: seq<T>, r: seq<T>)
  {
    forall i, j :: 0 <= i < j < |r| ==> r[i] in s && r[j] in s && FirstIndex(s, r[i]) < FirstIndex(s, r[j])
  }

  /** The kept values come in the order of their first occurrences. */
  lemma {:induction false} DedupFirstOccurrenceOrder<T>(s: seq<T>)
    ensures InFirstOccurrenceOrder(s, Dedup(s))
  {
    if |s| > 0 {
      var p, x := s[..|s| - 1], s[|s| - 1];
      assert s == p + [x];
      DedupFirstOccurrenceOrder(p);
      DedupStep(p, x);
    }
  }

  lemma DedupStep<T>(p: seq<T>, x: T)
    requires InFirstOccurrenceOrder(p, Dedup(p))
    ensures InFirstOccurrenceOrder(p + [x], Dedup(p + [x]))
  {
    var s := p + [x];
    assert s[..|s| - 1] == p;
    var d, r := Dedup(p), Dedup(s);
    forall y | y in p ensures y in s && FirstIndex(s, y) == FirstIndex(p, y) {
      FirstIndexOfPrefix(p, [x], y);
    }
    if x in d {
      assert r == d;
      forall i, j | 0 <= i < j < |r| ensures r[i] in s && r[j] in s && FirstIndex(s, r[i]) < FirstIndex(s, r[j]) {
        assert d[i] in p && d[j] in p;
      }
    } else {
      assert r == d + [x];
      FirstIndexOfNew(p, x);
      forall i, j | 0 <= i < j < |r| ensures r[i] in s && r[j] in s && FirstIndex(s, r[i]) < FirstIndex(s, r[j]) {
        assert r[i] == d[i] && d[i] in p;
        if j == |r| - 1 {
          assert r[j] == x;
        } else {
          assert r[j] == d[j] && d[j] in p;
        }
      }
    }
  }

  /** The comuna of each row; a row without one contributes the absent value. */
  function Comunas<C>(rows: seq<Row<C>>): seq<Option<C>>
  {
    seq(|rows|, i requires 0 <= i < |rows| => if "comuna" in rows[i] then Some(rows[i]["comuna"]) else None)
  }

  /** `getComunasList`: the comunas of the rows, each once, in first-occurrence order;
      the empty list when the query fails. */
  function GetComunasList<C(==), E>(response: Result<seq<Row<C>>, E>): (r: seq<Option<C>>)
    ensures response.Err? ==> r == []
    ensures NoDuplicates(r)
    ensures response.Ok? ==> forall i :: 0 <= i < |r| ==> r[i] in Comunas(response.value)
    ensures response.Ok? ==> forall i :: 0 <= i < |response.value| ==> Comunas(response.value)[i] in r
    ensures response.Ok? ==> InFirstOccurrenceOrder(Comunas(response.value), r)
  {
    match response
    case Err(_) => []
    case Ok(rows) =>
      DedupFirstOccurrenceOrder(Comunas(rows));
      Dedup(Comunas(rows))
  }

  // ---------------------------------------------------------------- per-comuna totals

  datatype ComunaStats = ComunaStats(
    totalPopulation: int, totalMale: int, totalFemale: int, totalViviendas: int, manzanas: nat)
  {
    function Plus(o: ComunaStats): ComunaStats
    {
      ComunaStats(totalPopulation + o.totalPopulation, totalMale + o.totalMale,
        totalFemale + o.totalFemale, totalViviendas + o.totalViviendas, manzanas + o.manzanas)
    }
  }

  function Column(key: string): Counts -> int
  {
    (row: Counts) => Count(row, key)
  }

  function Stats(rows: seq<Counts>): ComunaStats
  {
    ComunaStats(Sum(rows, Column("n_per")), Sum(rows, Column("n_hombres")),
      Sum(rows, Column("n_mujeres")), Sum(rows, Column("n_vp")), |rows|)
  }

  /** `getComunaStats`: four column sums and the block count, or nothing when the query fails. */
  function GetComunaStats<E>(response: Result<seq<Counts>, E>): (r: Option<ComunaStats>)
    ensures response.Err? <==> r.None?
    ensures response.Ok? ==> r.value == Stats(response.value)
    ensures response.Ok? ==> r.value.manzanas == |response.value|
    ensures response.Ok? && response.value == [] ==> r.value == ComunaStats(0, 0, 0, 0, 0)
  {
    match response
    case Err(_) => None
    case Ok(rows) => Some(Stats(rows))
  }

  /** The statistics of one block read its own columns, absent ones as 0. */
  lemma StatsOfBlock(row: Counts)
    ensures Stats([row]) ==
      ComunaStats(Count(row, "n_per"), Count(row, "n_hombres"), Count(row, "n_mujeres"), Count(row, "n_vp"), 1)
  {
    SumSingleton(row, Column("n_per"));
    SumSingleton(row, Column("n_hombres"));
    SumSingleton(row, Column("n_mujeres"));
    SumSingleton(row, Column("n_vp"));
  }

  /** The statistics of two groups of blocks together are the sums of their statistics. */
  lemma StatsAppend(a: seq<Counts>, b: seq<Counts>)
    ensures Stats(a + b) == Stats(a).Plus(Stats(b))
  {
    SumAppend(a, b, Column("n_per"));
    SumAppend(a, b, Column("n_hombres"));
    SumAppend(a, b, Column("n_mujeres"));
    SumAppend(a, b, Column("n_vp"));
  }
}
