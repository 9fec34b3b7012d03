// The seed catalogue: the concepts, learning modules and experts the engine
// reads. The dicts keep their insertion order, so each is a sequence of
// (key, record) entries. Windows are raw records, as the catalogue writes them.
// The engine reads the three collections through a Catalog value; SEED is the
// one the service runs with.

module Data {
  import opened Collections
  import opened Clock
  import opened Schemas

  /** A concept record of the catalogue; its modules are attached on lookup. */
  datatype ConceptInfo = ConceptInfo(id: string)

  const CONCEPTS: seq<(string, ConceptInfo)> := [
    ("supply-demand", ConceptInfo("supply-demand")),
    ("gdp-measurement", ConceptInfo("gdp-measurement")),
    ("monetary-policy", ConceptInfo("monetary-policy")),
    ("market-failures", ConceptInfo("market-failures"))
  ]

  const MODULES: seq<LearningModule> := [
    LearningModule("supply-demand-foundations", "supply-demand"),
    LearningModule("supply-demand-scenarios", "supply-demand"),
    LearningModule("gdp-accounting", "gdp-measurement"),
    LearningModule("monetary-policy-tools", "monetary-policy"),
    LearningModule("market-failure-lab", "market-failures")
  ]

  /** A catalogue window record with both bounds present. */
  function Window(weekday: string, start: int, end: int): ExpertAvailability {
    ExpertAvailability(weekday, Some(start), Some(end))
  }

  const DrRivera: Expert := Expert(
    "dr-rivera", ["market-failures", "gdp-measurement"], 650.0, 0.85,
    [Window("tuesday", Time(13, 0), Time(16, 0)), Window("thursday", Time(9, 0), Time(11, 30))])

  const ProfChan: Expert := Expert(
    "prof-chan", ["supply-demand", "monetary-policy"], 500.0, 0.9,
    [Window("wednesday", Time(15, 0), Time(18, 0)), Window("friday", Time(8, 30), Time(12, 0))])

  const DrSaito: Expert := Expert(
    "dr-saito", ["monetary-policy"], 720.0, 0.8,
    [Window("monday", Time(10, 0), Time(12, 30)), Window("thursday", Time(14, 0), Time(17, 30))])

  const EXPERTS: seq<(string, Expert)> := [
    ("dr-rivera", DrRivera),
    ("prof-chan", ProfChan),
    ("dr-saito", DrSaito)
  ]

  /** The three collections the engine reads. */
  datatype Catalog = Catalog(
    concepts: seq<(string, ConceptInfo)>,
    modules: seq<LearningModule>,
    experts: seq<(string, Expert)>)

  const SEED: Catalog := Catalog(CONCEPTS, MODULES, EXPERTS)

  /** The shape the engine relies on: no key twice, and each key is its record's id. */
  predicate WellFormed(catalog: Catalog) {
    && DistinctKeys(catalog.concepts)
    && DistinctKeys(catalog.experts)
    && (forall i :: 0 <= i < |catalog.concepts| ==> catalog.concepts[i].0 == catalog.concepts[i].1.id)
    && (forall i :: 0 <= i < |catalog.experts| ==> catalog.experts[i].0 == catalog.experts[i].1.id)
  }

  /** Each dict key of the seed is its record's id, and no key appears twice. */
  lemma SeedWellFormed()
    ensures WellFormed(SEED)
  {
  }

  /** Every window has both bounds, starts before it ends within one day, and names a stored weekday. */
  lemma SeedWindowsWellFormed()
    ensures forall i, j :: 0 <= i < |EXPERTS| && 0 <= j < |EXPERTS[i].1.availability| ==>
      var w := EXPERTS[i].1.availability[j];
      w.start.Some? && w.end.Some? && 0 <= w.start.value < w.end.value < MinutesPerDay
      && w.weekday in WeekdayNames
  {
  }

  /** Every expert charges a positive rate and has a discount in [0, 1]. */
  lemma SeedExpertsPriced()
    ensures forall i :: 0 <= i < |EXPERTS| ==> EXPERTS[i].1.ratePerHour > 0.0 && DiscountInRange(EXPERTS[i].1)
  {
  }

  /** Every focus area and every module's concept is a concept of the catalogue. */
  lemma SeedReferencesResolve()
    ensures forall i, j :: 0 <= i < |EXPERTS| && 0 <= j < |EXPERTS[i].1.focusAreas| ==>
      EXPERTS[i].1.focusAreas[j] in Keys(CONCEPTS)
    ensures forall i :: 0 <= i < |MODULES| ==> MODULES[i].conceptId in Keys(CONCEPTS)
  {
  }

  /** The facts the rejection scenarios rest on: dr-rivera does not teach supply-demand, and prof-chan sits only on Wednesdays and Fridays. */
  lemma SeedScenarioFacts()
    ensures "supply-demand" !in DrRivera.focusAreas
    ensures "supply-demand" in ProfChan.focusAreas
    ensures forall w :: w in ProfChan.availability ==> w.weekday == "wednesday" || w.weekday == "friday"
  {
  }
}
