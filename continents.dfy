/**
  The continent table. Continent codes are not read from the database: the
  processor installs this fixed table, each code with a single label that
  applies from timestamp 0.
*/
module Continents {
  import opened Wrappers
  import opened LabelSets

  const StaticContinents: map<string, LabelSet> := map[
    "??" := LabelSet([0], ["Unassigned"]),
    "AS" := LabelSet([0], ["Asia"]),
    "NA" := LabelSet([0], ["North America"]),
    "EU" := LabelSet([0], ["Europe"]),
    "OC" := LabelSet([0], ["Oceania"]),
    "SA" := LabelSet([0], ["South America"]),
    "AF" := LabelSet([0], ["Africa"]),
    "AN" := LabelSet([0], ["Antarctica"])
  ]

  /** Eight codes, each with one well-formed entry starting at 0. */
  lemma ContinentsShape()
    ensures StaticContinents.Keys == {"??", "AS", "NA", "EU", "OC", "SA", "AF", "AN"}
    ensures forall c :: c in StaticContinents ==>
      WellFormed(StaticContinents[c]) &&
      StaticContinents[c].startTimes == [0] && |StaticContinents[c].labels| == 1
  {
  }

  /**
    Every continent code resolves to its one label at any timestamp from 0
    on, and to nothing before 0.
  */
  lemma ContinentResolves(code: string, t: int)
    requires code in StaticContinents
    ensures 0 <= t ==> Resolve(StaticContinents[code], t) == Some(StaticContinents[code].labels[0])
    ensures t < 0 ==> Resolve(StaticContinents[code], t) == None
  {
    ContinentsShape();
    if 0 <= t {
      assert IsLatest(StaticContinents[code].startTimes, t, 0);
    }
  }

  lemma EuropeAndUnassigned(t: int)
    requires 0 <= t
    ensures Lookup(StaticContinents, "EU", t) == Some("Europe")
    ensures Lookup(StaticContinents, "??", t) == Some("Unassigned")
    ensures Lookup(StaticContinents, "XX", t) == None
  {
    ContinentResolves("EU", t);
    ContinentResolves("??", t);
  }
}
