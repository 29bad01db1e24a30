/**
  The friendlytagger processor: per tag type a table of time-versioned
  labels, periodically rebuilt from the mapping database, and the pass that
  adds a label tag to each metric for every coded tag whose code resolves at
  the metric's own timestamp.
*/
module Tagger {
  import opened Wrappers
  import opened LabelSets
  import opened Continents

  /** One tag of a metric. */
  datatype Tag = Tag(key: string, value: string)

  /** A metric as the processor sees it: its timestamp in seconds and its tags. */
  datatype Metric = Metric(timestamp: int, tags: seq<Tag>)

  /**
    The mappings for one tag type: the tag holding the code, the tag to add
    with the label, and the history of every code.
  */
  datatype FriendlyTag = FriendlyTag(codedTag: string, newTag: string, valueMappings: map<string, LabelSet>)

  /** The mapping tables by name, each as its rows come back from `ORDER BY apply_from`. */
  type Database = map<string, seq<Row>>

  /** The query on `table` succeeds and delivers its rows in start-time order. */
  predicate QueryReady(db: Database, table: string)
  {
    table in db && SortedRows(db[table])
  }

  predicate Resolvable(ftag: FriendlyTag)
  {
    forall c :: c in ftag.valueMappings ==> Parallel(ftag.valueMappings[c])
  }

  predicate AllResolvable(reps: map<string, FriendlyTag>)
  {
    forall k :: k in reps ==> Resolvable(reps[k])
  }

  /**
    What holds of every table the processor installs: it is stored under
    its own coded tag, and every history in it is well formed.
  */
  predicate Installed(reps: map<string, FriendlyTag>)
  {
    forall k :: k in reps ==>
      reps[k].codedTag == k &&
      forall c :: c in reps[k].valueMappings ==> WellFormed(reps[k].valueMappings[c])
  }

  lemma InstalledResolvable(reps: map<string, FriendlyTag>)
    requires Installed(reps)
    ensures AllResolvable(reps)
  {
  }

  // ---------------------------------------------------------------------
  // Tagging one metric
  // ---------------------------------------------------------------------

  /** The tag that one original tag stages, if its code resolves at `t`. */
  function Staged(reps: map<string, FriendlyTag>, tag: Tag, t: int): seq<Tag>
    requires AllResolvable(reps)
  {
    if tag.key in reps then
      match Lookup(reps[tag.key].valueMappings, tag.value, t)
      case Some(name) => [Tag(reps[tag.key].newTag, name)]
      case None => []
    else []
  }

  /** The tags staged while scanning `tags`, in tag-list order. */
  function LabelsToAdd(reps: map<string, FriendlyTag>, tags: seq<Tag>, t: int): (added: seq<Tag>)
    requires AllResolvable(reps)
    ensures |added| <= |tags|
    decreases |tags|
  {
    if |tags| == 0 then []
    else LabelsToAdd(reps, tags[..|tags| - 1], t) + Staged(reps, tags[|tags| - 1], t)
  }

  /** A metric after tagging: its own tags, then the staged ones. */
  function Tagged(reps: map<string, FriendlyTag>, m: Metric): Metric
    requires AllResolvable(reps)
  {
    Metric(m.timestamp, m.tags + LabelsToAdd(reps, m.tags, m.timestamp))
  }

  /** The staged additions, from the two parallel lists that hold them. */
  function Zip(keys: seq<string>, values: seq<string>): seq<Tag>
    requires |keys| == |values|
  {
    seq(|keys|, i requires 0 <= i < |keys| => Tag(keys[i], values[i]))
  }

  /** `AddTag`, as an append to the tag list. */
  function AddTag(m: Metric, key: string, value: string): Metric
  {
    m.(tags := m.tags + [Tag(key, value)])
  }

  /** Staging distributes over the tag list, so additions follow its order. */
  lemma {:induction false} LabelsToAddAppend(reps: map<string, FriendlyTag>, a: seq<Tag>, b: seq<Tag>, t: int)
    requires AllResolvable(reps)
    ensures LabelsToAdd(reps, a + b, t) == LabelsToAdd(reps, a, t) + LabelsToAdd(reps, b, t)
    decreases |b|
  {
    if |b| == 0 {
      assert a + b == a;
    } else {
      var b' := b[..|b| - 1];
      LabelsToAddAppend(reps, a, b', t);
      assert (a + b)[..|a + b| - 1] == a + b';
    }
  }

  /** Original tag `i` is one whose lookup stages `added`. */
  ghost predicate StagedBy(reps: map<string, FriendlyTag>, tags: seq<Tag>, t: int, added: Tag, i: int)
    requires AllResolvable(reps)
  {
    0 <= i < |tags| && tags[i].key in reps &&
    reps[tags[i].key].newTag == added.key &&
    Lookup(reps[tags[i].key].valueMappings, tags[i].value, t) == Some(added.value)
  }

  /**
    A tag is added exactly when some original tag has a key with a table
    whose new tag is its key, and whose code resolves to its value.
  */
  lemma {:induction false} LabelsToAddMembers(reps: map<string, FriendlyTag>, tags: seq<Tag>, t: int, added: Tag)
    requires AllResolvable(reps)
    ensures added in LabelsToAdd(reps, tags, t) <==> exists i :: StagedBy(reps, tags, t, added, i)
    decreases |tags|
  {
    if |tags| > 0 {
      var p := tags[..|tags| - 1];
      var last := tags[|tags| - 1];
      LabelsToAddMembers(reps, p, t, added);
      if added in LabelsToAdd(reps, tags, t) {
        if added in LabelsToAdd(reps, p, t) {
          var i :| StagedBy(reps, p, t, added, i);
          assert tags[i] == p[i];
          assert StagedBy(reps, tags, t, added, i);
        } else {
          assert added in Staged(reps, last, t);
          assert StagedBy(reps, tags, t, added, |tags| - 1);
        }
      }
      if exists i :: StagedBy(reps, tags, t, added, i) {
        var i :| StagedBy(reps, tags, t, added, i);
        if i < |p| {
          assert p[i] == tags[i];
          assert StagedBy(reps, p, t, added, i);
        } else {
          assert Staged(reps, last, t) == [added];
        }
      }
    }
  }

  /** A country table with one code, tagging one metric. */
  lemma CountryExample()
    ensures var reps := map["country_code" := FriendlyTag("country_code", "country_label",
                          map["US" := LabelSet([0], ["United States"])])];
      Tagged(reps, Metric(500, [Tag("country_code", "US")])) ==
        Metric(500, [Tag("country_code", "US"), Tag("country_label", "United States")])
  {
    var reps := map["country_code" := FriendlyTag("country_code", "country_label",
                   map["US" := LabelSet([0], ["United States"])])];
    assert IsLatest([0], 500, 0);
    assert [Tag("country_code", "US")][..0] == [];
  }

  // ---------------------------------------------------------------------
  // Reloading
  // ---------------------------------------------------------------------

  /** The tag types a reload installs. */
  const ReloadedKeys: set<string> := {"continent_code", "country_code", "county_code", "region_code", "asn"}

  /** A reload is due once the batch timestamp is `reloadFrequency` past the last one. */
  predicate ReloadDue(timestamp: int, lastReload: int, reloadFrequency: int)
  {
    timestamp - lastReload >= reloadFrequency
  }

  lemma ReloadThreshold(lastReload: int, reloadFrequency: int)
    ensures !ReloadDue(lastReload + reloadFrequency - 1, lastReload, reloadFrequency)
    ensures ReloadDue(lastReload + reloadFrequency, lastReload, reloadFrequency)
  {
  }

  /** With the defaults, a first batch stamped before 120 loads nothing. */
  lemma ColdStart(timestamp: int)
    ensures ReloadDue(timestamp, 0, 120) <==> 120 <= timestamp
  {
  }

  /** The tables after a reload from the given query results. */
  function Reloaded(reps: map<string, FriendlyTag>, country: seq<Row>, county: seq<Row>,
                    region: seq<Row>, asn: seq<Row>): map<string, FriendlyTag>
  {
    reps["continent_code" := FriendlyTag("continent_code", "continent_label", StaticContinents)]
        ["country_code" := FriendlyTag("country_code", "country_label", Grouped(country))]
        ["county_code" := FriendlyTag("county_code", "county_label", Grouped(county))]
        ["region_code" := FriendlyTag("region_code", "region_label", Grouped(region))]
        ["asn" := FriendlyTag("asn", "asn_label", Grouped(asn))]
  }

  /** A reload leaves every table it does not reload as it was. */
  lemma ReloadKeepsOthers(reps: map<string, FriendlyTag>, country: seq<Row>, county: seq<Row>,
                          region: seq<Row>, asn: seq<Row>)
    ensures Reloaded(reps, country, county, region, asn).Keys == reps.Keys + ReloadedKeys
    ensures forall k :: k in reps && k !in ReloadedKeys ==>
      Reloaded(reps, country, county, region, asn)[k] == reps[k]
  {
  }

  /**
    A reload replaces the five reloaded tables wholesale: what they hold
    afterwards comes from the query results alone, whatever they held before.
  */
  lemma ReloadReplaces(reps: map<string, FriendlyTag>, before: map<string, FriendlyTag>,
                       country: seq<Row>, county: seq<Row>, region: seq<Row>, asn: seq<Row>)
    ensures var r := Reloaded(reps, country, county, region, asn);
      && r["continent_code"] == FriendlyTag("continent_code", "continent_label", StaticContinents)
      && r["country_code"] == FriendlyTag("country_code", "country_label", Grouped(country))
      && r["county_code"] == FriendlyTag("county_code", "county_label", Grouped(county))
      && r["region_code"] == FriendlyTag("region_code", "region_label", Grouped(region))
      && r["asn"] == FriendlyTag("asn", "asn_label", Grouped(asn))
    ensures forall k :: k in ReloadedKeys ==>
      Reloaded(reps, country, county, region, asn)[k] == Reloaded(before, country, county, region, asn)[k]
  {
  }

  /** Reloading from ordered rows keeps every installed table well formed. */
  lemma ReloadedInstalled(reps: map<string, FriendlyTag>, country: seq<Row>, county: seq<Row>,
                          region: seq<Row>, asn: seq<Row>)
    requires Installed(reps)
    requires SortedRows(country) && SortedRows(county) && SortedRows(region) && SortedRows(asn)
    ensures Installed(Reloaded(reps, country, county, region, asn))
  {
    ContinentsShape();
    GroupedSorted(country);
    GroupedSorted(county);
    GroupedSorted(region);
    GroupedSorted(asn);
  }

  // ---------------------------------------------------------------------
  // The processor
  // ---------------------------------------------------------------------

  class FriendlyTagger {
    var countryLabelTable: string
    var regionLabelTable: string
    var countyLabelTable: string
    var asnLabelTable: string

    /** The tables, by the tag that holds the code (`country_code`, `asn`, ...). */
    var replacements: map<string, FriendlyTag>

    var lastReload: int
    var reloadFrequency: int

    ghost predicate Valid()
      reads this
    {
      Installed(replacements)
    }

    /** The four configured tables can be queried; a reload needs them. */
    predicate TablesReady(db: Database)
      reads this
    {
      QueryReady(db, countryLabelTable) && QueryReady(db, countyLabelTable) &&
      QueryReady(db, regionLabelTable) && QueryReady(db, asnLabelTable)
    }

    /** The processor as registered: no tables yet, nothing loaded, reload every 120 seconds. */
    constructor ()
      ensures Valid()
      ensures replacements == map[] && lastReload == 0 && reloadFrequency == 120
      ensures countryLabelTable == "country_mappings" && countyLabelTable == "county_mappings"
      ensures asnLabelTable == "asn_mappings" && regionLabelTable == "region_mappings"
    {
      countryLabelTable := "country_mappings";
      regionLabelTable := "region_mappings";
      countyLabelTable := "county_mappings";
      asnLabelTable := "asn_mappings";
      replacements := map[];
      lastReload := 0;
      reloadFrequency := 120;
    }

    /**
      Builds the table of one tag type from the rows of `table` and installs
      it under `replacecode`, replacing any table stored there.
    */
    method LoadGenericLabels(db: Database, table: string, replacecode: string, replacelabel: string)
      requires Valid() && QueryReady(db, table)
      modifies this`replacements
      ensures Valid()
      ensures replacements == old(replacements)[replacecode := FriendlyTag(replacecode, replacelabel, Grouped(db[table]))]
    {
      var labelmap := GroupRows(db[table]);
      GroupedSorted(db[table]);
      replacements := replacements[replacecode := FriendlyTag(replacecode, replacelabel, labelmap)];
    }

    method LoadCountryLabels(db: Database)
      requires Valid() && QueryReady(db, countryLabelTable)
      modifies this`replacements
      ensures Valid()
      ensures replacements == old(replacements)["country_code" :=
        FriendlyTag("country_code", "country_label", Grouped(db[countryLabelTable]))]
    {
      LoadGenericLabels(db, countryLabelTable, "country_code", "country_label");
    }

    method LoadCountyLabels(db: Database)
      requires Valid() && QueryReady(db, countyLabelTable)
      modifies this`replacements
      ensures Valid()
      ensures replacements == old(replacements)["county_code" :=
        FriendlyTag("county_code", "county_label", Grouped(db[countyLabelTable]))]
    {
      LoadGenericLabels(db, countyLabelTable, "county_code", "county_label");
    }

    method LoadAsnLabels(db: Database)
      requires Valid() && QueryReady(db, asnLabelTable)
      modifies this`replacements
      ensures Valid()
      ensures replacements == old(replacements)["asn" :=
        FriendlyTag("asn", "asn_label", Grouped(db[asnLabelTable]))]
    {
      LoadGenericLabels(db, asnLabelTable, "asn", "asn_label");
    }

    method LoadRegionLabels(db: Database)
      requires Valid() && QueryReady(db, regionLabelTable)
      modifies this`replacements
      ensures Valid()
      ensures replacements == old(replacements)["region_code" :=
        FriendlyTag("region_code", "region_label", Grouped(db[regionLabelTable]))]
    {
      LoadGenericLabels(db, regionLabelTable, "region_code", "region_label");
    }

    /**
      Processes a batch: reloads every table when the first metric's
      timestamp shows a reload is due, then tags each metric in place.
    */
    method Apply(db: Database, batch: array<Metric>) returns (out: array<Metric>)
      requires Valid()
      requires batch.Length > 0 && ReloadDue(batch[0].timestamp, lastReload, reloadFrequency) ==> TablesReady(db)
      modifies this`replacements, this`lastReload, batch
      ensures Valid() && AllResolvable(replacements) && out == batch
      ensures batch.Length == 0 ==> replacements == old(replacements) && lastReload == old(lastReload)
      ensures batch.Length > 0 && ReloadDue(old(batch[0].timestamp), old(lastReload), reloadFrequency) ==>
        && replacements == Reloaded(old(replacements), db[countryLabelTable], db[countyLabelTable],
                                    db[regionLabelTable], db[asnLabelTable])
        && lastReload == old(batch[0].timestamp)
      ensures batch.Length > 0 && !ReloadDue(old(batch[0].timestamp), old(lastReload), reloadFrequency) ==>
        replacements == old(replacements) && lastReload == old(lastReload)
      ensures forall i :: 0 <= i < batch.Length ==> batch[i] == Tagged(replacements, old(batch[i]))
    {
      out := batch;
      if batch.Length < 1 {
        InstalledResolvable(replacements);
        return;
      }
      var timestamp := batch[0].timestamp;
      if timestamp - lastReload >= reloadFrequency {
        assert ReloadDue(timestamp, lastReload, reloadFrequency);
        assert TablesReady(db);
        ghost var before := replacements;
        ContinentsShape();
        replacements := replacements["continent_code" := FriendlyTag("continent_code", "continent_label", StaticContinents)];
        LoadCountryLabels(db);
        LoadCountyLabels(db);
        LoadRegionLabels(db);
        LoadAsnLabels(db);
        assert replacements == Reloaded(before, db[countryLabelTable], db[countyLabelTable],
                                        db[regionLabelTable], db[asnLabelTable]);
        lastReload := timestamp;
      }
      InstalledResolvable(replacements);
      var i := 0;
      while i < batch.Length
        invariant 0 <= i <= batch.Length
        invariant forall j :: 0 <= j < i ==> batch[j] == Tagged(replacements, old(batch[j]))
        invariant forall j :: i <= j < batch.Length ==> batch[j] == old(batch[j])
        modifies batch
      {
        batch[i] := InsertFriendlyLabels(batch[i]);
        i := i + 1;
      }
    }

    /**
      Scans the metric's tags, staging a label tag for every coded tag whose
      code resolves at the metric's timestamp, then adds the staged tags.
    */
    method InsertFriendlyLabels(metric: Metric) returns (tagged: Metric)
      requires Valid()
      ensures AllResolvable(replacements)
      ensures tagged == Tagged(replacements, metric)
      ensures tagged.timestamp == metric.timestamp && |tagged.tags| >= |metric.tags|
      ensures tagged.tags[..|metric.tags|] == metric.tags
    {
      InstalledResolvable(replacements);
      var timestamp := metric.timestamp;
      var toaddTags: seq<string> := [];
      var toaddLabels: seq<string> := [];
      var k := 0;
      while k < |metric.tags|
        invariant k <= |metric.tags|
        invariant |toaddTags| == |toaddLabels|
        invariant Zip(toaddTags, toaddLabels) == LabelsToAdd(replacements, metric.tags[..k], timestamp)
      {
        var tag := metric.tags[k];
        assert metric.tags[..k + 1][..k] == metric.tags[..k];
        if tag.key in replacements {
          var ftag := replacements[tag.key];
          if tag.value in ftag.valueMappings {
            var found := FindLabel(ftag.valueMappings[tag.value], timestamp);
            if found.Some? {
              toaddTags := toaddTags + [ftag.newTag];
              toaddLabels := toaddLabels + [found.value];
            }
          }
        }
        k := k + 1;
      }
      assert metric.tags[..k] == metric.tags;
      tagged := metric;
      var i := 0;
      while i < |toaddTags|
        invariant i <= |toaddTags|
        invariant tagged == Metric(metric.timestamp, metric.tags + Zip(toaddTags, toaddLabels)[..i])
      {
        assert Zip(toaddTags, toaddLabels)[..i + 1] == Zip(toaddTags, toaddLabels)[..i] + [Tag(toaddTags[i], toaddLabels[i])];
        tagged := AddTag(tagged, toaddTags[i], toaddLabels[i]);
        i := i + 1;
      }
      assert Zip(toaddTags, toaddLabels)[..i] == Zip(toaddTags, toaddLabels);
    }
  }
}
