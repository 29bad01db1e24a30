# friendlytagger: time-versioned label lookup

A Dafny model of the core of the `friendlytagger` telegraf processor. The
processor adds human-readable labels to coded tags of metrics
(`continent_code`, `country_code`, `county_code`, `region_code`, `asn`). For
every tag type it keeps a table mapping each code to a `LabelSet`: parallel
sequences of start times and labels, where `labels[i]` applies from
`startTimes[i]` on. The model covers:

- **Build** (`LabelSets.GroupRows`, `Tagger.FriendlyTagger.LoadGenericLabels`):
  the rows `(code, label, apply_from)` of one mapping table, in the order the
  `ORDER BY apply_from` query returns them, are grouped by code, each row
  appended to its code's history. The finished table is installed under its
  tag type as a whole new value. The specification of the loop is `Grouped`.
  It maps each code occurring in the rows to the history made of exactly the
  rows carrying that code, in input order (`Select`, `ToLabelSet`).
- **Resolve** (`LabelSets.FindLabel`, the backward scan): the label at the
  largest index whose start time is at or before the timestamp. Among equal
  start times the entry appended later wins. Nothing is returned when every
  entry starts later, or when the code is absent. The specification is
  `Resolve`/`LatestIndex`. `BuildThenLookup` ties a build followed by a
  lookup to the rows themselves: the result is the label of the last row that
  carries the code and applies at the timestamp (`LastLabel`).
- **The processor** (`Tagger.FriendlyTagger`): the fields `replacements`,
  `lastReload` and `reloadFrequency`, and the four table names. The
  constructor supplies the registration defaults. `Apply` returns an empty
  batch untouched. Otherwise it reloads when the first metric's timestamp is
  at least `reloadFrequency` past `lastReload`, then tags every metric in
  place. A reload reinstalls the static continent table, rebuilds the
  country, county, region and ASN tables, and sets `lastReload`.
  `InsertFriendlyLabels` stages one label tag per original tag whose code
  resolves at the metric's own timestamp. It adds the staged tags only after
  the scan, so added tags are never looked up themselves (`LabelsToAdd`,
  `Tagged`).

The mapping database is a parameter: a map from table name to the rows its
query returns. A metric is a value: a timestamp and a list of key/value tags.
Tagging appends to that list.

Behaviours of the code worth stating explicitly:
- `replacements` starts empty. The continent table is installed under
  `continent_code` on every reload, together with the database tables
  (src/friendlytagger.go:261, 319).
- The package comment (src/friendlytagger.go:31-33) speaks of the
  "closest" `apply_from`. The scan selects
  the closest one at or before the metric's timestamp, never a later one
  (`ClosestPreceding`, `Asn681Resolves`).
- With the defaults (`lastReload = 0`, `reloadFrequency = 120`), a first
  batch stamped before 120 loads nothing at all (`ColdStart`).
- A failed query ends the process. Nothing keeps the last tables on an error.

## Model

| member | source | states |
|---|---|---|
| `LabelSets.LatestIndex` | src/friendlytagger.go:295-302 | the scan's stopping index is the largest index whose start time is at or before the timestamp; there is none only when every start time is later |
| `LabelSets.Resolve` | src/friendlytagger.go:290-302 | a label is found iff some entry starts at or before the timestamp, and it is the label at the largest such index |
| `LabelSets.FindLabel` | src/friendlytagger.go:295-302 | the backward scan from the last entry, stopping at the first start time at or before the timestamp, returns exactly `Resolve` |
| `LabelSets.ClosestPreceding` | src/friendlytagger.go:179-182 | when start times are ordered, no entry that applies at the timestamp starts later than the one found |
| `LabelSets.Asn681Resolves` | src/friendlytagger.go:129-133 | ASN 681 resolves to "University of Waikato, NZ" in [0, 1592346088), to "Quigley College, NZ" from 1592346088 on, and to nothing before 0 |
| `LabelSets.DuplicateStartTimes` | src/friendlytagger.go:295-300 | with start times 100, 100, 200 and labels A, B, C: B at 150 (the later of two equal start times), C at 250, nothing at 50 |
| `LabelSets.GroupRows` | src/friendlytagger.go:197-213 | the row loop builds `Grouped(rows)`: each code of the rows mapped to the history of exactly its rows, in input order |
| `LabelSets.SelectMembers` | src/friendlytagger.go:198-211 | a code's history holds exactly the input rows that carry the code |
| `LabelSets.SelectAppend` | src/friendlytagger.go:198-213 | the rows of a code are kept in input order: selecting from a concatenation is the concatenation of the selections |
| `LabelSets.GroupedWellShaped` | src/friendlytagger.go:197-213 | the keys of a built table are exactly the codes of the rows, and every history is non-empty with as many labels as start times |
| `LabelSets.GroupedEmpty` | src/friendlytagger.go:197-198 | an empty row sequence builds an empty table |
| `LabelSets.SelectSorted` | src/friendlytagger.go:179-182 | selecting the rows of one code from rows ordered by start time keeps them ordered |
| `LabelSets.GroupedSorted` | src/friendlytagger.go:179-213 | rows ordered by start time build histories that are non-empty, parallel and ordered by start time |
| `LabelSets.ResolveSelected` | src/friendlytagger.go:290-302 | resolving the history of a code's rows gives the label of the last of those rows that applies at the timestamp |
| `LabelSets.BuildThenLookup` | src/friendlytagger.go:197-302 | looking up a code in a built table gives the label of the last input row carrying it that applies at the timestamp, and nothing for a code no row carries |
| `LabelSets.DuplicateRowsExample` | src/friendlytagger.go:198-300 | rows (X, A, 100), (X, B, 100), (X, C, 200) built and looked up: B at 150, C at 250, nothing at 50, nothing for an absent code |
| `Continents.ContinentsShape` | src/friendlytagger.go:64-97 | the static table has exactly the eight codes, each with one entry starting at 0 |
| `Continents.ContinentResolves` | src/friendlytagger.go:64-97 | every continent code resolves to its single label at any timestamp from 0 on, and to nothing before 0 |
| `Continents.EuropeAndUnassigned` | src/friendlytagger.go:64-97 | "EU" resolves to "Europe" and "??" to "Unassigned" from 0 on; an unknown code resolves to nothing |
| `Tagger.LabelsToAdd` | src/friendlytagger.go:287-305 | the scan stages at most one tag per original tag |
| `Tagger.LabelsToAddAppend` | src/friendlytagger.go:287-305 | staging distributes over the tag list, so the additions follow tag-list order |
| `Tagger.LabelsToAddMembers` | src/friendlytagger.go:287-305 | a tag is staged iff some original tag's key has a table whose new tag is its key and whose code resolves to its value at the timestamp |
| `Tagger.CountryExample` | src/friendlytagger.go:279-311 | a metric at 500 with country_code US against a table US → "United States" from 0 gains country_label "United States" and keeps its country_code tag |
| `Tagger.ReloadThreshold` | src/friendlytagger.go:260 | a reload is not due one second before `lastReload + reloadFrequency` and is due at it |
| `Tagger.ColdStart` | src/friendlytagger.go:319 | with the default state a batch triggers a load iff its first timestamp is at least 120 |
| `Tagger.ReloadKeepsOthers` | src/friendlytagger.go:259-267 | a reload adds the five reloaded keys and leaves every other table unchanged |
| `Tagger.ReloadReplaces` | src/friendlytagger.go:215-216 | each reloaded table is the static continent table or the build of its query, independent of what was stored before |
| `Tagger.ReloadedInstalled` | src/friendlytagger.go:259-267 | reloading from ordered rows keeps every table stored under its own coded tag with well-formed histories |
| `Tagger.FriendlyTagger.constructor` | src/friendlytagger.go:317-321 | empty tables, `lastReload` 0, `reloadFrequency` 120 and the four default table names |
| `Tagger.FriendlyTagger.LoadGenericLabels` | src/friendlytagger.go:171-218 | installs the build of the table's rows under the coded tag, replacing what was there, and nothing else changes |
| `Tagger.FriendlyTagger.LoadCountryLabels` | src/friendlytagger.go:222-226 | installs the country table under `country_code` with new tag `country_label` |
| `Tagger.FriendlyTagger.LoadCountyLabels` | src/friendlytagger.go:230-233 | installs the county table under `county_code` with new tag `county_label` |
| `Tagger.FriendlyTagger.LoadAsnLabels` | src/friendlytagger.go:237-239 | installs the ASN table under `asn` with new tag `asn_label` |
| `Tagger.FriendlyTagger.LoadRegionLabels` | src/friendlytagger.go:243-246 | installs the region table under `region_code` with new tag `region_label` |
| `Tagger.FriendlyTagger.Apply` | src/friendlytagger.go:251-273 | an empty batch leaves the state alone; otherwise it reloads (and sets `lastReload` to the first timestamp) iff a reload is due, else the state is unchanged; every metric is replaced in place by its tagged form under the resulting tables |
| `Tagger.FriendlyTagger.InsertFriendlyLabels` | src/friendlytagger.go:279-312 | the result keeps the timestamp and the original tags unaltered and in front, followed by exactly the staged tags of the original tags |

## Left out

- SQLite access (`sql.Open`, `db.Query`, `rows.Scan`) and `log.Fatal`: the database is a map from table name to the rows its query returns, in `ORDER BY apply_from` order. A missing table ends the process in the source. `Apply` therefore requires the four tables present and ordered whenever a reload is due.
- The error of `rows.Scan` is ignored in the source, so a row whose `apply_from` is NULL keeps the previous row's value. SQLite sorts NULL first under `ORDER BY apply_from`, so such a row is the first row or follows another NULL row, and its start time reads as the zero value 0. A NULL start time is therefore represented in the model by a row carrying 0. The loader helperscripts/load_mappings.py stores every start time of "0" as NULL, so this is the usual case for tables filled by it.
- The `DatabaseName` field is used only to open the database and is not part of the model.
- The telegraf `Metric` interface: a metric is a value (timestamp and tag list), and `AddTag` appends. Whether telegraf replaces a tag with an existing key is not modelled. Metrics are not objects, so the same metric appearing twice in a batch is not modelled.
- Timestamps and `LastReload` are unbounded integers. The int64 overflow of `timestamp - LastReload` is not modelled.
- Plugin registration (`processors.Add`), `SampleConfig`, `Description` and the TOML configuration that can override the defaults: host glue.
- helperscripts/queryasnnames.go, helperscripts/load_mappings.py, helperscripts/generate_region_mappings.py and helperscripts/generate_county_mappings.py fill the database through HTTP, JSON, CSV and SQL and are not part of this model.
- Concurrency: the processor has none.
