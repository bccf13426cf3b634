# CrawlDbMerger: the per-URL conflict resolver and the command line

Nutch's `CrawlDbMerger` merges several CrawlDb-s into one. A Hadoop job groups every
`CrawlDatum` by URL. The reducer `Merger.reduce` then turns each group into one
record. This project models that reducer and the argument parsing in `run`.

The reducer makes one pass over the group in iteration order:

- The first record seeds the winner `res`, its freshness `resTime` and the metadata
  accumulator `meta`.
- A later record becomes the winner only when it is strictly fresher. Its metadata
  entries then overwrite the accumulator.
- Otherwise the accumulator's entries are written into that record's own map, and
  that map becomes the accumulator.
- The output is the winner with the accumulated metadata.

Freshness is `FetchSchedule.calculateLastFetchTime`. It is a parameter of type
`CrawlDatum -> Long`: a deterministic function whose rules are not modelled.

Modules:

- `Datum` (datum.dfy): `CrawlDatum`, its `MapWritable` metadata and Java `long`.
- `CrawlDbMerger` (crawldb_merger.dfy): the reducer class `Merger` with its fields
  `res` and `meta`, the entry-copy loop `PutAll`, and `Run`. `Reduce` is proved
  equal to `Resolve`, a left fold (`Seed`, `Step`, `StateAfter`) over the group.
- `ResolverProperties` (resolver_properties.dfy): what the output is, stated through
  reference definitions that do not use the fold: the group maximum
  `MaxFreshness`, the union of names `AllNames`, and a precedence order `Outranks`.
- `RunProperties` (run_properties.dfy): which arguments become input CrawlDb-s.

The exact metadata rule (`MetadataPrecedence`) is this. Call a record *promoted* when
it is the first record or strictly fresher than every record before it. For a name
that several records define, a promoted record beats one that is not promoted. Among
promoted records the later one wins. Among the others the EARLIER one wins.

Three behaviours of the code are worth stating outright:

- The class comment (CrawlDbMerger.java:59-63) says newer metadata values take
  precedence. They need not: `FresherValueCanBeLost` gives a group where a fresher,
  non-promoted record's value is dropped.
- For a name that both define, a non-promoted record's own value is overwritten by
  the accumulated one (lines 113-114). `NonPromotedOnlyAdds` and
  `OlderRecordAddsOnlyNewNames` prove this.
- `run` calls `merge` even when no argument names an existing CrawlDb (lines
  220-234). What `merge` then does is outside this model.

## Model

| member | source | states |
|---|---|---|
| `CrawlDbMerger.PutAll` | src/java/org/apache/nutch/crawl/CrawlDbMerger.java:106-108 | Putting every entry of one map into another, one at a time, gives the union of the names. An entry of the source map overrides a shared name. Names only in the destination keep their value. |
| `CrawlDbMerger.Merger.constructor` | src/java/org/apache/nutch/crawl/CrawlDbMerger.java:73-83 | `setup` takes the fetch schedule from the configuration. The reused `res` starts as a blank record. `meta` is null in the source and modelled as empty; it is never read before line 91 assigns it. |
| `CrawlDbMerger.Step` | src/java/org/apache/nutch/crawl/CrawlDbMerger.java:102-117 | One later record: `resTime` becomes the larger of the old time and the record's freshness, the winner is either the old winner or the record, and the accumulated names gain exactly the record's names. |
| `CrawlDbMerger.Merger.Reduce` | src/java/org/apache/nutch/crawl/CrawlDbMerger.java:85-121 | For a non-empty group, the reducer writes the input key and the record `Resolve` defines. Afterwards the fields `res` and `meta` hold that record and its metadata. |
| `CrawlDbMerger.InputDbs` | src/java/org/apache/nutch/crawl/CrawlDbMerger.java:220-232 | There are never more inputs than arguments; which arguments are kept, and in what order, is stated by `InputDbsMembership` and `InputDbsAppend`. |
| `CrawlDbMerger.Run` | src/java/org/apache/nutch/crawl/CrawlDbMerger.java:204-240 | Fewer than two arguments returns -1 and `merge` is never called. An exception escapes `run`, with no call to `merge`, exactly when `new Path(args[0])` throws or, for some later non-switch argument, `new Path`, `getFileSystem` or `exists` throws. Otherwise `merge` is called once. Its output is `args[0]`. `filter` and `normalize` are set exactly when their switch occurs anywhere after `args[0]`. The inputs are the other arguments that exist, in order. `run` then returns 0 exactly when `merge` does not throw, and -1 otherwise. |
| `ResolverProperties.MaxFreshness` | src/java/org/apache/nutch/crawl/CrawlDbMerger.java:103-110 | The group maximum of the freshness: no record is fresher, and some record attains it. |
| `ResolverProperties.TimeIsMaxFreshness` | src/java/org/apache/nutch/crawl/CrawlDbMerger.java:92-110 | After any non-empty prefix of the group, `resTime` is the maximum freshness of that prefix. |
| `ResolverProperties.WinnerIsFirstFreshest` | src/java/org/apache/nutch/crawl/CrawlDbMerger.java:92-110 | The output's core fields are a copy of the first record, in iteration order, whose freshness is the group maximum. Every earlier record is strictly less fresh, so a tie keeps the earlier record. |
| `ResolverProperties.FirstFreshestUnique` | src/java/org/apache/nutch/crawl/CrawlDbMerger.java:104 | The first record with the maximum freshness is unique, so the winner that `WinnerIsFirstFreshest` names is well defined. |
| `ResolverProperties.WinnerAttributesWin` | src/java/org/apache/nutch/crawl/CrawlDbMerger.java:104-116 | For every name the winning record defines, the output value is the winner's own value. |
| `ResolverProperties.OutputNamesAreUnion` | src/java/org/apache/nutch/crawl/CrawlDbMerger.java:92-119 | The names in the output metadata are exactly the names defined by some record of the group. |
| `ResolverProperties.MetadataPrecedence` | src/java/org/apache/nutch/crawl/CrawlDbMerger.java:92-119 | Each output value is the value of the defining record that outranks every other record defining that name. Promoted records outrank the rest, the later promoted record wins, and among the rest the earlier record wins. |
| `ResolverProperties.OutputValuesComeFromGroup` | src/java/org/apache/nutch/crawl/CrawlDbMerger.java:92-119 | Provenance: every output metadata value is that name's value in some record of the group. |
| `ResolverProperties.NonPromotedOnlyAdds` | src/java/org/apache/nutch/crawl/CrawlDbMerger.java:111-117 | A record no fresher than the current winner leaves the winner unchanged. It never changes an accumulated value. It only adds the names the accumulator lacks, with its own values. |
| `ResolverProperties.PromotedOverrides` | src/java/org/apache/nutch/crawl/CrawlDbMerger.java:104-110 | A strictly fresher record becomes the winner, and its time becomes `resTime`. Its entries overwrite the accumulator, and all other accumulated values stay. |
| `ResolverProperties.SingleRecordPassesThrough` | src/java/org/apache/nutch/crawl/CrawlDbMerger.java:92-101 | A one-record group comes out unchanged, metadata included. |
| `ResolverProperties.FresherRecordWins` | src/java/org/apache/nutch/crawl/CrawlDbMerger.java:104-110 | Example: A(10, {a: 1}) then B(20, {b: 2}) gives B's fields with {a: 1, b: 2}. |
| `ResolverProperties.OlderRecordAddsOnlyNewNames` | src/java/org/apache/nutch/crawl/CrawlDbMerger.java:111-117 | Example: A(20, {a: 1, x: a}) then B(10, {b: 2, x: b}) gives A's fields with {a: 1, b: 2, x: a}. |
| `ResolverProperties.FresherValueCanBeLost` | src/java/org/apache/nutch/crawl/CrawlDbMerger.java:59-63 | Counterexample to "newer values take precedence": A(10, {x: a}), B(30, {}), C(20, {x: c}) gives x: a, though C is fresher than A. |
| `ResolverProperties.TieDependsOnOrder` | src/java/org/apache/nutch/crawl/CrawlDbMerger.java:104 | Two records with equal freshness produce different outputs in the two iteration orders: the first one seen wins. |
| `RunProperties.InputDbsMembership` | src/java/org/apache/nutch/crawl/CrawlDbMerger.java:220-232 | An argument is among the inputs exactly when it occurs, is not `-filter` or `-normalize`, and exists. |
| `RunProperties.InputDbsAppend` | src/java/org/apache/nutch/crawl/CrawlDbMerger.java:220-232 | Collecting inputs from two argument lists joined together gives the two results joined together, so the kept arguments stay in their original order. |
| `RunProperties.SwitchAnywhereIsIgnored` | src/java/org/apache/nutch/crawl/CrawlDbMerger.java:221-227 | Inserting `-filter` or `-normalize` anywhere in the arguments does not change the inputs. |

## Left out

- `merge` (lines 132-169): taking the CrawlDb lock, running the Hadoop job, installing
  the result and cleaning up after a failure all happen in classes outside this model.
  `Run` takes whether `merge` throws as a parameter.
- `createMergeJob` (lines 171-193): Hadoop job configuration, and a temporary directory
  named from `java.util.Random`.
- The mapper `CrawlDbFilter` (URL filtering and normalizing) is not part of this model.
  Only the two flags passed to `merge` are modelled.
- `FetchSchedule.calculateLastFetchTime`: a parameter, not modelled.
- `FileSystem.exists`: a predicate parameter of `Run`. Whether `new Path`,
  `getFileSystem` or `exists` throws for a string is a parameter too. A path is
  modelled as the argument string itself, so path normalization is not modelled.
  The kind and message of an escaping exception are not modelled.
- `CrawlDatum.java` is not part of this model. Its core fields are taken as status,
  fetch time, retries, fetch interval and score. The reducer only copies them, so
  their Java widths do not matter. `Blank` stands for `new CrawlDatum()`, whose
  values matter only for an empty group.
- `CrawlDbMerger.Merger.Reduce`: requires a non-empty group, because grouping by key
  never produces an empty one. With an empty group the code would write the stale
  `res` of the previous call with empty metadata.
- Records and maps are immutable values. So the model does not capture two things.
  First, line 114 mutates the input record's own map. Second, line 116 makes `meta`
  alias that map, which Hadoop may reuse for the next value.
- Serialization of `MapWritable`/`Writable`: names and values are opaque strings.
- Logging, timing, `System.err` usage text, `main` and `System.exit`, and the no-op
  `close`.
- Parallel execution of reducers for different keys.
