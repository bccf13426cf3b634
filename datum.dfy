/** The crawl-state record that CrawlDb-s store under each URL key. */
module Datum {

  /** Java `long`: the type of fetch times and of the freshness the schedule computes. */
  newtype Long = x: int | -0x8000_0000_0000_0000 <= x < 0x8000_0000_0000_0000

  /** A URL key (Hadoop `Text`). */
  type Url = string

  /** A metadata attribute name or value (an opaque `Writable`), by its serialized form. */
  type Writable = string

  /** A `MapWritable`: metadata attribute name to value. */
  type MetaData = map<Writable, Writable>

  /** A `CrawlDatum`: the core fields the merge copies wholesale, plus the metadata map. */
  datatype CrawlDatum = CrawlDatum(
    status: int,
    fetchTime: Long,
    retries: int,
    fetchInterval: int,
    score: real,
    metaData: MetaData)

  /** The value a freshly constructed `CrawlDatum` holds before anything is copied into it. */
  const Blank := CrawlDatum(0, 0, 0, 0, 0.0, map[])

  /** `FetchSchedule.calculateLastFetchTime`: a deterministic freshness of a record. */
  type FetchSchedule = CrawlDatum -> Long
}
