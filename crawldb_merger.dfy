/**
 * The CrawlDb merge tool: the per-URL conflict resolver (the reducer `Merger`)
 * and the command-line entry point `Run`.
 */
module CrawlDbMerger {
  import opened Datum

  // ---------------------------------------------------------------------------
  // Specification of the reducer: a left fold over the group
  // ---------------------------------------------------------------------------

  /** The reducer's running state: the winner so far (`res`), its freshness
      (`resTime`) and the metadata accumulator (`meta`). */
  datatype Acc = Acc(res: CrawlDatum, resTime: Long, meta: MetaData)

  /** The first record of a group seeds the winner, its time and the accumulator. */
  function Seed(schedule: FetchSchedule, first: CrawlDatum): Acc
  {
    Acc(first, schedule(first), first.metaData)
  }

  /** One later record: promoted when strictly fresher (its entries overwrite the
      accumulator), otherwise the accumulator is written over its own map. Either way
      `resTime` becomes the larger of the two times, the winner is the old one or the
      new record, and the accumulator gains exactly the record's names. */
  function Step(schedule: FetchSchedule, acc: Acc, val: CrawlDatum): (r: Acc)
    ensures r.resTime >= acc.resTime && r.resTime >= schedule(val)
    ensures r.resTime == acc.resTime || r.resTime == schedule(val)
    ensures r.res == acc.res || r.res == val
    ensures r.meta.Keys == acc.meta.Keys + val.metaData.Keys
  {
    var valTime := schedule(val);
    if valTime > acc.resTime then Acc(val, valTime, acc.meta + val.metaData)
    else Acc(acc.res, acc.resTime, val.metaData + acc.meta)
  }

  /** The state after the reducer has consumed `values`, in iteration order. */
  function StateAfter(schedule: FetchSchedule, values: seq<CrawlDatum>): Acc
    requires |values| > 0
    decreases |values|
  {
    if |values| == 1 then Seed(schedule, values[0])
    else Step(schedule, StateAfter(schedule, values[..|values| - 1]), values[|values| - 1])
  }

  /** The record the reducer writes for a group: the winner with the accumulated metadata. */
  function Resolve(schedule: FetchSchedule, values: seq<CrawlDatum>): CrawlDatum
    requires |values| > 0
  {
    var acc := StateAfter(schedule, values);
    acc.res.(metaData := acc.meta)
  }

  // ---------------------------------------------------------------------------
  // The reducer
  // ---------------------------------------------------------------------------

  /** `meta.put(k, v)` for every entry of `src`, one entry at a time, starting from `dst`. */
  method PutAll(dst: MetaData, src: MetaData) returns (r: MetaData)
    ensures r.Keys == dst.Keys + src.Keys
    ensures forall k :: k in src ==> r[k] == src[k]
    ensures forall k :: k in dst && k !in src ==> r[k] == dst[k]
  {
    r := dst;
    var todo := src.Keys;
    while todo != {}
      invariant todo <= src.Keys
      invariant r.Keys == dst.Keys + (src.Keys - todo)
      invariant forall k :: k in src && k !in todo ==> r[k] == src[k]
      invariant forall k :: k in dst && k !in src ==> r[k] == dst[k]
      decreases todo
    {
      var k :| k in todo;
      r := r[k := src[k]];
      todo := todo - {k};
    }
  }

  /** The reducer class: `res` and `meta` are fields reused from call to call. */
  class Merger {
    const schedule: FetchSchedule
    var res: CrawlDatum
    var meta: MetaData

    /** `setup`: the fetch schedule comes from the job configuration. In the source
        `meta` is null until `reduce` assigns it; here it starts empty, and neither
        field is read before `reduce` assigns it for a non-empty group. */
    constructor (schedule: FetchSchedule)
      ensures this.schedule == schedule
      ensures res == Blank && meta == map[]
    {
      this.schedule := schedule;
      res := Blank;
      meta := map[];
    }

    /** `reduce`: resolves one non-empty group of records sharing the key `key`. */
    method Reduce(key: Url, values: seq<CrawlDatum>) returns (outKey: Url, out: CrawlDatum)
      requires |values| > 0
      modifies this
      ensures outKey == key
      ensures out == Resolve(schedule, values)
      ensures res == out && meta == out.metaData
    {
      var resTime: Long := 0;
      var resSet := false;
      var valTime: Long := 0;
      meta := map[];
      for i := 0 to |values|
        invariant resSet <==> i > 0
        invariant !resSet ==> meta == map[]
        invariant i > 0 ==> StateAfter(schedule, values[..i]) == Acc(res, resTime, meta)
      {
        var val := values[i];
        assert values[..i + 1][..i] == values[..i];
        if !resSet {
          res := val;
          resSet := true;
          resTime := schedule(res);
          meta := PutAll(meta, res.metaData);
          assert meta == res.metaData;
        } else {
          valTime := schedule(val);
          if valTime > resTime {
            meta := PutAll(meta, val.metaData);
            res := val;
            resTime := valTime;
          } else {
            meta := PutAll(val.metaData, meta);
          }
        }
      }
      assert values[..|values|] == values;
      res := res.(metaData := meta);
      outKey, out := key, res;
    }
  }

  // ---------------------------------------------------------------------------
  // The command-line entry point
  // ---------------------------------------------------------------------------

  datatype Option<T> = None | Some(value: T)

  /** The arguments `run` passes to `merge`. */
  datatype MergeCall = MergeCall(output: string, dbs: seq<string>, normalize: bool, filter: bool)

  /** The two switches `run` recognises after the output path. */
  predicate IsSwitch(arg: string)
  {
    arg == "-filter" || arg == "-normalize"
  }

  /** The input CrawlDb-s `run` collects from `args`: every non-switch argument that
      exists. There are never more of them than arguments. */
  function InputDbs(args: seq<string>, dbExists: string -> bool): (dbs: seq<string>)
    ensures |dbs| <= |args|
    decreases |args|
  {
    if args == [] then []
    else
      var last := args[|args| - 1];
      InputDbs(args[..|args| - 1], dbExists) + (if !IsSwitch(last) && dbExists(last) then [last] else [])
  }

  /** How `run` ends: it returns an exit code, or an exception escapes it. */
  datatype RunOutcome = Returned(code: int) | Escaped

  /** Some argument after the output path that is not a switch makes `new Path`,
      `getFileSystem` or `exists` throw. */
  predicate InputLookupThrows(args: seq<string>, pathThrows: string -> bool, lookupThrows: string -> bool)
  {
    exists i :: 1 <= i < |args| && !IsSwitch(args[i]) && (pathThrows(args[i]) || lookupThrows(args[i]))
  }

  /** `run`: parses `args` and calls `merge`. `pathThrows` says whether `new Path`
      throws for a string; `lookupThrows` whether `getFileSystem` or `FileSystem.exists`
      throws for that path; `dbExists` stands for `FileSystem.exists`; `mergeThrows` says
      whether `merge` throws for a given call. `call` is the call made to `merge`, if any. */
  method Run(args: seq<string>, pathThrows: string -> bool, lookupThrows: string -> bool,
             dbExists: string -> bool, mergeThrows: MergeCall -> bool)
    returns (outcome: RunOutcome, call: Option<MergeCall>)
    ensures |args| < 2 ==> outcome == Returned(-1) && call == None
    ensures outcome == Escaped <==>
      |args| >= 2 && (pathThrows(args[0]) || InputLookupThrows(args, pathThrows, lookupThrows))
    ensures call.Some? <==> |args| >= 2 && outcome != Escaped
    ensures call.Some? ==> call.value.output == args[0]
    ensures call.Some? ==> (call.value.filter <==> "-filter" in args[1..])
    ensures call.Some? ==> (call.value.normalize <==> "-normalize" in args[1..])
    ensures call.Some? ==> call.value.dbs == InputDbs(args[1..], dbExists)
    ensures call.Some? ==> (outcome == Returned(0) <==> !mergeThrows(call.value))
    ensures outcome == Escaped || outcome == Returned(0) || outcome == Returned(-1)
  {
    if |args| < 2 {
      return Returned(-1), None;
    }
    if pathThrows(args[0]) {
      return Escaped, None;
    }
    var output := args[0];
    var dbs: seq<string> := [];
    var filter := false;
    var normalize := false;
    for i := 1 to |args|
      invariant filter <==> exists j :: 1 <= j < i && args[j] == "-filter"
      invariant normalize <==> exists j :: 1 <= j < i && args[j] == "-normalize"
      invariant dbs == InputDbs(args[1..i], dbExists)
      invariant forall j :: 1 <= j < i && !IsSwitch(args[j]) ==> !pathThrows(args[j]) && !lookupThrows(args[j])
    {
      assert args[1..i + 1][..i - 1] == args[1..i];
      if args[i] == "-filter" {
        filter := true;
        continue;
      } else if args[i] == "-normalize" {
        normalize := true;
        continue;
      }
      if pathThrows(args[i]) || lookupThrows(args[i]) {
        assert !IsSwitch(args[i]);
        return Escaped, None;
      }
      var dbPath := args[i];
      if dbExists(dbPath) {
        dbs := dbs + [dbPath];
      }
    }
    assert args[1..|args|] == args[1..];
    assert filter <==> "-filter" in args[1..] by {
      if filter {
        var j :| 1 <= j < |args| && args[j] == "-filter";
        assert args[1..][j - 1] == "-filter";
      }
    }
    assert normalize <==> "-normalize" in args[1..] by {
      if normalize {
        var j :| 1 <= j < |args| && args[j] == "-normalize";
        assert args[1..][j - 1] == "-normalize";
      }
    }
    assert !InputLookupThrows(args, pathThrows, lookupThrows);
    call := Some(MergeCall(output, dbs, normalize, filter));
    outcome := if mergeThrows(call.value) then Returned(-1) else Returned(0);
  }
}
