/**
 * What the reducer promises about the record it writes for one URL group:
 * which record wins, which metadata names appear, and whose value each keeps.
 */
module ResolverProperties {
  import opened Datum
  import opened CrawlDbMerger

  // ---------------------------------------------------------------------------
  // Reference definitions, independent of the fold
  // ---------------------------------------------------------------------------

  /** The greatest freshness in the group. */
  function MaxFreshness(schedule: FetchSchedule, values: seq<CrawlDatum>): (m: Long)
    requires |values| > 0
    ensures forall i :: 0 <= i < |values| ==> schedule(values[i]) <= m
    ensures exists i :: 0 <= i < |values| && schedule(values[i]) == m
    decreases |values|
  {
    if |values| == 1 then schedule(values[0])
    else
      var prefix := values[..|values| - 1];
      var m' := MaxFreshness(schedule, prefix);
      var t := schedule(values[|values| - 1]);
      assert forall i :: 0 <= i < |prefix| ==> values[i] == prefix[i];
      if t > m' then t else m'
  }

  /** Every metadata name that some record of the group defines. */
  function AllNames(values: seq<CrawlDatum>): (names: set<Writable>)
    ensures forall k :: k in names <==> exists i :: 0 <= i < |values| && k in values[i].metaData
    decreases |values|
  {
    if values == [] then {}
    else
      var prefix := values[..|values| - 1];
      assert forall i :: 0 <= i < |prefix| ==> values[i] == prefix[i];
      AllNames(prefix) + values[|values| - 1].metaData.Keys
  }

  /** `w` is the first record, in iteration order, whose freshness is the group maximum. */
  ghost predicate IsFirstFreshest(schedule: FetchSchedule, values: seq<CrawlDatum>, w: int)
    requires |values| > 0
  {
    && 0 <= w < |values|
    && schedule(values[w]) == MaxFreshness(schedule, values)
    && forall j :: 0 <= j < w ==> schedule(values[j]) < MaxFreshness(schedule, values)
  }

  /** Some record of the group maps the name `k` to `v`. */
  ghost predicate SomeRecordHas(values: seq<CrawlDatum>, k: Writable, v: Writable)
  {
    exists j :: 0 <= j < |values| && k in values[j].metaData && values[j].metaData[k] == v
  }

  /** Record `i` is promoted when it is the first or strictly fresher than all before it. */
  ghost predicate Promoted(schedule: FetchSchedule, values: seq<CrawlDatum>, i: int)
    requires 0 <= i < |values|
  {
    i == 0 || schedule(values[i]) > MaxFreshness(schedule, values[..i])
  }

  /** The precedence the reducer gives record `j` over record `i` for a shared metadata
      name: promoted records outrank the rest, and among promoted records the later one
      wins, while among the rest the EARLIER one wins. */
  ghost predicate Outranks(schedule: FetchSchedule, values: seq<CrawlDatum>, j: int, i: int)
    requires 0 <= j < |values| && 0 <= i < |values|
  {
    if Promoted(schedule, values, j) then Promoted(schedule, values, i) ==> j > i
    else !Promoted(schedule, values, i) && j < i
  }

  // ---------------------------------------------------------------------------
  // Facts about the fold
  // ---------------------------------------------------------------------------

  /** `resTime` is the running maximum of the freshness. */
  lemma {:induction false} TimeIsMaxFreshness(schedule: FetchSchedule, values: seq<CrawlDatum>)
    requires |values| > 0
    ensures StateAfter(schedule, values).resTime == MaxFreshness(schedule, values)
    decreases |values|
  {
    if |values| > 1 {
      TimeIsMaxFreshness(schedule, values[..|values| - 1]);
    }
  }

  /** Whether record `i` is promoted depends only on the records before it. */
  lemma PromotedOfPrefix(schedule: FetchSchedule, values: seq<CrawlDatum>, n: int, i: int)
    requires 0 <= i < n <= |values|
    ensures Promoted(schedule, values[..n], i) == Promoted(schedule, values, i)
  {
    assert values[..n][..i] == values[..i];
  }

  /** The last record is promoted exactly when it is strictly fresher than the state before it. */
  lemma PromotedLast(schedule: FetchSchedule, values: seq<CrawlDatum>)
    requires |values| > 1
    ensures Promoted(schedule, values, |values| - 1)
        <==> schedule(values[|values| - 1]) > StateAfter(schedule, values[..|values| - 1]).resTime
  {
    TimeIsMaxFreshness(schedule, values[..|values| - 1]);
  }

  // ---------------------------------------------------------------------------
  // The winner
  // ---------------------------------------------------------------------------

  /** The output's core fields are a copy of the first record whose freshness is the
      group maximum: a later record only wins when STRICTLY fresher, so a tie keeps
      the earlier one. */
  lemma {:induction false} WinnerIsFirstFreshest(schedule: FetchSchedule, values: seq<CrawlDatum>)
    returns (w: nat)
    requires |values| > 0
    ensures IsFirstFreshest(schedule, values, w)
    ensures StateAfter(schedule, values).res == values[w]
    ensures Resolve(schedule, values) == values[w].(metaData := Resolve(schedule, values).metaData)
    decreases |values|
  {
    var n := |values| - 1;
    if n == 0 {
      return 0;
    }
    var prefix := values[..n];
    var w' := WinnerIsFirstFreshest(schedule, prefix);
    TimeIsMaxFreshness(schedule, prefix);
    TimeIsMaxFreshness(schedule, values);
    if schedule(values[n]) > StateAfter(schedule, prefix).resTime {
      w := n;
      forall j | 0 <= j < w
        ensures schedule(values[j]) < MaxFreshness(schedule, values)
      {
        assert values[j] == prefix[j];
      }
    } else {
      w := w';
      assert values[w] == prefix[w];
      forall j | 0 <= j < w
        ensures schedule(values[j]) < MaxFreshness(schedule, values)
      {
        assert values[j] == prefix[j];
      }
    }
  }

  /** There is exactly one first-freshest record. */
  lemma FirstFreshestUnique(schedule: FetchSchedule, values: seq<CrawlDatum>, w: int, w': int)
    requires |values| > 0
    requires IsFirstFreshest(schedule, values, w) && IsFirstFreshest(schedule, values, w')
    ensures w == w'
  {
  }

  /** The winner's metadata survives the rest of the fold. */
  lemma {:induction false} WinnerEntriesSurvive(schedule: FetchSchedule, values: seq<CrawlDatum>)
    requires |values| > 0
    ensures forall k :: k in StateAfter(schedule, values).res.metaData ==>
      k in StateAfter(schedule, values).meta &&
      StateAfter(schedule, values).meta[k] == StateAfter(schedule, values).res.metaData[k]
    decreases |values|
  {
    if |values| > 1 {
      WinnerEntriesSurvive(schedule, values[..|values| - 1]);
    }
  }

  /** For every attribute the winning record defines, the output keeps the winner's own value. */
  lemma WinnerAttributesWin(schedule: FetchSchedule, values: seq<CrawlDatum>, w: int)
    requires |values| > 0
    requires IsFirstFreshest(schedule, values, w)
    ensures forall k :: k in values[w].metaData ==>
      k in Resolve(schedule, values).metaData &&
      Resolve(schedule, values).metaData[k] == values[w].metaData[k]
  {
    var w' := WinnerIsFirstFreshest(schedule, values);
    FirstFreshestUnique(schedule, values, w, w');
    WinnerEntriesSurvive(schedule, values);
  }

  // ---------------------------------------------------------------------------
  // The metadata
  // ---------------------------------------------------------------------------

  /** The output metadata names are exactly the names some record of the group defines. */
  lemma {:induction false} OutputNamesAreUnion(schedule: FetchSchedule, values: seq<CrawlDatum>)
    requires |values| > 0
    ensures Resolve(schedule, values).metaData.Keys == AllNames(values)
    decreases |values|
  {
    if |values| > 1 {
      OutputNamesAreUnion(schedule, values[..|values| - 1]);
    }
  }

  /** The output metadata after the last record, from the state before it. */
  lemma LastStep(schedule: FetchSchedule, values: seq<CrawlDatum>)
    requires |values| > 1
    ensures var acc, v := StateAfter(schedule, values[..|values| - 1]), values[|values| - 1];
      Resolve(schedule, values).metaData ==
        if schedule(v) > acc.resTime then acc.meta + v.metaData else v.metaData + acc.meta
  {
  }

  /** Precedence between two records depends only on the records up to them. */
  lemma OutranksOfPrefix(schedule: FetchSchedule, values: seq<CrawlDatum>, n: int, j: int, i: int)
    requires 0 <= j < n && 0 <= i < n && n <= |values|
    ensures Outranks(schedule, values[..n], j, i) == Outranks(schedule, values, j, i)
  {
    PromotedOfPrefix(schedule, values, n, i);
    PromotedOfPrefix(schedule, values, n, j);
  }

  /** Each output value is the value of the record that outranks every other record
      defining the same name. */
  lemma {:induction false} MetadataPrecedence(schedule: FetchSchedule, values: seq<CrawlDatum>, k: Writable)
    returns (j: nat)
    requires |values| > 0
    requires k in AllNames(values)
    ensures j < |values| && k in values[j].metaData
    ensures k in Resolve(schedule, values).metaData
    ensures Resolve(schedule, values).metaData[k] == values[j].metaData[k]
    ensures forall i :: 0 <= i < |values| && i != j && k in values[i].metaData ==>
      Outranks(schedule, values, j, i)
    decreases |values|
  {
    var n := |values| - 1;
    if n == 0 {
      return 0;
    }
    var prefix := values[..n];
    var v := values[n];
    OutputNamesAreUnion(schedule, prefix);
    PromotedLast(schedule, values);
    LastStep(schedule, values);
    forall i | 0 <= i < n && k in values[i].metaData
      ensures k in AllNames(prefix)
    {
      assert values[i] == prefix[i];
    }
    if Promoted(schedule, values, n) && k in v.metaData {
      j := n;
      forall i | 0 <= i < n
        ensures Outranks(schedule, values, n, i)
      {
        PromotedLastOutranks(schedule, values, i);
      }
    } else if k in AllNames(prefix) {
      j := MetadataPrecedence(schedule, prefix, k);
      PrecedenceExtends(schedule, values, n, k, j);
    } else {
      j := n;
    }
  }

  /** A promoted last record outranks every record before it. */
  lemma PromotedLastOutranks(schedule: FetchSchedule, values: seq<CrawlDatum>, i: int)
    requires 0 <= i < |values| - 1 && Promoted(schedule, values, |values| - 1)
    ensures Outranks(schedule, values, |values| - 1, i)
  {
  }

  /** If record `j` outranks the other definers of `k` before the last record, and the
      last record does not take `k` over by promotion, `j` still outranks them all. */
  lemma PrecedenceExtends(schedule: FetchSchedule, values: seq<CrawlDatum>, n: int, k: Writable, j: int)
    requires n == |values| - 1 && 0 <= j < n
    requires forall i :: 0 <= i < n && i != j && k in values[..n][i].metaData ==>
      Outranks(schedule, values[..n], j, i)
    requires k in values[n].metaData ==> !Promoted(schedule, values, n)
    ensures forall i :: 0 <= i < |values| && i != j && k in values[i].metaData ==>
      Outranks(schedule, values, j, i)
  {
    forall i | 0 <= i < |values| && i != j && k in values[i].metaData
      ensures Outranks(schedule, values, j, i)
    {
      if i < n {
        assert values[i] == values[..n][i];
        OutranksOfPrefix(schedule, values, n, j, i);
      }
    }
  }

  /** Provenance: every output metadata value is that name's value in some record of the group. */
  lemma OutputValuesComeFromGroup(schedule: FetchSchedule, values: seq<CrawlDatum>)
    requires |values| > 0
    ensures forall k :: k in Resolve(schedule, values).metaData ==>
      SomeRecordHas(values, k, Resolve(schedule, values).metaData[k])
  {
    forall k | k in Resolve(schedule, values).metaData
      ensures SomeRecordHas(values, k, Resolve(schedule, values).metaData[k])
    {
      OutputNamesAreUnion(schedule, values);
      var j := MetadataPrecedence(schedule, values, k);
    }
  }

  /** A record that is not promoted keeps every value already accumulated and only adds
      the names the accumulator lacks; the winner does not change. */
  lemma NonPromotedOnlyAdds(schedule: FetchSchedule, values: seq<CrawlDatum>, i: int)
    requires 0 < i < |values|
    requires !Promoted(schedule, values, i)
    ensures StateAfter(schedule, values[..i + 1]).res == StateAfter(schedule, values[..i]).res
    ensures StateAfter(schedule, values[..i + 1]).meta.Keys ==
      StateAfter(schedule, values[..i]).meta.Keys + values[i].metaData.Keys
    ensures forall k :: k in StateAfter(schedule, values[..i]).meta ==>
      StateAfter(schedule, values[..i + 1]).meta[k] == StateAfter(schedule, values[..i]).meta[k]
    ensures forall k :: k in values[i].metaData && k !in StateAfter(schedule, values[..i]).meta ==>
      StateAfter(schedule, values[..i + 1]).meta[k] == values[i].metaData[k]
  {
    var p := values[..i + 1];
    assert p[..i] == values[..i];
    PromotedOfPrefix(schedule, values, i + 1, i);
    PromotedLast(schedule, p);
  }

  /** A promoted record becomes the winner and its entries overwrite the accumulator;
      every other accumulated value stays. */
  lemma PromotedOverrides(schedule: FetchSchedule, values: seq<CrawlDatum>, i: int)
    requires 0 < i < |values|
    requires Promoted(schedule, values, i)
    ensures StateAfter(schedule, values[..i + 1]).res == values[i]
    ensures StateAfter(schedule, values[..i + 1]).resTime == schedule(values[i])
    ensures StateAfter(schedule, values[..i + 1]).meta.Keys ==
      StateAfter(schedule, values[..i]).meta.Keys + values[i].metaData.Keys
    ensures forall k :: k in values[i].metaData ==>
      StateAfter(schedule, values[..i + 1]).meta[k] == values[i].metaData[k]
    ensures forall k :: k in StateAfter(schedule, values[..i]).meta && k !in values[i].metaData ==>
      StateAfter(schedule, values[..i + 1]).meta[k] == StateAfter(schedule, values[..i]).meta[k]
  {
    var p := values[..i + 1];
    assert p[..i] == values[..i];
    PromotedOfPrefix(schedule, values, i + 1, i);
    PromotedLast(schedule, p);
  }

  /** A single-record group passes through unchanged, metadata included. */
  lemma SingleRecordPassesThrough(schedule: FetchSchedule, v: CrawlDatum)
    ensures Resolve(schedule, [v]) == v
  {
  }

  // ---------------------------------------------------------------------------
  // Concrete groups
  // ---------------------------------------------------------------------------

  /** A schedule whose freshness is the fetch time itself. */
  function ByFetchTime(d: CrawlDatum): Long { d.fetchTime }

  /** A record with the given fetch time and metadata. */
  function Rec(t: Long, m: MetaData): CrawlDatum { CrawlDatum(2, t, 0, 0, 1.0, m) }

  /** A fresher record is the winner and the metadata of both records is combined. */
  lemma FresherRecordWins()
    ensures Resolve(ByFetchTime, [Rec(10, map["a" := "1"]), Rec(20, map["b" := "2"])])
         == Rec(20, map["a" := "1", "b" := "2"])
  {
    var a, b := Rec(10, map["a" := "1"]), Rec(20, map["b" := "2"]);
    assert [a, b][..1] == [a];
    assert StateAfter(ByFetchTime, [a, b]) == Acc(b, 20, a.metaData + b.metaData);
  }

  /** A record that is not promoted adds the names it alone defines, but the accumulated
      value wins for a name both define: with A(20, {a: 1, x: a}) before B(10, {b: 2, x: b})
      the output is A with {a: 1, b: 2, x: a}. */
  lemma OlderRecordAddsOnlyNewNames()
    ensures Resolve(ByFetchTime, [Rec(20, map["a" := "1", "x" := "a"]), Rec(10, map["b" := "2", "x" := "b"])])
         == Rec(20, map["a" := "1", "b" := "2", "x" := "a"])
  {
    var a, b := Rec(20, map["a" := "1", "x" := "a"]), Rec(10, map["b" := "2", "x" := "b"]);
    assert [a, b][..1] == [a];
    assert StateAfter(ByFetchTime, [a, b]) == Acc(a, 20, b.metaData + a.metaData);
  }

  /** A fresher record that is not promoted does not override an older value: with
      A(10, {x: a}), B(30, {}), C(20, {x: c}) in this order, C is fresher than A yet the
      output keeps A's `x: a`. So "newer values take precedence" does not hold. */
  lemma FresherValueCanBeLost()
    ensures var a, b, c := Rec(10, map["x" := "a"]), Rec(30, map[]), Rec(20, map["x" := "c"]);
      && ByFetchTime(c) > ByFetchTime(a)
      && Resolve(ByFetchTime, [a, b, c]).metaData["x"] == "a"
  {
    var a, b, c := Rec(10, map["x" := "a"]), Rec(30, map[]), Rec(20, map["x" := "c"]);
    assert [a, b, c][..2] == [a, b];
    assert [a, b][..1] == [a];
    assert StateAfter(ByFetchTime, [a, b]) == Acc(b, 30, a.metaData + b.metaData);
    assert StateAfter(ByFetchTime, [a, b, c]) == Acc(b, 30, c.metaData + (a.metaData + b.metaData));
  }

  /** Under equal freshness the output depends on the iteration order. */
  lemma TieDependsOnOrder()
    ensures var a, b := Rec(10, map["x" := "a"]), CrawlDatum(3, 10, 0, 0, 1.0, map["x" := "b"]);
      && Resolve(ByFetchTime, [a, b]) == a
      && Resolve(ByFetchTime, [b, a]) == b
  {
    var a, b := Rec(10, map["x" := "a"]), CrawlDatum(3, 10, 0, 0, 1.0, map["x" := "b"]);
    assert [a, b][..1] == [a];
    assert [b, a][..1] == [b];
    assert StateAfter(ByFetchTime, [a, b]) == Acc(a, 10, b.metaData + a.metaData);
    assert b.metaData + a.metaData == a.metaData;
    assert StateAfter(ByFetchTime, [b, a]) == Acc(b, 10, a.metaData + b.metaData);
    assert a.metaData + b.metaData == b.metaData;
  }
}
