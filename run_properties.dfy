/** What `run` promises about the input CrawlDb-s it hands to `merge`. */
module RunProperties {
  import opened CrawlDbMerger

  /** An argument is kept exactly when it occurs, is not a switch and exists. */
  lemma {:induction false} InputDbsMembership(args: seq<string>, dbExists: string -> bool, x: string)
    ensures x in InputDbs(args, dbExists) <==> x in args && !IsSwitch(x) && dbExists(x)
    decreases |args|
  {
    if args != [] {
      var prefix := args[..|args| - 1];
      InputDbsMembership(prefix, dbExists, x);
      assert args == prefix + [args[|args| - 1]];
    }
  }

  /** Collecting the inputs commutes with splitting the arguments: the kept arguments
      come out in their original order. */
  lemma {:induction false} InputDbsAppend(a: seq<string>, b: seq<string>, dbExists: string -> bool)
    ensures InputDbs(a + b, dbExists) == InputDbs(a, dbExists) + InputDbs(b, dbExists)
    decreases |b|
  {
    if b == [] {
      assert a + b == a;
    } else {
      var b' := b[..|b| - 1];
      InputDbsAppend(a, b', dbExists);
      assert (a + b)[..|a + b| - 1] == a + b';
    }
  }

  /** A single argument is kept exactly when it is not a switch and exists. */
  lemma InputDbsSingle(x: string, dbExists: string -> bool)
    ensures InputDbs([x], dbExists) == if !IsSwitch(x) && dbExists(x) then [x] else []
  {
    assert [x][..0] == [];
  }

  /** A switch contributes nothing to the inputs, wherever it appears. */
  lemma SwitchAnywhereIsIgnored(a: seq<string>, b: seq<string>, switch: string, dbExists: string -> bool)
    requires IsSwitch(switch)
    ensures InputDbs(a + [switch] + b, dbExists) == InputDbs(a + b, dbExists)
  {
    InputDbsAppend(a + [switch], b, dbExists);
    InputDbsAppend(a, [switch], dbExists);
    InputDbsSingle(switch, dbExists);
    InputDbsAppend(a, b, dbExists);
  }
}
