/** `gen_config`: pair the requested metrics with the connected dials, in
    order, and build a configuration entry for each pair from the dial's
    current status. */
module GenConfig {
  import opened Wrappers
  import opened Client
  import opened Metrics
  import Dial

  /** Why no configuration was generated. */
  datatype GenError =
    | ListDialsFailed(error: ApiError)                        // `list_dials` failed
    | DialStatusFailed(dial: DialHandle, error: ApiError)     // "failed to get status for {uid}"

  /** The configuration `gen_config` writes, keyed by dial name. */
  type Dials = map<string, DialConfig>

  /** The update interval of every generated entry: one second. */
  const GeneratedIntervalMs: nat := 1000

  /** The entry for a dial showing `m`, with the dial's index and its
      current easing settings. */
  function ConfigFor(m: Metric, status: Dial.Status): (c: DialConfig)
    ensures c.index == status.index && c.metric == m
    ensures c.updateIntervalMs == GeneratedIntervalMs
    ensures c.dialEasing == Some(EasingConfig(status.easing.dialPeriodMs, status.easing.dialStep))
    ensures c.backlightEasing == Some(EasingConfig(status.easing.backlightPeriodMs, status.easing.backlightStep))
  {
    DialConfig(status.index, m, GeneratedIntervalMs,
               Some(EasingConfig(status.easing.dialPeriodMs, status.easing.dialStep)),
               Some(EasingConfig(status.easing.backlightPeriodMs, status.easing.backlightStep)))
  }

  /** How many pairs the zip makes. */
  function Pairs(metrics: seq<Metric>, listed: seq<Listed>): nat {
    if |metrics| < |listed| then |metrics| else |listed|
  }

  /** The zip loop, from an accumulated map: each pair inserts the entry under
      the metric's dial name (replacing an earlier one with the same name);
      the first status that fails ends it. */
  function GenFrom(acc: Dials, metrics: seq<Metric>, listed: seq<Listed>): Result<Dials, GenError>
    decreases |metrics|
  {
    if metrics == [] || listed == [] then Ok(acc)
    else match listed[0].status
      case Err(e) => Err(DialStatusFailed(listed[0].dial, e))
      case Ok(status) =>
        GenFrom(acc[DialName(metrics[0]) := ConfigFor(metrics[0], status)], metrics[1..], listed[1..])
  }

  function Generated(metrics: seq<Metric>, listing: Result<seq<Listed>, ApiError>): Result<Dials, GenError> {
    match listing
    case Err(e) => Err(ListDialsFailed(e))
    case Ok(listed) => GenFrom(map[], metrics, listed)
  }

  /** `gen_config` up to the point where the configuration is serialised. */
  method GenerateConfig(metrics: seq<Metric>, listing: Result<seq<Listed>, ApiError>)
    returns (r: Result<Dials, GenError>)
    ensures r == Generated(metrics, listing)
  {
    if listing.Err? {
      return Err(ListDialsFailed(listing.error));
    }
    var listed := listing.value;
    var dials: Dials := map[];
    var i := 0;
    while i < |metrics| && i < |listed|
      invariant i <= |metrics| && i <= |listed|
      invariant GenFrom(dials, metrics[i..], listed[i..]) == GenFrom(map[], metrics, listed)
    {
      assert metrics[i..][0] == metrics[i] && metrics[i..][1..] == metrics[i + 1..];
      assert listed[i..][0] == listed[i] && listed[i..][1..] == listed[i + 1..];
      var metric := metrics[i];
      match listed[i].status {
        case Err(e) =>
          return Err(DialStatusFailed(listed[i].dial, e));
        case Ok(status) =>
          dials := dials[DialName(metric) := ConfigFor(metric, status)];
      }
      i := i + 1;
    }
    assert metrics[i..] == [] || listed[i..] == [];
    return Ok(dials);
  }

  /** The statuses of the first `n` listed dials all came back. */
  predicate StatusesOk(listed: seq<Listed>, n: nat) {
    forall i :: 0 <= i < n && i < |listed| ==> listed[i].status.Ok?
  }

  /** The loop succeeds exactly when the status of every dial it pairs with
      a metric comes back; dials beyond the last metric are never asked. */
  lemma {:induction false} GenFromOk(acc: Dials, metrics: seq<Metric>, listed: seq<Listed>)
    ensures GenFrom(acc, metrics, listed).Ok? <==> StatusesOk(listed, Pairs(metrics, listed))
    decreases |metrics|
  {
    if metrics != [] && listed != [] {
      if listed[0].status.Ok? {
        var acc' := acc[DialName(metrics[0]) := ConfigFor(metrics[0], listed[0].status.value)];
        GenFromOk(acc', metrics[1..], listed[1..]);
        assert forall i :: 0 < i < |listed| ==> listed[i] == listed[1..][i - 1];
        if !StatusesOk(listed, Pairs(metrics, listed)) {
          var k :| 0 <= k < Pairs(metrics, listed) && k < |listed| && !listed[k].status.Ok?;
          assert listed[1..][k - 1] == listed[k];
        }
      }
    }
  }

  /** The names a pairing produces: one per metric that found a dial. */
  function PairedNames(metrics: seq<Metric>, n: nat): set<string>
    requires n <= |metrics|
  {
    set i | 0 <= i < n :: DialName(metrics[i])
  }

  /** `metrics[i]` is not requested again among the first `n`. */
  predicate LastRequest(metrics: seq<Metric>, n: nat, i: nat)
    requires i < n <= |metrics|
  {
    forall j :: i < j < n ==> metrics[j] != metrics[i]
  }

  /** Dropping the first pair drops its name, and only that, from the
      names paired. */
  lemma PairedNamesCons(metrics: seq<Metric>, n: nat)
    requires 0 < n <= |metrics|
    ensures PairedNames(metrics, n) == {DialName(metrics[0])} + PairedNames(metrics[1..], n - 1)
  {
    var ms := metrics[1..];
    forall k | k in PairedNames(metrics, n) ensures k in {DialName(metrics[0])} + PairedNames(ms, n - 1) {
      var i :| 0 <= i < n && DialName(metrics[i]) == k;
      if i > 0 { assert ms[i - 1] == metrics[i]; }
    }
    forall k | k in PairedNames(ms, n - 1) ensures k in PairedNames(metrics, n) {
      var i :| 0 <= i < n - 1 && DialName(ms[i]) == k;
      assert ms[i] == metrics[i + 1];
    }
  }

  /** The first pair's entry, if it succeeds, and the rest of the loop. */
  lemma GenFromFirst(acc: Dials, metrics: seq<Metric>, listed: seq<Listed>)
    requires StatusesOk(listed, Pairs(metrics, listed))
    requires metrics != [] && listed != []
    ensures StatusesOk(listed[1..], Pairs(metrics[1..], listed[1..]))
    ensures Pairs(metrics[1..], listed[1..]) == Pairs(metrics, listed) - 1
    ensures GenFrom(acc, metrics, listed)
            == GenFrom(acc[DialName(metrics[0]) := ConfigFor(metrics[0], listed[0].status.value)],
                       metrics[1..], listed[1..])
  {
    var ls := listed[1..];
    forall i | 0 <= i < Pairs(metrics[1..], ls) && i < |ls| ensures ls[i].status.Ok? {
      assert ls[i] == listed[i + 1];
    }
  }

  /** When the loop succeeds, it has entries for the names paired, besides
      those it started with, and leaves the others as they were. */
  lemma {:induction false} GenFromKeys(acc: Dials, metrics: seq<Metric>, listed: seq<Listed>)
    requires StatusesOk(listed, Pairs(metrics, listed))
    ensures GenFrom(acc, metrics, listed).Ok?
    ensures GenFrom(acc, metrics, listed).value.Keys == acc.Keys + PairedNames(metrics, Pairs(metrics, listed))
    ensures forall k :: k in acc && k !in PairedNames(metrics, Pairs(metrics, listed)) ==>
              GenFrom(acc, metrics, listed).value[k] == acc[k]
    decreases |metrics|
  {
    if metrics != [] && listed != [] {
      GenFromFirst(acc, metrics, listed);
      PairedNamesCons(metrics, Pairs(metrics, listed));
      var acc' := acc[DialName(metrics[0]) := ConfigFor(metrics[0], listed[0].status.value)];
      GenFromKeys(acc', metrics[1..], listed[1..]);
    }
  }

  /** The entry for a metric is built from the status of the dial paired
      with its last request. */
  lemma {:induction false} GenFromValues(acc: Dials, metrics: seq<Metric>, listed: seq<Listed>)
    requires StatusesOk(listed, Pairs(metrics, listed))
    ensures GenFrom(acc, metrics, listed).Ok?
    ensures forall i :: 0 <= i < Pairs(metrics, listed) ==> DialName(metrics[i]) in GenFrom(acc, metrics, listed).value
    ensures forall i :: 0 <= i < Pairs(metrics, listed) && LastRequest(metrics, Pairs(metrics, listed), i) ==>
              GenFrom(acc, metrics, listed).value[DialName(metrics[i])] == ConfigFor(metrics[i], listed[i].status.value)
    decreases |metrics|
  {
    GenFromKeys(acc, metrics, listed);
    var n := Pairs(metrics, listed);
    if metrics != [] && listed != [] {
      var ms := metrics[1..];
      var ls := listed[1..];
      GenFromFirst(acc, metrics, listed);
      var acc' := acc[DialName(metrics[0]) := ConfigFor(metrics[0], listed[0].status.value)];
      GenFromValues(acc', ms, ls);
      GenFromKeys(acc', ms, ls);
      var out := GenFrom(acc', ms, ls).value;
      forall i | 0 <= i < n && LastRequest(metrics, n, i)
        ensures out[DialName(metrics[i])] == ConfigFor(metrics[i], listed[i].status.value)
      {
        if i == 0 {
          forall j | 0 <= j < n - 1 ensures DialName(ms[j]) != DialName(metrics[0]) {
            assert ms[j] == metrics[j + 1];
            DialNameInjective(ms[j], metrics[0]);
          }
          assert DialName(metrics[0]) !in PairedNames(ms, n - 1);
        } else {
          assert ms[i - 1] == metrics[i] && ls[i - 1] == listed[i];
          assert LastRequest(ms, n - 1, i - 1) by {
            forall j | i - 1 < j < n - 1 ensures ms[j] != ms[i - 1] { assert ms[j] == metrics[j + 1]; }
          }
        }
      }
    }
  }

  /** The generated configuration has one entry per metric paired with a
      dial, each keyed by its metric's dial name, at the paired dial's index,
      updating once a second with the dial's current easing.  With no metric
      requested twice, there are as many entries as pairs. */
  lemma GeneratedEntries(metrics: seq<Metric>, listed: seq<Listed>)
    requires StatusesOk(listed, Pairs(metrics, listed))
    ensures Generated(metrics, Ok(listed)).Ok?
    ensures var dials := Generated(metrics, Ok(listed)).value;
            dials.Keys == PairedNames(metrics, Pairs(metrics, listed))
            && (forall k :: k in dials ==> k == DialName(dials[k].metric) && dials[k].updateIntervalMs == 1000)
    ensures var dials := Generated(metrics, Ok(listed)).value;
            forall i :: 0 <= i < Pairs(metrics, listed) && LastRequest(metrics, Pairs(metrics, listed), i) ==>
              dials[DialName(metrics[i])].index == listed[i].status.value.index
    ensures (forall i, j :: 0 <= i < j < Pairs(metrics, listed) ==> metrics[i] != metrics[j]) ==>
              |Generated(metrics, Ok(listed)).value| == Pairs(metrics, listed)
  {
    var n := Pairs(metrics, listed);
    GenFromKeys(map[], metrics, listed);
    GenFromValues(map[], metrics, listed);
    var dials := Generated(metrics, Ok(listed)).value;
    forall k | k in dials ensures k == DialName(dials[k].metric) && dials[k].updateIntervalMs == 1000 {
      var i :| 0 <= i < n && DialName(metrics[i]) == k;
      var last := LastIndex(metrics, n, i);
      DialNameInjective(metrics[last], metrics[i]);
    }
    if forall i, j :: 0 <= i < j < n ==> metrics[i] != metrics[j] {
      DistinctNamesCount(metrics, n);
    }
  }

  /** The last request, among the first `n`, of the metric requested at `i`. */
  function LastIndex(metrics: seq<Metric>, n: nat, i: nat): (last: nat)
    requires i < n <= |metrics|
    ensures i <= last < n && metrics[last] == metrics[i] && LastRequest(metrics, n, last)
    decreases n - i
  {
    if forall j :: i < j < n ==> metrics[j] != metrics[i] then i
    else
      var j :| i < j < n && metrics[j] == metrics[i];
      LastIndex(metrics, n, j)
  }


  /** The first `n` elements of a sequence, all different, make a set of
      `n` elements. */
  lemma {:induction false} DistinctCount<T>(xs: seq<T>, n: nat)
    requires n <= |xs|
    requires forall i, j :: 0 <= i < j < n ==> xs[i] != xs[j]
    ensures |set i | 0 <= i < n :: xs[i]| == n
  {
    if n > 0 {
      DistinctCount(xs, n - 1);
      var before := set i | 0 <= i < n - 1 :: xs[i];
      assert xs[n - 1] !in before;
      assert (set i | 0 <= i < n :: xs[i]) == before + {xs[n - 1]};
    }
  }

  lemma DistinctNamesCount(metrics: seq<Metric>, n: nat)
    requires n <= |metrics|
    requires forall i, j :: 0 <= i < j < n ==> metrics[i] != metrics[j]
    ensures |PairedNames(metrics, n)| == n
  {
    var names := seq(n, i requires 0 <= i < n => DialName(metrics[i]));
    forall i, j | 0 <= i < j < n ensures names[i] != names[j] {
      DialNameInjective(metrics[i], metrics[j]);
    }
    DistinctCount(names, n);
    assert forall i :: 0 <= i < n ==> names[i] == DialName(metrics[i]);
    assert PairedNames(metrics, n) == set i | 0 <= i < n :: names[i];
  }
}
