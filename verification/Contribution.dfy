/** How much one request contributes to privacy-impacting metrics, src/metric/context.h.

    Partitions are numbered in the order of their names, 0 being the empty name. A map from
    partitions to values is the sequence of its entries, in whatever order they are visited.
 */
module Contribution {
  import opened Common

  type Entry = (nat, real)

  /** What is configured for a metric; `view` are its public partitions. */
  datatype Metric = Metric(known: bool, impacting: bool, partitioned: bool, max: int, view: seq<nat>)

  datatype Status = Ok | Error

  predicate Sorted(s: seq<nat>) {
    forall i, j :: 0 <= i < j < |s| ==> s[i] <= s[j]
  }

  predicate Distinct(entries: seq<Entry>) {
    forall i, j :: 0 <= i < j < |entries| ==> entries[i].0 != entries[j].0
  }

  /** absl::c_binary_search; it finds what there is if the list is sorted. */
  method BinarySearch(s: seq<nat>, x: nat) returns (found: bool)
    ensures found ==> x in s
    ensures Sorted(s) ==> (found <==> x in s)
  {
    var lo, hi := 0, |s|;
    while lo < hi
      invariant 0 <= lo <= hi <= |s|
      invariant Sorted(s) ==> forall i :: 0 <= i < |s| ==> (i < lo ==> s[i] < x) && (hi <= i ==> x <= s[i])
    {
      var mid := (lo + hi) / 2;
      if s[mid] < x {
        lo := mid + 1;
      } else {
        hi := mid;
      }
    }
    found := lo < |s| && s[lo] == x;
  }

  /** The entries of public partitions. */
  function Public(view: seq<nat>, values: seq<Entry>): (out: seq<Entry>) {
    if values == [] then []
    else
      var n := |values| - 1;
      Public(view, values[..n]) + if values[n].0 in view then [values[n]] else []
  }

  function Take(n: nat, values: seq<Entry>): (out: seq<Entry>) {
    if n <= |values| then values[..n] else values
  }

  /** What a request may contribute of `values`: where there are public partitions only those, and
      at most so many. Without a limit of at least 1 the program does something else: a negative
      limit is none, and a limit of 0 lets the first entry through if it is public.
   */
  function Share(m: Metric, values: seq<Entry>): (out: seq<Entry>) {
    if m.view == [] then if m.max < 0 then values else Take(m.max, values)
    else if m.max < 0 then Public(m.view, values)
    else if m.max == 0 then Public(m.view, Take(1, values))
    else Take(m.max, Public(m.view, values))
  }

  /** The entries of a prefix come first. */
  lemma {:induction false} PublicPrefix(view: seq<nat>, values: seq<Entry>, i: nat)
    requires i <= |values|
    ensures Public(view, values[..i]) <= Public(view, values)
    decreases |values| - i
  {
    if i == |values| {
      assert values[..i] == values;
    } else {
      PublicPrefix(view, values, i + 1);
      assert values[..i + 1][..i] == values[..i];
    }
  }

  lemma {:induction false} PublicFair(view: seq<nat>, values: seq<Entry>)
    requires Distinct(values)
    ensures var out := Public(view, values);
      && Distinct(out) && |out| <= |values|
      && forall i :: 0 <= i < |out| ==> out[i] in values && out[i].0 in view
  {
    if values != [] {
      PublicFair(view, values[..|values| - 1]);
    }
  }

  /** Only what was given, no partition twice, and only public partitions where there are any. */
  ghost predicate Fair(m: Metric, values: seq<Entry>, out: seq<Entry>) {
    && Distinct(out) && (forall i :: 0 <= i < |out| ==> out[i] in values)
    && (m.view != [] ==> forall i :: 0 <= i < |out| ==> out[i].0 in m.view)
  }

  /** The share is fair, and within the limit exactly if the limit is at least 1, or it is 0 and
      there is nothing public to begin with.
   */
  lemma ShareFair(m: Metric, values: seq<Entry>)
    requires Distinct(values)
    ensures Fair(m, values, Share(m, values))
    ensures |Share(m, values)| <= m.max <==>
            m.max >= 1 || (m.max == 0 && (m.view == [] || values == [] || values[0].0 !in m.view))
  {
    PublicFair(m.view, values);
    PublicFair(m.view, Take(1, values));
    if m.max == 0 && m.view != [] && values != [] {
      assert Take(1, values) == [values[0]];
      assert Take(1, values)[..0] == [];
    }
  }

  /** So is what comes first of it. */
  lemma PartFair(m: Metric, values: seq<Entry>, out: seq<Entry>)
    requires Distinct(values) && out <= Share(m, values)
    ensures Fair(m, values, out) && (m.max >= 1 ==> |out| <= m.max)
  {
    ShareFair(m, values);
  }

  /** The entries that count against the limit. */
  function Eligible(m: Metric, values: seq<Entry>): (out: seq<Entry>) {
    if m.view == [] then values else Public(m.view, values)
  }

  /** Two shares of so many eligible entries are together within a limit of at least 1. */
  predicate FitsLimit(m: Metric, i: nat, j: nat) {
    i == 0 || j == 0 || i + j <= m.max
  }

  /** With a limit of 0, a request can contribute one partition. */
  lemma LimitZero()
    ensures |Share(Metric(true, true, true, 0, [1]), [(1, 1.0)])| == 1
  {
    assert [(1, 1.0)][..0] == [];
  }

  /** BoundPartitionsContributed; the size is compared with the limit as unsigned numbers. */
  method BoundPartitions(values: seq<Entry>, m: Metric) returns (out: seq<Entry>)
    requires Sorted(m.view)
    ensures out == Share(m, values)
  {
    out := [];
    if m.view != [] {
      var i := 0;
      while i < |values|
        invariant 0 <= i <= |values| && out == Public(m.view, values[..i])
        invariant i > 0 && m.max >= 0 ==> |out| < m.max
      {
        var found := BinarySearch(m.view, values[i].0);
        assert values[..i + 1][..i] == values[..i];
        if found {
          out := out + [values[i]];
        }
        i := i + 1;
        if 0 <= m.max <= |out| {
          break;
        }
      }
      assert values[..|values|] == values;
      PublicPrefix(m.view, values, i);
    } else {
      out := values;
      if 0 <= m.max <= |out| {
        out := out[..m.max];
      }
    }
  }

  // ---------------------------------------------------------------- accumulated values

  /** The entry of partition p, or the end. */
  function Find(values: seq<Entry>, p: nat): (i: nat)
    ensures i <= |values| && (i < |values| ==> values[i].0 == p)
    ensures forall j :: 0 <= j < i ==> values[j].0 != p
  {
    if values == [] then 0 else if values[0].0 == p then 0 else 1 + Find(values[1..], p)
  }

  function Value(values: seq<Entry>, p: nat): (v: real) {
    var i := Find(values, p);
    if i < |values| then values[i].1 else 0.0
  }

  function Put(values: seq<Entry>, p: nat, v: real): (r: seq<Entry>)
    ensures Distinct(values) ==> Distinct(r)
  {
    var i := Find(values, p);
    if i < |values| then values[i := (p, v)] else values + [(p, v)]
  }

  lemma {:induction false} FindFirst(values: seq<Entry>, p: nat, i: nat)
    requires i <= |values| && (i < |values| ==> values[i].0 == p)
    requires forall j :: 0 <= j < i ==> values[j].0 != p
    ensures Find(values, p) == i
  {
    if i > 0 {
      FindFirst(values[1..], p, i - 1);
    }
  }

  lemma PutValue(values: seq<Entry>, p: nat, v: real, q: nat)
    ensures Value(Put(values, p, v), q) == if q == p then v else Value(values, q)
  {
    var i, j, r := Find(values, p), Find(values, q), Put(values, p, v);
    if q == p {
      FindFirst(r, p, i);
    } else if j < |values| {
      FindFirst(r, q, j);
    } else {
      FindFirst(r, q, |r|);
    }
  }

  datatype Addition = Addition(partition: nat, value: real, mean: bool)

  /** `counts` is how often a mean has been taken; the first addition of all also counts. */
  datatype Accumulator = Accumulator(values: seq<Entry>, counts: map<nat, nat>)

  function Add(a: Option<Accumulator>, add: Addition): (r: Accumulator)
    ensures a.Some? && Distinct(a.value.values) ==> Distinct(r.values)
    ensures a.None? ==> Distinct(r.values)
  {
    var p := add.partition;
    match a
    case None => Accumulator([(p, add.value)], map[p := 1])
    case Some(Accumulator(values, counts)) =>
      var v := Value(values, p);
      if add.mean then
        var n := if p in counts then counts[p] + 1 else 1;
        Accumulator(Put(values, p, v + (add.value - v) / n as real), counts[p := n])
      else Accumulator(Put(values, p, v + add.value), counts)
  }

  function Fold(adds: seq<Addition>): (a: Option<Accumulator>)
    ensures a.Some? <==> adds != []
    ensures a.Some? ==> Distinct(a.value.values)
  {
    if adds == [] then None else Some(Add(Fold(adds[..|adds| - 1]), adds[|adds| - 1]))
  }

  function Held(adds: seq<Addition>, p: nat): (v: real) {
    if adds == [] then 0.0 else Value(Fold(adds).value.values, p)
  }

  function Sum(adds: seq<Addition>, p: nat): (v: real) {
    if adds == [] then 0.0
    else
      var last := adds[|adds| - 1];
      Sum(adds[..|adds| - 1], p) + if last.partition == p then last.value else 0.0
  }

  function Count(adds: seq<Addition>, p: nat): (n: nat) {
    if adds == [] then 0
    else Count(adds[..|adds| - 1], p) + if adds[|adds| - 1].partition == p then 1 else 0
  }

  lemma SingleValue(p: nat, v: real, q: nat)
    ensures Value([(p, v)], q) == if q == p then v else 0.0
  {
    PutValue([], p, v, q);
    assert [] + [(p, v)] == [(p, v)];
  }

  lemma AddSum(a: Accumulator, add: Addition, p: nat)
    requires !add.mean
    ensures Value(Add(Some(a), add).values, p) == Value(a.values, p) + if p == add.partition then add.value else 0.0
  {
    PutValue(a.values, add.partition, Value(a.values, add.partition) + add.value, p);
  }

  /** Additions that are not means give each partition its sum. */
  lemma {:induction false} AccumulatedSum(adds: seq<Addition>, p: nat)
    requires forall i :: 0 <= i < |adds| ==> !adds[i].mean
    ensures Held(adds, p) == Sum(adds, p)
  {
    if adds != [] {
      var n := |adds| - 1;
      AccumulatedSum(adds[..n], p);
      if n == 0 {
        SingleValue(adds[0].partition, adds[0].value, p);
      } else {
        AddSum(Fold(adds[..n]).value, adds[n], p);
      }
    }
  }

  function Counted(a: Accumulator, p: nat): (n: nat) {
    if p in a.counts then a.counts[p] else 0
  }

  lemma AddMean(a: Accumulator, add: Addition, p: nat)
    requires add.mean
    ensures var r := Add(Some(a), add); var v := Value(a.values, p); var n := Counted(a, p) + 1;
      if p == add.partition
      then Counted(r, p) == n && Value(r.values, p) == v + (add.value - v) / n as real
      else Counted(r, p) == Counted(a, p) && Value(r.values, p) == v
  {
    var v := Value(a.values, add.partition);
    PutValue(a.values, add.partition, v + (add.value - v) / (Counted(a, add.partition) + 1) as real, p);
  }

  /** `v` is the mean of n values with this sum. */
  ghost predicate IsMean(v: real, n: nat, sum: real) {
    v * n as real == sum
  }

  lemma MeanStep(v: real, n: nat, sum: real, x: real)
    requires IsMean(v, n, sum)
    ensures IsMean(v + (x - v) / (n + 1) as real, n + 1, sum + x)
  {
    var m := (n + 1) as real;
    var d := (x - v) / m;
    assert d * m == x - v;
    assert v * m == v * n as real + v;
    assert (v + d) * m == v * m + d * m;
  }

  /** Means give each partition its mean. */
  lemma {:induction false} AccumulatedMean(adds: seq<Addition>, p: nat)
    requires forall i :: 0 <= i < |adds| ==> adds[i].mean
    ensures IsMean(Held(adds, p), Count(adds, p), Sum(adds, p))
    ensures adds != [] ==> Counted(Fold(adds).value, p) == Count(adds, p)
  {
    if adds != [] {
      var n, last := |adds| - 1, adds[|adds| - 1];
      AccumulatedMean(adds[..n], p);
      if n == 0 {
        SingleValue(last.partition, last.value, p);
      } else {
        AddMean(Fold(adds[..n]).value, last, p);
        MeanStep(Held(adds[..n], p), Count(adds[..n], p), Sum(adds[..n], p), last.value);
      }
    }
  }

  /** The same entries in another order. */
  ghost predicate Rearranged(s: seq<Entry>, t: seq<Entry>) {
    Distinct(t) && forall e :: e in t <==> e in s
  }

  type Order = seq<Entry> -> seq<Entry>

  /** The order in which the entries of a map are visited. */
  ghost predicate Arranges(order: Order) {
    forall s :: Distinct(s) ==> Rearranged(s, order(s))
  }

  lemma {:induction false} PublicExact(view: seq<nat>, values: seq<Entry>, e: Entry)
    ensures e in Public(view, values) <==> e in values && e.0 in view
  {
    if values != [] {
      var n := |values| - 1;
      PublicExact(view, values[..n], e);
      assert values == values[..n] + [values[n]];
    }
  }

  lemma {:induction false} DistinctSize(s: seq<Entry>)
    requires Distinct(s)
    ensures |set e | e in s| == |s|
  {
    if s != [] {
      var n := |s| - 1;
      DistinctSize(s[..n]);
      assert (set e | e in s) == (set e | e in s[..n]) + {s[n]};
    }
  }

  lemma EligibleSize(m: Metric, s: seq<Entry>, t: seq<Entry>)
    requires Distinct(s) && Rearranged(s, t)
    ensures |Eligible(m, s)| == |Eligible(m, t)|
  {
    PublicFair(m.view, s);
    PublicFair(m.view, t);
    DistinctSize(Eligible(m, s));
    DistinctSize(Eligible(m, t));
    forall e
      ensures e in Eligible(m, s) <==> e in Eligible(m, t)
    {
      PublicExact(m.view, s, e);
      PublicExact(m.view, t, e);
    }
    assert (set e | e in Eligible(m, s)) == (set e | e in Eligible(m, t));
  }

  lemma FairRearranged(m: Metric, s: seq<Entry>, t: seq<Entry>, out: seq<Entry>)
    requires Rearranged(s, t) && Fair(m, t, out)
    ensures Fair(m, s, out)
  {
  }

  // ---------------------------------------------------------------- one request

  /** Where the router sends a value: straight to telemetry, by LogSafe, or to the aggregator that adds
      noise, by LogUnSafe.
   */
  datatype Route = Raw | Noised

  type Fed = map<(nat, Route), seq<Entry>>

  function Of(fed: Fed, d: nat, r: Route): (entries: seq<Entry>) {
    if (d, r) in fed then fed[(d, r)] else []
  }

  /** Whether metrics are switched on, whether everything is to be logged raw, for debugging or by
      consent, whether that is also to be logged noised, and whether the request has been decrypted.
   */
  datatype Policy = Policy(allowed: bool, open: bool, compare: bool, decrypted: bool)

  /** Once a request is decrypted, only privacy-impacting metrics are logged. */
  predicate Enabled(p: Policy, m: Metric) {
    p.allowed && (m.impacting || !p.decrypted)
  }

  /** Privacy-impacting metrics go to the aggregator, and others are logged raw. Everything is logged raw
      if that is allowed, and then not noised unless both are to be compared.
   */
  predicate Takes(p: Policy, m: Metric, r: Route) {
    && Enabled(p, m)
    && match r
       case Raw => p.open || !m.impacting
       case Noised => m.impacting && (p.open ==> p.compare)
  }

  /** What is known of a metric's log call: its values, whether it is deferred, and which ways its values
      are to go.
   */
  datatype Given = Given(values: seq<Entry>, deferred: bool, routes: set<Route>)

  predicate Bounded(m: Metric, g: Given, r: Route) {
    if g.deferred then r == Noised else m.partitioned
  }

  /** What the call may log that way. An immediate log call of a metric without partitions is not bounded,
      nor is what a deferred one logs raw.
   */
  function May(m: Metric, g: Given, r: Route): (out: seq<Entry>) {
    if Bounded(m, g, r) then Share(m, g.values) else g.values
  }

  function Due(m: Metric, g: Given, r: Route): (out: seq<Entry>) {
    if r in g.routes then May(m, g, r) else []
  }

  ghost predicate FairLog(m: Metric, g: Given, out: seq<Entry>) {
    out <= May(m, g, Noised) && (Bounded(m, g, Noised) ==> Fair(m, g.values, out))
  }

  /** A metric without partitions has one value. */
  predicate Typed(m: Metric, values: seq<Entry>) {
    Distinct(values) && (m.partitioned || |values| == 1)
  }

  ghost function Names(callbacks: seq<Deferred>): (ds: set<nat>) {
    set i | 0 <= i < |callbacks| :: callbacks[i].metric
  }

  /** A log call whose values are only asked for at the end of the request. */
  datatype Deferred = Deferred(metric: nat, logSafe: bool, values: seq<Entry>)

  /** The ways its values go, settled when the call is made. */
  predicate Goes(m: Metric, compare: bool, logSafe: bool, r: Route) {
    match r
    case Raw => logSafe
    case Noised => m.impacting && (logSafe ==> compare)
  }

  ghost function Routes(m: Metric, compare: bool, logSafe: bool): (rs: set<Route>)
    ensures forall r :: r in rs <==> Goes(m, compare, logSafe, r)
  {
    set r: Route | Goes(m, compare, logSafe, r)
  }

  ghost function RoutesOf(p: Policy, m: Metric): (rs: set<Route>)
    ensures forall r :: r in rs <==> Takes(p, m, r)
  {
    set r: Route | Takes(p, m, r)
  }

  /** The metrics side of one request. */
  class Context {
    const metrics: nat -> Metric
    const allowed: bool           // metrics are not switched off
    const debug: bool
    const compare: bool           // also log what was logged safely
    const accepts: nat -> bool    // whether the router's k-th call succeeds
    var decrypted: bool
    var consented: bool
    var calls: nat
    var logged: set<nat>
    var callbacks: seq<Deferred>
    var accumulated: map<nat, Accumulator>
    // What the router has been given, of each metric and each way.
    var fed: Fed
    // Each metric's log call.
    ghost var given: map<nat, Given>

    function Got(d: nat, r: Route): (entries: seq<Entry>)
      reads this`fed
    {
      Of(fed, d, r)
    }

    function Now(): (p: Policy)
      reads this`decrypted, this`consented
    {
      Policy(allowed, debug || consented, compare, decrypted)
    }

    /** What a log call has led to is the beginning of what is due, and nothing yet if it is deferred. */
    ghost predicate Within(d: nat, r: Route)
      reads this`fed, this`given, this`logged
    {
      && (d in given <==> d in logged)
      && (d in given ==> (Noised in given[d].routes ==> metrics(d).impacting))
      && Got(d, r) <= if d in given then Due(metrics(d), given[d], r) else []
    }

    /** If the router accepts everything, it is all of it. */
    ghost predicate Paid(d: nat, r: Route)
      reads this`fed, this`given
    {
      Obliging() && d in given ==> Got(d, r) == Due(metrics(d), given[d], r)
    }

    ghost predicate Waiting(c: Deferred)
      reads this`fed, this`given
    {
      && c.metric in given && (forall r :: Got(c.metric, r) == [])
      && given[c.metric] == Given(c.values, true, Routes(metrics(c.metric), compare, c.logSafe))
    }

    ghost predicate Valid()
      reads this
    {
      && (forall d :: d in accumulated ==> Distinct(accumulated[d].values))
      && (forall d, r :: Within(d, r)) && (forall d, r :: d !in Names(callbacks) ==> Paid(d, r))
      && (forall i :: 0 <= i < |callbacks| ==> Waiting(callbacks[i]))
      && (forall i, j :: 0 <= i < j < |callbacks| ==> callbacks[i].metric != callbacks[j].metric)
    }

    constructor (metrics: nat -> Metric, allowed: bool, debug: bool, compare: bool, accepts: nat -> bool)
      ensures Valid() && logged == {} && fed == map[] && given == map[] && callbacks == [] && accumulated == map[]
      ensures this.metrics == metrics && Now() == Policy(allowed, debug, compare, false) && this.accepts == accepts
    {
      this.metrics, this.allowed, this.debug, this.compare, this.accepts := metrics, allowed, debug, compare, accepts;
      decrypted, consented, calls, logged, callbacks := false, false, 0, {}, [];
      fed, given, accumulated := map[], map[], map[];
    }

    /** ShouldLogSafe; None is an error. */
    function ShouldLogSafe(impacting: bool): (r: Option<bool>)
      reads this
      ensures forall m: Metric :: m.impacting == impacting ==>
                && (r.Some? <==> Enabled(Now(), m))
                && (r == Some(true) <==> Takes(Now(), m, Raw))
    {
      if !allowed || (decrypted && !impacting) then None
      else if debug || consented then Some(true)
      else Some(!decrypted && !impacting)
    }

    /** The router is called. */
    method Router(d: nat, r: Route, e: Entry) returns (s: Status)
      modifies this`calls, this`fed
      ensures fed == old(fed)[(d, r) := old(Got(d, r)) + [e]] && calls == old(calls) + 1
      ensures s == Ok <==> accepts(old(calls))
    {
      fed := fed[(d, r) := Got(d, r) + [e]];
      s := if accepts(calls) then Ok else Error;
      calls := calls + 1;
    }

    /** The router takes whatever it is given. */
    ghost predicate Obliging() {
      forall k :: accepts(k)
    }

    /** The value goes every way it should, first raw, and no further if the router refuses it. */
    method LogMetricInternal(d: nat, e: Entry) returns (s: Status)
      modifies this`calls, this`fed
      ensures var m, p, k := metrics(d), Now(), old(calls);
        var raw, noised := Takes(p, m, Raw), Takes(p, m, Noised);
        && Got(d, Raw) == old(Got(d, Raw)) + (if raw then [e] else [])
        && Got(d, Noised) == old(Got(d, Noised)) + (if noised && (raw ==> accepts(k)) then [e] else [])
        && (s == Ok <==> Enabled(p, m) && (raw ==> accepts(k)) && (noised ==> accepts(if raw then k + 1 else k)))
      ensures forall c, r :: c != d ==> Got(c, r) == old(Got(c, r))
    {
      var logSafe := ShouldLogSafe(metrics(d).impacting);
      assert logSafe.Some? <==> Enabled(Now(), metrics(d));
      if logSafe.None? {
        return Error;
      }
      if logSafe.value {
        s := Router(d, Raw, e);
        if s == Error || !compare {
          return;
        }
      } else if !metrics(d).impacting {
        return Error;
      }
      if metrics(d).impacting {
        s := Router(d, Noised, e);
      } else {
        s := Ok;
      }
    }

    /** What went one way, of these entries; all of them if all went well. */
    ghost predicate Added(before: Fed, d: nat, r: Route, entries: seq<Entry>, all: bool)
      reads this`fed, this`decrypted, this`consented
    {
      && Of(before, d, r) <= Got(d, r) && Got(d, r)[|Of(before, d, r)|..] <= entries
      && (!Takes(Now(), metrics(d), r) ==> Got(d, r) == Of(before, d, r))
      && (all && Takes(Now(), metrics(d), r) ==> Got(d, r) == Of(before, d, r) + entries)
    }

    /** Logs these entries, up to the first error. */
    method LogAll(d: nat, entries: seq<Entry>) returns (s: Status, ghost all: bool)
      modifies this`calls, this`fed
      ensures all == (s == Ok || Obliging()) && forall r :: Added(old(fed), d, r, entries, all)
      ensures s == Ok ==> Enabled(Now(), metrics(d)) || entries == []
      ensures Obliging() ==> (s == Ok <==> Enabled(Now(), metrics(d)) || entries == [])
      ensures forall c, r :: c != d ==> Got(c, r) == old(Got(c, r))
    {
      ghost var before := fed;
      for i := 0 to |entries|
        invariant i > 0 ==> Enabled(Now(), metrics(d))
        invariant forall r :: Got(d, r) == Of(before, d, r) + if Takes(Now(), metrics(d), r) then entries[..i] else []
        invariant forall c, r :: c != d ==> Got(c, r) == old(Got(c, r))
      {
        s := LogOne(d, entries, i, before);
        if s == Error {
          all := Obliging();
          return;
        }
      }
      assert entries[..|entries|] == entries;
      s, all := Ok, true;
    }

    method LogOne(d: nat, entries: seq<Entry>, i: nat, ghost before: Fed) returns (s: Status)
      requires i < |entries|
      requires forall r :: Got(d, r) == Of(before, d, r) + if Takes(Now(), metrics(d), r) then entries[..i] else []
      modifies this`calls, this`fed
      ensures s == Ok ==> Enabled(Now(), metrics(d))
      ensures Obliging() ==> (s == Ok <==> Enabled(Now(), metrics(d)))
      ensures s == Ok ==>
                forall r :: Got(d, r) == Of(before, d, r) + if Takes(Now(), metrics(d), r) then entries[..i + 1] else []
      ensures forall r :: Added(before, d, r, entries, false)
      ensures !Enabled(Now(), metrics(d)) ==> forall r :: Got(d, r) == Of(before, d, r)
      ensures forall c, r :: c != d ==> Got(c, r) == old(Got(c, r))
    {
      s := LogMetricInternal(d, entries[i]);
      forall r
        ensures Added(before, d, r, entries, false)
        ensures s == Ok ==> Got(d, r) == Of(before, d, r) + if Takes(Now(), metrics(d), r) then entries[..i + 1] else []
      {
        assert r == Raw || r == Noised;
        Grown(Of(before, d, r), old(Got(d, r)), Got(d, r), entries, i, Takes(Now(), metrics(d), r));
      }
    }

    /** AssertLoggable: a metric can only be logged once for a request. */
    method AssertLoggable(d: nat, ghost g: Given) returns (s: Status)
      requires Valid() && g.routes == {}
      modifies this`logged, this`given
      ensures Valid() && (s == Ok <==> d !in old(logged)) && logged == old(logged) + {d}
      ensures s == Ok ==> given == old(given)[d := g] && (forall r :: Got(d, r) == []) && d !in Names(callbacks)
      ensures s == Error ==> given == old(given)
    {
      assert Within(d, Raw);
      if d in logged {
        return Error;
      }
      forall r
        ensures Got(d, r) == []
      {
        assert Within(d, r);
      }
      logged, given := logged + {d}, given[d := g];
      forall c, r
        ensures Within(c, r) && (c !in Names(callbacks) ==> Paid(c, r))
      {
        assert old(Within(c, r)) && (c !in Names(callbacks) ==> old(Paid(c, r)));
      }
      assert forall i :: 0 <= i < |callbacks| ==> old(Waiting(callbacks[i]));
      return Ok;
    }

    /** LogMetric, of a partitioned metric or, with one entry, of any other. It fails if the metric has been
        logged before or is unknown, if it is not to be logged, or if the router refuses a value.
     */
    method LogMetric(d: nat, values: seq<Entry>) returns (s: Status)
      requires Valid() && Sorted(metrics(d).view) && Typed(metrics(d), values)
      modifies this`calls, this`logged, this`given, this`fed
      ensures Valid() && logged == old(logged) + {d}
      ensures d in old(logged) ==> given == old(given) && fed == old(fed)
      ensures d !in old(logged) ==>
                given == old(given)[d := Given(values, false,
                                               if metrics(d).known then RoutesOf(Now(), metrics(d)) else {})]
      ensures s == Ok ==> Acceptable(d in old(logged), metrics(d), Now(), values)
      ensures Obliging() ==> (s == Ok <==> Acceptable(d in old(logged), metrics(d), Now(), values))
      ensures s == Ok || (Obliging() && d !in old(logged)) ==> forall r :: Got(d, r) == Due(metrics(d), given[d], r)
    {
      ghost var g := Given(values, false, {});
      s := AssertLoggable(d, g);
      if s == Error {
        return;
      }
      if !metrics(d).known {
        return Error;
      }
      var entries := values;
      if metrics(d).partitioned {
        entries := BoundPartitions(values, metrics(d));
      }
      s := Contribute(d, entries, g);
    }

    method Contribute(d: nat, entries: seq<Entry>, ghost g: Given) returns (s: Status)
      requires Valid() && d in given && given[d] == g && (forall r :: Got(d, r) == []) && d !in Names(callbacks)
      requires !g.deferred && entries == May(metrics(d), g, Raw)
      modifies this`calls, this`given, this`fed
      ensures Valid() && given == old(given)[d := g.(routes := RoutesOf(Now(), metrics(d)))]
      ensures s == Ok ==> Enabled(Now(), metrics(d)) || entries == []
      ensures Obliging() ==> (s == Ok <==> Enabled(Now(), metrics(d)) || entries == [])
      ensures s == Ok || Obliging() ==> forall r :: Got(d, r) == Due(metrics(d), given[d], r)
    {
      ghost var before, all := fed, true;
      s, all := LogAll(d, entries);
      given := given[d := g.(routes := RoutesOf(Now(), metrics(d)))];
      forall r
        ensures Within(d, r) && Paid(d, r) && (s == Ok || Obliging() ==> Got(d, r) == Due(metrics(d), given[d], r))
      {
        assert old(Within(d, r)) && Added(before, d, r, entries, all);
        FromNothing(Got(d, r), entries);
      }
      forall c, r | c != d
        ensures Within(c, r) && (c !in Names(callbacks) ==> Paid(c, r))
      {
        assert old(Within(c, r)) && (c !in Names(callbacks) ==> old(Paid(c, r)));
      }
      assert forall i :: 0 <= i < |callbacks| ==> callbacks[i].metric in Names(callbacks) && old(Waiting(callbacks[i]));
    }

    /** LogMetricDeferred: the values are fixed now but logged when the request ends. It fails if the metric
        has been logged before or is unknown, or if it is not to be logged.
     */
    method LogMetricDeferred(d: nat, values: seq<Entry>) returns (s: Status)
      requires Valid()
      modifies this`logged, this`given, this`callbacks
      ensures Valid() && logged == old(logged) + {d}
      ensures s == Ok <==> d !in old(logged) && metrics(d).known && Enabled(Now(), metrics(d))
      ensures d in old(logged) ==> given == old(given)
      ensures d !in old(logged) ==>
                given == old(given)[d := Given(values, true,
                                               if metrics(d).known then RoutesOf(Now(), metrics(d)) else {})]
      ensures s == Ok ==>
                callbacks == old(callbacks) + [Deferred(d, Takes(Now(), metrics(d), Raw), values)]
      ensures s == Error ==> callbacks == old(callbacks)
    {
      s := AssertLoggable(d, Given(values, true, {}));
      if s == Error {
        return;
      }
      if !metrics(d).known {
        return Error;
      }
      var logSafe := ShouldLogSafe(metrics(d).impacting);
      assert logSafe.Some? <==> Enabled(Now(), metrics(d));
      if logSafe.None? {
        assert RoutesOf(Now(), metrics(d)) == {};
        return Error;
      }
      assert RoutesOf(Now(), metrics(d)) == Routes(metrics(d), compare, logSafe.value) by {
        assert forall r :: Takes(Now(), metrics(d), r) <==> Goes(metrics(d), compare, logSafe.value, r);
      }
      Remember(Deferred(d, logSafe.value, values));
    }

    method Remember(c: Deferred)
      requires Valid() && c.metric in given && given[c.metric] == Given(c.values, true, {})
      requires (forall r :: Got(c.metric, r) == []) && c.metric !in Names(callbacks)
      modifies this`given, this`callbacks
      ensures Valid() && callbacks == old(callbacks) + [c]
      ensures given == old(given)[c.metric := Given(c.values, true, Routes(metrics(c.metric), compare, c.logSafe))]
    {
      ghost var routes := Routes(metrics(c.metric), compare, c.logSafe);
      given, callbacks := given[c.metric := Given(c.values, true, routes)], callbacks + [c];
      NamesMore(old(callbacks), c);
      forall d, r
        ensures Within(d, r) && (d !in Names(callbacks) ==> Paid(d, r))
      {
        assert old(Within(d, r)) && (d !in Names(old(callbacks)) ==> old(Paid(d, r)));
      }
      forall i | 0 <= i < |callbacks|
        ensures Waiting(callbacks[i])
      {
        if i < |old(callbacks)| {
          assert old(callbacks)[i].metric in Names(old(callbacks)) && old(Waiting(callbacks[i]));
        }
      }
    }

    /** The end of a deferred log call. What is logged raw is not bounded, but the aggregator is given a
        share.
     */
    method RunCallback(c: Deferred) returns (s: Status)
      requires Sorted(metrics(c.metric).view) && forall r :: Got(c.metric, r) == []
      modifies this`calls, this`fed
      ensures var m := metrics(c.metric);
        && Got(c.metric, Raw) <= (if c.logSafe then c.values else [])
        && Got(c.metric, Noised) <= (if m.impacting && (c.logSafe ==> compare) then Share(m, c.values) else [])
        && (s == Ok || Obliging() ==>
              && Got(c.metric, Raw) == (if c.logSafe then c.values else [])
              && Got(c.metric, Noised) == if m.impacting && (c.logSafe ==> compare) then Share(m, c.values) else [])
      ensures Obliging() ==> (s == Ok <==> c.logSafe || metrics(c.metric).impacting)
      ensures forall d, r :: d != c.metric ==> Got(d, r) == old(Got(d, r))
    {
      var d := c.metric;
      if c.logSafe {
        s := SendAll(d, Raw, c.values);
        if s == Error || !compare {
          return;
        }
      } else if !metrics(d).impacting {
        return Error;
      }
      if metrics(d).impacting {
        var entries := BoundPartitions(c.values, metrics(d));
        s := SendAll(d, Noised, entries);
      } else {
        s := Ok;
      }
    }

    method SendAll(d: nat, r: Route, entries: seq<Entry>) returns (s: Status)
      requires Got(d, r) == []
      modifies this`calls, this`fed
      ensures Got(d, r) <= entries && (s == Ok ==> Got(d, r) == entries) && (Obliging() ==> s == Ok)
      ensures forall c, q :: c != d || q != r ==> Got(c, q) == old(Got(c, q))
    {
      for i := 0 to |entries|
        invariant Got(d, r) == entries[..i]
        invariant forall c, q :: c != d || q != r ==> Got(c, q) == old(Got(c, q))
      {
        assert entries[..i + 1] == entries[..i] + [entries[i]];
        s := Router(d, r, entries[i]);
        if s == Error {
          return;
        }
      }
      s := Ok;
    }

    /** The destructor's first loop: every deferred call is run, and an error ends only the call it
        belongs to.
     */
    method RunCallbacks()
      requires Valid() && forall d :: Sorted(metrics(d).view)
      modifies this`calls, this`fed, this`callbacks
      ensures Valid() && callbacks == [] && (forall d, r :: Paid(d, r)) && (old(callbacks) == [] ==> fed == old(fed))
    {
      while callbacks != []
        invariant Valid() && (old(callbacks) == [] ==> callbacks == [] && fed == old(fed))
        decreases |callbacks|
      {
        RunNext();
      }
    }

    method RunNext()
      requires Valid() && callbacks != [] && Sorted(metrics(callbacks[0].metric).view)
      modifies this`calls, this`fed, this`callbacks
      ensures Valid() && callbacks == old(callbacks)[1..]
    {
      var c := callbacks[0];
      assert Waiting(c);
      var _ := RunCallback(c);
      callbacks := callbacks[1..];
      NamesLess(old(callbacks));
      forall d, r
        ensures Within(d, r) && (d !in Names(callbacks) ==> Paid(d, r))
      {
        assert old(Within(d, r)) && (d !in Names(old(callbacks)) ==> old(Paid(d, r)));
        assert r == Raw || r == Noised;
      }
      assert forall i :: 0 <= i < |callbacks| ==> old(Waiting(callbacks[i]));
    }

    /** AccumulateMetric, which does not ask whether the metric has been logged. */
    method AccumulateMetric(d: nat, add: Addition) returns (s: Status)
      requires Valid()
      modifies this`accumulated
      ensures Valid() && (s == Ok <==> metrics(d).known)
      ensures accumulated == if s == Ok then old(accumulated)[d := Add(old(Sums(d)), add)] else old(accumulated)
    {
      if !metrics(d).known {
        return Error;
      }
      accumulated := accumulated[d := Add(Sums(d), add)];
      return Ok;
    }

    function Sums(d: nat): (a: Option<Accumulator>)
      reads this`accumulated
    {
      if d in accumulated then Some(accumulated[d]) else None
    }

    /** What the accumulated metrics have added by now to what the router had before. */
    ghost predicate Topped(before: Fed, d: nat, r: Route, order: Order, todo: set<nat>)
      reads this`fed, this`accumulated, this`decrypted, this`consented
    {
      if d in accumulated && d !in todo
      then Added(before, d, r, Share(metrics(d), order(accumulated[d].values)), Obliging())
      else Got(d, r) == Of(before, d, r)
    }

    /** The destructor's second loop. */
    method RunAccumulators(order: Order)
      requires Valid() && Arranges(order) && forall d :: Sorted(metrics(d).view)
      modifies this`calls, this`fed
      ensures forall d, r :: Topped(old(fed), d, r, order, {})
    {
      ghost var before := fed;
      var todo := accumulated.Keys;
      while todo != {}
        invariant todo <= accumulated.Keys && forall d, r :: Topped(before, d, r, order, todo)
        decreases todo
      {
        var d :| d in todo;
        RunAccumulator(d, order, before, todo);
        todo := todo - {d};
      }
    }

    method RunAccumulator(d: nat, order: Order, ghost before: Fed, ghost todo: set<nat>)
      requires d in accumulated && d in todo && Sorted(metrics(d).view)
      requires forall c, r :: Topped(before, c, r, order, todo)
      modifies this`calls, this`fed
      ensures forall c, r :: Topped(before, c, r, order, todo - {d})
    {
      var entries := BoundPartitions(order(accumulated[d].values), metrics(d));
      ghost var now, all := fed, true;
      var s;
      s, all := LogAll(d, entries);
      forall c, r
        ensures Topped(before, c, r, order, todo - {d})
      {
        assert old(Topped(before, c, r, order, todo));
        assert c == d ==> Added(now, d, r, entries, all);
      }
    }

    /** Over a whole request, the log calls of a privacy-impacting metric, immediate or deferred,
        give the aggregator at most as many partitions as allowed, each once, each with its value,
        and only public ones where there are any; other metrics give it nothing.
     */
    lemma Contributed(d: nat)
      requires Valid() && (d in given ==> Typed(metrics(d), given[d].values))
      ensures Got(d, Noised) != [] ==>
                metrics(d).impacting && d in given && FairLog(metrics(d), given[d], Got(d, Noised))
      ensures metrics(d).max >= 1 ==> |Got(d, Noised)| <= metrics(d).max
    {
      assert Within(d, Noised);
      if d in given && Noised in given[d].routes && Bounded(metrics(d), given[d], Noised) {
        PartFair(metrics(d), given[d].values, Got(d, Noised));
      }
    }

    ghost function Logged(d: nat): (g: Option<Given>)
      reads this`given
    {
      if d in given then Some(given[d]) else None
    }
  }

  lemma FromNothing(got: seq<Entry>, entries: seq<Entry>)
    ensures [] + entries == entries && got[0..] == got
  {
  }

  lemma Grown(before: seq<Entry>, was: seq<Entry>, got: seq<Entry>, entries: seq<Entry>, i: nat, takes: bool)
    requires i < |entries| && was == before + (if takes then entries[..i] else [])
    requires got == was || (takes && got == was + [entries[i]])
    ensures before <= got && got[|before|..] <= entries && (!takes ==> got == before)
    ensures takes && got == was + [entries[i]] ==> got == before + entries[..i + 1]
  {
    if takes {
      assert before + entries[..i] + [entries[i]] == before + entries[..i + 1];
    }
  }

  /** A first log call is accepted if the metric is known and either to be logged or has nothing to log. */
  predicate Acceptable(before: bool, m: Metric, p: Policy, values: seq<Entry>) {
    !before && m.known && (Enabled(p, m) || (m.partitioned && Share(m, values) == []))
  }

  lemma NamesMore(callbacks: seq<Deferred>, c: Deferred)
    ensures Names(callbacks + [c]) == Names(callbacks) + {c.metric}
  {
    assert (callbacks + [c])[|callbacks|] == c;
    assert forall i :: 0 <= i < |callbacks| ==> (callbacks + [c])[i] == callbacks[i];
  }

  lemma NamesLess(callbacks: seq<Deferred>)
    requires callbacks != []
    requires forall i, j :: 0 <= i < j < |callbacks| ==> callbacks[i].metric != callbacks[j].metric
    ensures Names(callbacks[1..]) == Names(callbacks) - {callbacks[0].metric}
  {
    assert forall i :: 0 < i < |callbacks| ==> callbacks[i] == callbacks[1..][i - 1];
  }

  /** What a server does during a request. */
  datatype Call =
    | Log(metric: nat, values: seq<Entry>)
    | Defer(metric: nat, values: seq<Entry>)
    | Accumulate(metric: nat, add: Addition)
    | SetDecrypted
    | SetConsented

  predicate Logs(call: Call) {
    call.Log? || call.Defer?
  }

  /** What is accumulated of metric d. */
  function AddsOf(calls: seq<Call>, d: nat): (adds: seq<Addition>) {
    if calls == [] then []
    else
      var last := calls[|calls| - 1];
      AddsOf(calls[..|calls| - 1], d) + if last.Accumulate? && last.metric == d then [last.add] else []
  }

  lemma AddsStep(calls: seq<Call>, k: nat, d: nat)
    requires k < |calls|
    ensures var adds := AddsOf(calls[..k], d);
      if calls[k].Accumulate? && calls[k].metric == d
      then Fold(AddsOf(calls[..k + 1], d)) == Some(Add(Fold(adds), calls[k].add))
      else AddsOf(calls[..k + 1], d) == adds
  {
    var adds := AddsOf(calls[..k], d);
    assert calls[..k + 1][..k] == calls[..k];
    if calls[k].Accumulate? && calls[k].metric == d {
      assert (adds + [calls[k].add])[..|adds|] == adds;
    }
  }

  /** How a request starts. */
  datatype Setting = Setting(metrics: nat -> Metric, policy: Policy)

  /** The policy after these calls. */
  function After(x: Setting, calls: seq<Call>): (p: Policy) {
    x.policy.(open := x.policy.open || SetConsented in calls, decrypted := x.policy.decrypted || SetDecrypted in calls)
  }

  ghost function Noted(x: Setting, before: seq<Call>, call: Call): (g: Given)
    requires Logs(call)
  {
    var m := x.metrics(call.metric);
    Given(call.values, call.Defer?, if m.known then RoutesOf(After(x, before), m) else {})
  }

  /** The first log call of metric d. */
  ghost function FirstLog(x: Setting, calls: seq<Call>, d: nat): (g: Option<Given>) {
    if calls == [] then None
    else
      var front, last := calls[..|calls| - 1], calls[|calls| - 1];
      var g := FirstLog(x, front, d);
      if g.Some? || !Logs(last) || last.metric != d then g else Some(Noted(x, front, last))
  }

  /** The call is accepted, if the router accepts everything. */
  ghost predicate Welcome(x: Setting, before: seq<Call>, call: Call) {
    match call
    case Log(d, values) => Acceptable(FirstLog(x, before, d).Some?, x.metrics(d), After(x, before), values)
    case Defer(d, _) =>
      FirstLog(x, before, d).None? && x.metrics(d).known && Enabled(After(x, before), x.metrics(d))
    case Accumulate(d, _) => x.metrics(d).known
    case _ => true
  }

  /** With a router that accepts everything, what metric d logs either way by its log call and by what was
      accumulated.
   */
  ghost function LogPart(x: Setting, calls: seq<Call>, d: nat, r: Route): (out: seq<Entry>) {
    match FirstLog(x, calls, d)
    case None => []
    case Some(g) => Due(x.metrics(d), g, r)
  }

  function SumPart(x: Setting, calls: seq<Call>, d: nat, r: Route, order: Order): (out: seq<Entry>) {
    var m, adds := x.metrics(d), AddsOf(calls, d);
    if m.known && adds != [] && Takes(After(x, calls), m, r) then Share(m, order(Fold(adds).value.values)) else []
  }

  /** How many entries each of the two would like to contribute. */
  ghost function LogCount(x: Setting, calls: seq<Call>, d: nat): (n: nat) {
    match FirstLog(x, calls, d)
    case None => 0
    case Some(g) =>
      if Noised !in g.routes then 0
      else if Bounded(x.metrics(d), g, Noised) then |Eligible(x.metrics(d), g.values)| else |g.values|
  }

  function SumCount(x: Setting, calls: seq<Call>, d: nat): (n: nat) {
    var m, adds := x.metrics(d), AddsOf(calls, d);
    if m.known && adds != [] && Takes(After(x, calls), m, Noised) then |Eligible(m, Fold(adds).value.values)| else 0
  }

  ghost predicate AllTyped(x: Setting, calls: seq<Call>) {
    forall i :: 0 <= i < |calls| && Logs(calls[i]) ==> Typed(x.metrics(calls[i].metric), calls[i].values)
  }

  lemma {:induction false} FirstTyped(x: Setting, calls: seq<Call>, d: nat)
    requires AllTyped(x, calls)
    ensures var g := FirstLog(x, calls, d); g.Some? ==> Typed(x.metrics(d), g.value.values)
  {
    if calls != [] {
      FirstTyped(x, calls[..|calls| - 1], d);
    }
  }

  /** The limit is kept, exactly if one of the two has nothing to contribute or both fit. */
  lemma LimitExact(x: Setting, calls: seq<Call>, d: nat, order: Order)
    requires AllTyped(x, calls) && Arranges(order) && x.metrics(d).max >= 1
    ensures |LogPart(x, calls, d, Noised)| + |SumPart(x, calls, d, Noised, order)| <= x.metrics(d).max <==>
            FitsLimit(x.metrics(d), LogCount(x, calls, d), SumCount(x, calls, d))
  {
    var m, adds := x.metrics(d), AddsOf(calls, d);
    FirstTyped(x, calls, d);
    if adds != [] {
      var values := Fold(adds).value.values;
      EligibleSize(m, values, order(values));
    }
  }

  /** Of metric d, the first log call has contributed `first`, a fair share of its values. */
  ghost predicate FromLog(m: Metric, g: Option<Given>, first: seq<Entry>) {
    && (m.max >= 1 ==> |first| <= m.max)
    && (first != [] ==> m.impacting && g.Some? && FairLog(m, g.value, first))
  }

  /** What was accumulated of it has contributed `second`, a fair share of the sums or means. */
  ghost predicate FromSums(m: Metric, calls: seq<Call>, d: nat, second: seq<Entry>) {
    && (m.max >= 1 ==> |second| <= m.max)
    && (second != [] ==>
          m.impacting && AddsOf(calls, d) != [] && Fair(m, Fold(AddsOf(calls, d)).value.values, second))
  }

  /** The context is set up like this, after these calls. */
  ghost predicate SetUp(c: Context, x: Setting, calls: seq<Call>)
    reads c`consented, c`decrypted
  {
    c.metrics == x.metrics && c.Now() == After(x, calls)
  }

  method ServeOne(c: Context, call: Call, ghost x: Setting, ghost before: seq<Call>) returns (s: Status)
    requires c.Valid() && SetUp(c, x, before) && forall d :: Sorted(c.metrics(d).view)
    requires Logs(call) ==> Typed(c.metrics(call.metric), call.values)
    requires forall d :: c.Logged(d) == FirstLog(x, before, d)
    modifies c
    ensures c.Valid() && SetUp(c, x, before + [call])
    ensures s == Ok ==> Welcome(x, before, call)
    ensures c.Obliging() ==> (s == Ok <==> Welcome(x, before, call))
    ensures forall d :: c.Logged(d) ==
              if old(c.Logged(d)).Some? || !Logs(call) || call.metric != d then old(c.Logged(d))
              else Some(Noted(x, before, call))
    ensures forall d :: c.Sums(d) ==
              if call.Accumulate? && call.metric == d && c.metrics(d).known
              then Some(Add(old(c.Sums(d)), call.add))
              else old(c.Sums(d))
  {
    if Logs(call) {
      assert c.Within(call.metric, Raw);
      assert c.Logged(call.metric) == FirstLog(x, before, call.metric);
    }
    s := Ok;
    match call {
      case Log(d, values) => s := c.LogMetric(d, values);
      case Defer(d, values) => s := c.LogMetricDeferred(d, values);
      case Accumulate(d, add) => s := c.AccumulateMetric(d, add);
      case SetDecrypted => c.decrypted := true;
      case SetConsented => c.consented := true;
    }
  }

  /** All the calls of a request; afterwards the log calls, deferred ones included, are through. */
  method Serve(c: Context, calls: seq<Call>, ghost x: Setting) returns (statuses: seq<Status>)
    requires c.Valid() && c.given == map[] && c.accumulated == map[] && forall d :: Sorted(c.metrics(d).view)
    requires SetUp(c, x, []) && AllTyped(x, calls)
    modifies c
    ensures c.Valid() && SetUp(c, x, calls) && Judged(x, calls, statuses, c.Obliging())
    ensures forall d :: FromLog(c.metrics(d), FirstLog(x, calls, d), c.Got(d, Noised))
    ensures forall d, r :: c.Got(d, r) <= LogPart(x, calls, d, r)
    ensures c.Obliging() ==> forall d, r :: c.Got(d, r) == LogPart(x, calls, d, r)
    ensures forall d :: c.Sums(d) == if c.metrics(d).known then Fold(AddsOf(calls, d)) else None
  {
    statuses := [];
    for k := 0 to |calls|
      invariant c.Valid() && SetUp(c, x, calls[..k]) && Judged(x, calls[..k], statuses, c.Obliging())
      invariant forall d :: c.Logged(d) == FirstLog(x, calls[..k], d)
      invariant forall d :: c.Sums(d) == if c.metrics(d).known then Fold(AddsOf(calls[..k], d)) else None
    {
      forall d {
        AddsStep(calls, k, d);
      }
      assert calls[..k + 1] == calls[..k] + [calls[k]] && calls[..k + 1][..k] == calls[..k];
      var s := ServeOne(c, calls[k], x, calls[..k]);
      JudgedMore(x, calls[..k], statuses, c.Obliging(), calls[k], s);
      statuses := statuses + [s];
    }
    assert calls[..|calls|] == calls;
    c.RunCallbacks();
    forall d, r
      ensures FromLog(c.metrics(d), FirstLog(x, calls, d), c.Got(d, Noised)) && c.Got(d, r) <= LogPart(x, calls, d, r)
      ensures c.Obliging() ==> c.Got(d, r) == LogPart(x, calls, d, r)
    {
      FirstTyped(x, calls, d);
      assert c.Logged(d) == FirstLog(x, calls, d);
      assert c.Paid(d, r) && c.Within(d, r);
      c.Contributed(d);
    }
  }

  /** The calls were accepted only if they should be, and if the router was obliging whenever they should. */
  ghost predicate Judged(x: Setting, calls: seq<Call>, statuses: seq<Status>, obliging: bool) {
    && |statuses| == |calls|
    && forall k :: 0 <= k < |calls| ==>
         && (statuses[k] == Ok ==> Welcome(x, calls[..k], calls[k]))
         && (obliging && Welcome(x, calls[..k], calls[k]) ==> statuses[k] == Ok)
  }

  lemma JudgedMore(x: Setting, calls: seq<Call>, statuses: seq<Status>, obliging: bool, call: Call, s: Status)
    requires Judged(x, calls, statuses, obliging)
    requires (s == Ok ==> Welcome(x, calls, call)) && (obliging && Welcome(x, calls, call) ==> s == Ok)
    ensures Judged(x, calls + [call], statuses + [s], obliging)
  {
    var all := calls + [call];
    forall k | 0 <= k < |all|
      ensures (statuses + [s])[k] == Ok ==> Welcome(x, all[..k], all[k])
      ensures obliging && Welcome(x, all[..k], all[k]) ==> (statuses + [s])[k] == Ok
    {
      assert all[..k] == calls[..k];
      assert calls[..|calls|] == calls;
    }
  }

  /** Metric d is logged, or deferred, and also accumulated. */
  ghost predicate Both(x: Setting, calls: seq<Call>, d: nat) {
    AddsOf(calls, d) != [] && FirstLog(x, calls, d).Some?
  }

  /** A whole request, from the first call to the end of its context. What each metric logs raw and what it
      gives the aggregator is the beginning of what is due by its log call, and then the beginning of
      what is due by its accumulated values; with a router that accepts everything it is just that, and
      just the calls that should be are accepted. The aggregator gets a fair share by either; together they
      may exceed the limit, up to twice, but only for a metric that is both logged and accumulated, and
      whether they do is clear from the calls.
   */
  method Request(c: Context, calls: seq<Call>, order: Order, ghost x: Setting)
    returns (statuses: seq<Status>, ghost first: Fed)
    requires c.Valid() && c.given == map[] && c.accumulated == map[] && forall d :: Sorted(c.metrics(d).view)
    requires SetUp(c, x, []) && AllTyped(x, calls) && Arranges(order)
    modifies c
    ensures Judged(x, calls, statuses, c.Obliging())
    ensures forall d, r :: Split(c, x, calls, d, r, Of(first, d, r), order)
    ensures forall d :: Contributes(c, x, calls, d, Of(first, d, Noised))
    ensures c.Obliging() ==> forall d :: Exactly(c, x, calls, d, order)
  {
    statuses := Serve(c, calls, x);
    first := c.fed;
    c.RunAccumulators(order);
    forall d, r
      ensures Split(c, x, calls, d, r, Of(first, d, r), order)
    {
      assert c.Topped(first, d, r, order, {});
      Parts(c, x, calls, order, first, d, r);
    }
    forall d
      ensures Contributes(c, x, calls, d, Of(first, d, Noised))
      ensures c.Obliging() ==> Exactly(c, x, calls, d, order)
    {
      assert Split(c, x, calls, d, Raw, Of(first, d, Raw), order);
      assert Split(c, x, calls, d, Noised, Of(first, d, Noised), order);
      Together(c, x, calls, order, Of(first, d, Noised), d);
      if c.Obliging() {
        TogetherExactly(c, x, calls, order, first, d);
      }
    }
  }

  /** What went one way is the beginning of the one part, then of the other, and all of both if the router
      accepts everything.
   */
  ghost predicate Split(c: Context, x: Setting, calls: seq<Call>, d: nat, r: Route, first: seq<Entry>, order: Order)
    reads c
  {
    && first <= c.Got(d, r) && first <= LogPart(x, calls, d, r)
    && c.Got(d, r)[|first|..] <= SumPart(x, calls, d, r, order)
    && (c.Obliging() ==> c.Got(d, r) == LogPart(x, calls, d, r) + SumPart(x, calls, d, r, order))
  }

  lemma Parts(c: Context, x: Setting, calls: seq<Call>, order: Order, fed: Fed, d: nat, r: Route)
    requires SetUp(c, x, calls) && c.Topped(fed, d, r, order, {})
    requires Of(fed, d, r) <= LogPart(x, calls, d, r)
    requires c.Obliging() ==> Of(fed, d, r) == LogPart(x, calls, d, r)
    requires c.Sums(d) == if c.metrics(d).known then Fold(AddsOf(calls, d)) else None
    ensures Split(c, x, calls, d, r, Of(fed, d, r), order)
  {
    var first := Of(fed, d, r);
    if d in c.accumulated && Takes(c.Now(), c.metrics(d), r) {
      assert SumPart(x, calls, d, r, order) == Share(c.metrics(d), order(c.accumulated[d].values));
    } else {
      assert SumPart(x, calls, d, r, order) == [] && c.Got(d, r) == first == first + [];
    }
  }

  ghost predicate Contributes(c: Context, x: Setting, calls: seq<Call>, d: nat, first: seq<Entry>)
    reads c
  {
    var m, got := c.metrics(d), c.Got(d, Noised);
    && first <= got && FromLog(m, FirstLog(x, calls, d), first) && FromSums(m, calls, d, got[|first|..])
    && (m.max >= 1 ==> |got| <= (if Both(x, calls, d) then 2 else 1) * m.max)
  }

  ghost predicate Exactly(c: Context, x: Setting, calls: seq<Call>, d: nat, order: Order)
    reads c
  {
    var m := c.metrics(d);
    && (forall r :: c.Got(d, r) == LogPart(x, calls, d, r) + SumPart(x, calls, d, r, order))
    && (m.max >= 1 ==> (|c.Got(d, Noised)| <= m.max <==> FitsLimit(m, LogCount(x, calls, d), SumCount(x, calls, d))))
  }

  lemma Together(c: Context, x: Setting, calls: seq<Call>, order: Order, first: seq<Entry>, d: nat)
    requires c.metrics == x.metrics && Arranges(order) && Split(c, x, calls, d, Noised, first, order)
    requires FromLog(c.metrics(d), FirstLog(x, calls, d), first)
    ensures Contributes(c, x, calls, d, first)
  {
    var m, second, adds := c.metrics(d), c.Got(d, Noised)[|first|..], AddsOf(calls, d);
    if second != [] {
      var s := Fold(adds).value.values;
      PartFair(m, order(s), second);
      FairRearranged(m, s, order(s), second);
    }
  }

  lemma TogetherExactly(c: Context, x: Setting, calls: seq<Call>, order: Order, fed: Fed, d: nat)
    requires c.metrics == x.metrics && AllTyped(x, calls) && Arranges(order) && c.Obliging()
    requires Split(c, x, calls, d, Raw, Of(fed, d, Raw), order)
    requires Split(c, x, calls, d, Noised, Of(fed, d, Noised), order)
    ensures Exactly(c, x, calls, d, order)
  {
    forall r
      ensures c.Got(d, r) == LogPart(x, calls, d, r) + SumPart(x, calls, d, r, order)
    {
      assert r == Raw || r == Noised;
    }
    if c.metrics(d).max >= 1 {
      LimitExact(x, calls, d, order);
    }
  }

  /** A value is logged, and another is accumulated. */
  function LogAndAdd(d: nat, e: Entry, add: Addition): (calls: seq<Call>) {
    [Log(d, [e]), Accumulate(d, add)]
  }

  lemma LogAndAddParts(x: Setting, d: nat, e: Entry, add: Addition, order: Order)
    requires Arranges(order) && Takes(x.policy, x.metrics(d), Noised)
    requires x.metrics(d).known && x.metrics(d).view == [] && x.metrics(d).max == 1
    ensures LogPart(x, LogAndAdd(d, e, add), d, Noised) == [e]
    ensures SumPart(x, LogAndAdd(d, e, add), d, Noised, order) == [(add.partition, add.value)]
  {
    var calls := LogAndAdd(d, e, add);
    var front, m := [Log(d, [e])], x.metrics(d);
    assert calls[..1] == front && front[..0] == [];
    assert FirstLog(x, front, d) == Some(Noted(x, [], Log(d, [e])));
    assert Take(1, [e]) == [e];
    AddsStep(calls, 0, d);
    AddsStep(calls, 1, d);
    assert calls[..0] == [] && calls[..2] == calls;
    var values := [(add.partition, add.value)];
    assert Fold(AddsOf(calls, d)) == Some(Add(None, add));
    OneEntry(values, order(values));
  }

  lemma OneEntry(s: seq<Entry>, t: seq<Entry>)
    requires |s| == 1 && Rearranged(s, t)
    ensures t == s
  {
    DistinctSize(s);
    DistinctSize(t);
    assert (set e | e in s) == (set e | e in t);
    assert t[0] in s;
  }

  /** Logged and accumulated, a metric with a limit of 1 contributes twice, and the same partition. */
  method TwiceTheLimit(d: nat, p: nat, v: real, w: real, order: Order) returns (c: Context)
    requires Arranges(order)
    ensures c.metrics(d).max == 1 && c.Got(d, Noised) == [(p, v), (p, w)]
  {
    c := new Context(_ => Metric(true, true, true, 1, []), true, false, false, _ => true);
    ghost var x := Setting(c.metrics, Policy(true, false, false, false));
    var calls := LogAndAdd(d, (p, v), Addition(p, w, false));
    var _, _ := Request(c, calls, order, x);
    LogAndAddParts(x, d, (p, v), Addition(p, w, false), order);
    assert Exactly(c, x, calls, d, order);
  }
}
