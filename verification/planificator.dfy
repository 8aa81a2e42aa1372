/**
 The planificator: from the project registry, the device's host description
 and the device's dispatch history, a priority (BOINC resource share) per
 project. Estimates are exact reals; the source computes the same formula in
 `f64`.
 */
module Planificator {
  import opened Strings
  import opened Seqs
  import opened Device
  import opened Database
  import opened App

  /** Rust's `u16`, the type of a priority. */
  type U16 = x: int | 0 <= x < 0x1_0000

  /** Project id to priority; a project missing from the map is not planned. */
  type PlanificatorResult = map<string, U16>

  const BasePriority: U16 := 100
  /** The boost of a project that has never been sent work for this device. */
  const FreshProjectBoost: nat := 1000
  const MaxBoost: nat := 1000
  /** The project dropped for devices running NixOS. */
  const NixosExcluded: string := "loda"
  /** The project whose aggregate counts for half. */
  const DiscountedProject: string := "worldcommunitygrid"
  /** Aggregates at or below this many FLOPs (10000 TFLOP) earn the full boost. */
  const FullBoostLimit: real := 10000000000000000.0

  /** `PlanificatorResult::new_from_app_state`. */
  function NewFromAppState(state: AppState, defaultPriority: U16): (r: PlanificatorResult)
    ensures r.Keys == state.projects.Keys
    ensures forall p :: p in r ==> r[p] == defaultPriority
  {
    map p | p in state.projects :: defaultPriority
  }

  /**
   The exclusion test: the lower-cased OS name contains `nixos`, that is, some
   five characters of the OS name spell NixOS in any mix of cases.
   */
  predicate IsNixos(osName: string): (b: bool)
    ensures b <==> exists i: nat :: LowersTo(osName, "nixos", i)
  {
    ContainsLowered(osName, "nixos");
    Contains(ToLower(osName), "nixos")
  }

  /** The exclusion test does not depend on the case of the OS name. */
  lemma NixosIgnoresCase(osName: string)
    ensures IsNixos(ToLower(osName)) <==> IsNixos(osName)
  {
    ToLowerIdempotent(osName);
  }

  /** A row counts towards the load unless it was cancelled. */
  predicate Live(w: WorkUnit) {
    w.status != Cancelled
  }

  /** Reference definition: some live row of `records` belongs to `project`. */
  predicate HasLive(records: seq<WorkUnit>, project: string) {
    exists i :: 0 <= i < |records| && Live(records[i]) && records[i].project == project
  }

  /** Reference definition: the estimates of the live rows of `project`, summed. */
  function LiveSum(records: seq<WorkUnit>, project: string): real
    decreases |records|
  {
    if |records| == 0 then 0.0
    else
      (if Live(records[0]) && records[0].project == project then records[0].rscFpopsEst else 0.0)
      + LiveSum(records[1..], project)
  }

  /**
   The `sent_wu` map: rows are folded in listing order, the first live row of a
   project inserting its estimate and later ones adding to it.
   */
  function Aggregate(records: seq<WorkUnit>): map<string, real>
    decreases |records|
  {
    if |records| == 0 then map[]
    else
      var sent := Aggregate(records[..|records| - 1]);
      var w := records[|records| - 1];
      if !Live(w) then sent
      else if w.project in sent then sent[w.project := sent[w.project] + w.rscFpopsEst]
      else sent[w.project := w.rscFpopsEst]
  }

  /** The discount applied to an aggregate of `project`. */
  function Discounted(project: string, sum: real): real {
    if project == DiscountedProject then sum / 2.0 else sum
  }

  /** The discount of the leading project: its aggregate is halved when it has one, and no entry is created. */
  function DiscountLeader(sent: map<string, real>): (r: map<string, real>)
    ensures r.Keys == sent.Keys
    ensures forall p :: p in r ==> r[p] == Discounted(p, sent[p])
  {
    if DiscountedProject in sent then sent[DiscountedProject := sent[DiscountedProject] / 2.0]
    else sent
  }

  function Max(a: real, b: real): real {
    if a < b then b else a
  }

  /** Dividing 10000 by a number no smaller than 10000 gives a ratio in (0, 1]. */
  lemma RatioBounds(m: real)
    requires m >= 10000.0
    ensures 0.0 < 10000.0 / m <= 1.0
    ensures 10000.0 / m == 1.0 <==> m == 10000.0
  {
    var q := 10000.0 / m;
    assert q * m == 10000.0;
    if q == 1.0 {
      assert m == 10000.0;
    }
  }

  /**
   The boost of a project with an aggregate of `sum` FLOPs:
   `(10000 / max(tflop, 10000)) * 1000` truncated to an integer.
   */
  function Boost(sum: real): (b: nat)
    ensures b <= MaxBoost
    ensures b == MaxBoost <==> sum <= FullBoostLimit
  {
    var tflop := sum / 1000000000000.0;
    var m := Max(tflop, 10000.0);
    RatioBounds(m);
    var ratio := 10000.0 / m;
    assert ratio * 1000.0 <= 1000.0;
    assert m == 10000.0 <==> sum <= FullBoostLimit;
    (ratio * 1000.0).Floor
  }

  /** `planify_action`, given the rows the history query returned. */
  function Planify(state: AppState, host: HostInfo, records: seq<WorkUnit>): (r: PlanificatorResult)
    ensures r.Keys == if IsNixos(host.osName) then state.projects.Keys - {NixosExcluded}
                      else state.projects.Keys
    ensures forall p :: p in r ==> BasePriority <= r[p] <= BasePriority + MaxBoost
  {
    var initial := NewFromAppState(state, BasePriority);
    var tasks := if IsNixos(host.osName) then initial - {NixosExcluded} else initial;
    var sent := DiscountLeader(Aggregate(records));
    map p | p in tasks :: tasks[p] + (if p in sent then Boost(sent[p]) else FreshProjectBoost)
  }

  /** Appending a row adds its contribution to the reference sum. */
  lemma {:induction false} LiveSumAppend(a: seq<WorkUnit>, b: seq<WorkUnit>, project: string)
    ensures LiveSum(a + b, project) == LiveSum(a, project) + LiveSum(b, project)
    decreases |a|
  {
    if |a| > 0 {
      assert (a + b)[1..] == a[1..] + b;
      LiveSumAppend(a[1..], b, project);
    } else {
      assert a + b == b;
    }
  }

  /** Without a live row for a project, its reference sum is zero. */
  lemma {:induction false} NoLiveZeroSum(records: seq<WorkUnit>, project: string)
    requires !HasLive(records, project)
    ensures LiveSum(records, project) == 0.0
    decreases |records|
  {
    if |records| > 0 {
      assert !HasLive(records[1..], project);
      NoLiveZeroSum(records[1..], project);
    }
  }

  /** The fold in listing order computes exactly the reference sums. */
  lemma {:induction false} AggregateIsLiveSum(records: seq<WorkUnit>)
    ensures forall p :: p in Aggregate(records) <==> HasLive(records, p)
    ensures forall p :: p in Aggregate(records) ==> Aggregate(records)[p] == LiveSum(records, p)
    decreases |records|
  {
    if |records| > 0 {
      var n := |records| - 1;
      var prefix := records[..n];
      var w := records[n];
      AggregateIsLiveSum(prefix);
      assert records == prefix + [w];
      forall p
        ensures LiveSum(records, p) == LiveSum(prefix, p)
          + (if Live(w) && w.project == p then w.rscFpopsEst else 0.0)
      {
        LiveSumAppend(prefix, [w], p);
        assert LiveSum([w], p) == (if Live(w) && w.project == p then w.rscFpopsEst else 0.0)
          + LiveSum([w][1..], p);
      }
      forall p | p in Aggregate(records)
        ensures Aggregate(records)[p] == LiveSum(records, p)
      {
        var sent := Aggregate(prefix);
        if Live(w) && w.project == p && p in sent {
          assert Aggregate(records)[p] == sent[p] + w.rscFpopsEst;
        } else if Live(w) && w.project == p {
          assert !HasLive(prefix, p);
          assert LiveSum(prefix, p) == 0.0 by { NoLiveZeroSum(prefix, p); }
        } else {
          assert Aggregate(records)[p] == sent[p];
        }
      }
      forall p
        ensures HasLive(records, p) <==> HasLive(prefix, p) || (Live(w) && w.project == p)
      {
        if HasLive(records, p) {
          var i :| 0 <= i < |records| && Live(records[i]) && records[i].project == p;
          if i < n {
            assert prefix[i] == records[i];
          }
        }
        if HasLive(prefix, p) {
          var i :| 0 <= i < |prefix| && Live(prefix[i]) && prefix[i].project == p;
          assert records[i] == prefix[i];
        }
        if Live(w) && w.project == p {
          assert Live(records[n]) && records[n].project == p;
        }
      }
    } else {
      forall p
        ensures !HasLive(records, p)
      {
      }
    }
  }

  /** The reference sum depends only on which rows are listed, not on their order. */
  lemma {:induction false} LiveSumPermutation(a: seq<WorkUnit>, b: seq<WorkUnit>, project: string)
    requires multiset(a) == multiset(b)
    ensures LiveSum(a, project) == LiveSum(b, project)
    decreases |a|
  {
    if |a| == 0 {
      assert |b| == |multiset(b)| == 0;
    } else {
      var x := a[0];
      assert x in multiset(b);
      var j :| 0 <= j < |b| && b[j] == x;
      var rest := b[..j] + b[j + 1..];
      assert a == [x] + a[1..];
      assert multiset(a[1..]) == multiset(a) - multiset{x};
      MultisetRemoveAt(b, j);
      LiveSumPermutation(a[1..], rest, project);
      LiveSumRemoveAt(b, j, project);
    }
  }

  /** Taking out the element at `j` takes one copy of it out of the multiset. */
  lemma MultisetRemoveAt<T>(s: seq<T>, j: nat)
    requires j < |s|
    ensures multiset(s[..j] + s[j + 1..]) == multiset(s) - multiset{s[j]}
  {
    assert s == s[..j] + [s[j]] + s[j + 1..];
  }

  /** The reference sum splits off the row at `j`. */
  lemma LiveSumRemoveAt(s: seq<WorkUnit>, j: nat, project: string)
    requires j < |s|
    ensures LiveSum(s, project) == LiveSum([s[j]], project) + LiveSum(s[..j] + s[j + 1..], project)
  {
    assert s == s[..j] + [s[j]] + s[j + 1..];
    LiveSumAppend(s[..j] + [s[j]], s[j + 1..], project);
    LiveSumAppend(s[..j], [s[j]], project);
    LiveSumAppend(s[..j], s[j + 1..], project);
  }

  /** Whether some row is live for a project depends only on which rows are listed. */
  lemma HasLivePermutation(a: seq<WorkUnit>, b: seq<WorkUnit>, project: string)
    requires multiset(a) == multiset(b)
    ensures HasLive(a, project) <==> HasLive(b, project)
  {
    forall x | x in a ensures x in b {
      assert x in multiset(a);
    }
    forall x | x in b ensures x in a {
      assert x in multiset(b);
    }
    if HasLive(a, project) {
      var i :| 0 <= i < |a| && Live(a[i]) && a[i].project == project;
      assert a[i] in b;
    }
    if HasLive(b, project) {
      var i :| 0 <= i < |b| && Live(b[i]) && b[i].project == project;
      assert b[i] in a;
    }
  }

  /**
   The priority of a planned project: the base priority plus the boost of its
   (discounted) live aggregate, or plus the fresh-project boost when it has none.
   */
  lemma PlannedPriority(state: AppState, host: HostInfo, records: seq<WorkUnit>, project: string)
    requires project in Planify(state, host, records)
    ensures Planify(state, host, records)[project] == BasePriority +
      if HasLive(records, project) then Boost(Discounted(project, LiveSum(records, project)))
      else FreshProjectBoost
  {
    AggregateIsLiveSum(records);
  }

  /** Without a live row for it, a planned project gets 100 + 1000. */
  lemma UnservedProjectPriority(state: AppState, host: HostInfo, records: seq<WorkUnit>, project: string)
    requires project in Planify(state, host, records)
    requires forall i :: 0 <= i < |records| && records[i].project == project ==>
      records[i].status == Cancelled
    ensures Planify(state, host, records)[project] == BasePriority + FreshProjectBoost
  {
    PlannedPriority(state, host, records, project);
  }

  /** A device without history gets 1100 for every project that is not excluded. */
  lemma NoHistoryPriorities(state: AppState, host: HostInfo)
    ensures forall p :: p in Planify(state, host, []) ==>
      Planify(state, host, [])[p] == BasePriority + FreshProjectBoost
  {
    forall p | p in Planify(state, host, []) {
      UnservedProjectPriority(state, host, [], p);
    }
  }

  /** Listing the same rows in another order gives the same plan. */
  lemma {:induction false} PlanIgnoresOrder(state: AppState, host: HostInfo, a: seq<WorkUnit>, b: seq<WorkUnit>)
    requires multiset(a) == multiset(b)
    ensures Planify(state, host, a) == Planify(state, host, b)
  {
    var pa := Planify(state, host, a);
    var pb := Planify(state, host, b);
    forall p | p in pa
      ensures pa[p] == pb[p]
    {
      PlannedPriority(state, host, a, p);
      PlannedPriority(state, host, b, p);
      HasLivePermutation(a, b, p);
      LiveSumPermutation(a, b, p);
    }
  }

  /** Every answer the history query can give leads to the same plan. */
  lemma ListingsAgree(state: AppState, host: HostInfo, db: DataBase, a: seq<WorkUnit>, b: seq<WorkUnit>)
    requires IsListing(db, host.hostCpid, 0, a) && IsListing(db, host.hostCpid, 0, b)
    ensures Planify(state, host, a) == Planify(state, host, b)
  {
    DistinctSameElementsPermutation(a, b);
    PlanIgnoresOrder(state, host, a, b);
  }

  /** A larger divisor gives a smaller ratio. */
  lemma RatioAntitone(small: real, large: real)
    requires 10000.0 <= small <= large
    ensures 10000.0 / large <= 10000.0 / small
  {
    var shrink := small / large;
    assert shrink <= 1.0 by {
      assert shrink * large == small;
    }
    assert 10000.0 / large == (10000.0 / small) * shrink;
    RatioBounds(small);
  }

  /** A larger aggregate never earns a larger boost. */
  lemma BoostAntitone(small: real, large: real)
    requires small <= large
    ensures Boost(large) <= Boost(small)
  {
    var ms := Max(small / 1000000000000.0, 10000.0);
    var ml := Max(large / 1000000000000.0, 10000.0);
    assert ms <= ml;
    RatioAntitone(ms, ml);
    assert (10000.0 / ml) * 1000.0 <= (10000.0 / ms) * 1000.0;
  }

  /** In exact arithmetic the boost is 10^19 / max(aggregate, 10^16), truncated. */
  lemma BoostClosedForm(sum: real)
    ensures Boost(sum) == (10000000000000000000.0 / Max(sum, FullBoostLimit)).Floor
  {
    var m := Max(sum / 1000000000000.0, 10000.0);
    var big := Max(sum, FullBoostLimit);
    assert big == m * 1000000000000.0;
    var q := 10000.0 / m;
    assert q * m == 10000.0;
    assert q * 1000.0 * big == 10000000000000000000.0;
  }

  /** An aggregate of exactly 10000 TFLOP still earns the full boost. */
  lemma BoostAtThreshold()
    ensures Boost(FullBoostLimit) == MaxBoost
  {
  }

  /**
   A project the registry does not hold never appears in the plan, whatever
   rows mention it.
   */
  lemma UnregisteredNeverPlanned(state: AppState, host: HostInfo, records: seq<WorkUnit>, project: string)
    requires project !in state.projects
    ensures project !in Planify(state, host, records)
  {
  }
}
