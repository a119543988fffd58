// Merging what the drivers report into one capability set (internal/tuning/discovery.go).
module DiscoverySpec {
  import opened Wrappers
  import opened Model

  // One driver's answer; its capabilities may leave the driver's name out.
  datatype Probe = Probe(driver: string, capabilities: seq<Capability>, failed: bool)

  type Merge = map<ControlId, Capability>

  predicate KernelDriver(id: string) { id == "intel.powercap" || id == "intel.epp" || id == "intel.tcc" }

  function DriverPriority(id: string): nat {
    match id
    case "intel.powercap" => 0
    case "intel.epp" => 1
    case "intel.tcc" => 2
    case "intel.msr" => 10
    case _ => 20
  }

  predicate Prefer(candidate: Capability, current: Capability) {
    var candidateKernel, currentKernel := KernelDriver(candidate.driver), KernelDriver(current.driver);
    if candidateKernel && candidate.state == Supported then
      !(currentKernel && current.state == Supported
        && DriverPriority(current.driver) <= DriverPriority(candidate.driver))
    else if currentKernel && current.state == Supported then false
    else if candidate.state == Supported && current.state != Supported then true
    else if current.state == Supported && candidate.state != Supported then false
    else DriverPriority(candidate.driver) < DriverPriority(current.driver)
  }

  function Named(c: Capability, driver: string): Capability {
    if c.driver == "" then c.(driver := driver) else c
  }

  function Take(merged: Merge, c: Capability): Merge {
    if c.id !in merged || Prefer(c, merged[c.id]) then merged[c.id := c] else merged
  }

  // The first n capabilities of one answer.
  function MergeProbe(merged: Merge, probe: Probe, n: nat): Merge
    requires n <= |probe.capabilities|
  {
    if n == 0 then merged
    else Take(MergeProbe(merged, probe, n - 1), Named(probe.capabilities[n - 1], probe.driver))
  }

  function MergeAll(merged: Merge, probe: Probe): Merge { MergeProbe(merged, probe, |probe.capabilities|) }

  // All answers, in the order in which the drivers completed.
  function Merged(results: seq<Probe>): Merge {
    if results == [] then map[] else MergeAll(Merged(results[..|results| - 1]), results[|results| - 1])
  }

  // --- The preference is an order ---

  function Class(c: Capability): nat {
    if c.state != Supported then 2 else if KernelDriver(c.driver) then 0 else 1
  }

  // Supported by the kernel, supported, and not supported; then by driver.
  function Rank(c: Capability): nat { 32 * Class(c) + DriverPriority(c.driver) }

  lemma PreferenceIsByRank(a: Capability, b: Capability)
    ensures Prefer(a, b) <==> Rank(a) < Rank(b)
    ensures Rank(a) < Rank(b) <==>
              Class(a) < Class(b) || (Class(a) == Class(b) && DriverPriority(a.driver) < DriverPriority(b.driver))
  {
  }

  // The built-in drivers, the preferred one first.
  const BUILT_IN: seq<string> := ["intel.powercap", "intel.epp", "intel.tcc", "intel.msr"]

  // Between two of them an offer that can be set wins, and otherwise the driver listed first; any of them wins over
  // other drivers alike.
  lemma BuiltInDriversWinInOrder(a: Capability, b: Capability, i: nat)
    requires i < |BUILT_IN| && a.driver == BUILT_IN[i]
    ensures (forall j :: 0 <= j < |BUILT_IN| && b.driver == BUILT_IN[j] ==>
               (Prefer(a, b) <==> if (a.state == Supported) == (b.state == Supported) then i < j
                                  else a.state == Supported))
    ensures b.driver !in BUILT_IN ==> (Prefer(a, b) <==> a.state == Supported || b.state != Supported)
  {
  }

  // --- Order independence ---

  function Lookup(merged: Merge, id: ControlId): Option<Capability> {
    if id in merged then Some(merged[id]) else None
  }

  // What one driver alone would make of a control.
  function Leading(probe: Probe, id: ControlId): Option<Capability> { Lookup(MergeAll(map[], probe), id) }

  function Pick(a: Option<Capability>, b: Option<Capability>): Option<Capability> {
    if b.None? then a else if a.None? || Rank(b.value) < Rank(a.value) then b else a
  }

  lemma {:induction false} MergingPicks(merged: Merge, probe: Probe, n: nat, id: ControlId)
    requires n <= |probe.capabilities|
    ensures Lookup(MergeProbe(merged, probe, n), id)
         == Pick(Lookup(merged, id), Lookup(MergeProbe(map[], probe, n), id))
  {
    hide Rank, Prefer;
    if n > 0 {
      MergingPicks(merged, probe, n - 1, id);
      var c := Named(probe.capabilities[n - 1], probe.driver);
      var with, alone := MergeProbe(merged, probe, n - 1), MergeProbe(map[], probe, n - 1);
      TakingPicks(with, c, id);
      TakingPicks(alone, c, id);
    }
  }

  lemma TakingPicks(merged: Merge, c: Capability, id: ControlId)
    ensures Lookup(Take(merged, c), id) == if c.id == id then Pick(Lookup(merged, id), Some(c)) else Lookup(merged, id)
  {
    if c.id in merged {
      PreferenceIsByRank(c, merged[c.id]);
    }
  }

  // `p` offers the control, and nobody offers better.
  ghost predicate Leads(results: seq<Probe>, p: Probe, id: ControlId) {
    && Leading(p, id).Some?
    && forall r :: r in results && Leading(r, id).Some? ==> Rank(Leading(p, id).value) <= Rank(Leading(r, id).value)
  }

  // What is merged is some driver's best offer, and nobody offers better.
  lemma {:induction false} MergedLeads(results: seq<Probe>, id: ControlId)
    ensures id in Merged(results) <==> exists r :: r in results && Leading(r, id).Some?
    ensures id in Merged(results) ==>
              exists p :: p in results && Leads(results, p, id) && Leading(p, id) == Some(Merged(results)[id])
  {
    hide Rank, MergeAll;
    if results != [] {
      var rest, last := results[..|results| - 1], results[|results| - 1];
      assert forall r :: r in results <==> r in rest || r == last;
      MergedLeads(rest, id);
      MergingAllPicks(Merged(rest), last, id);
      if id in Merged(results) {
        if id in Merged(rest) && Lookup(Merged(results), id) == Lookup(Merged(rest), id) {
          var p :| p in rest && Leads(rest, p, id) && Leading(p, id) == Some(Merged(rest)[id]);
          assert Leads(results, p, id);
        } else {
          assert Leads(results, last, id);
        }
      }
    }
  }

  lemma MergingAllPicks(merged: Merge, probe: Probe, id: ControlId)
    ensures Lookup(MergeAll(merged, probe), id) == Pick(Lookup(merged, id), Leading(probe, id))
  {
    MergingPicks(merged, probe, |probe.capabilities|, id);
  }

  // Drivers that tie for the best offer of a control offer the same.
  ghost predicate Unambiguous(results: seq<Probe>) {
    forall id, p, q :: p in results && q in results && Leads(results, p, id) && Leads(results, q, id) ==>
      Leading(p, id) == Leading(q, id)
  }

  ghost predicate SameAnswers(a: seq<Probe>, b: seq<Probe>) { multiset(a) == multiset(b) }

  ghost predicate OrderIndependent(results: seq<Probe>) {
    forall other :: SameAnswers(other, results) ==> Merged(other) == Merged(results)
  }

  // The merge is the same for every order of completion exactly when no tie is between different offers.
  lemma OrderDoesNotMatterIff(results: seq<Probe>)
    ensures OrderIndependent(results) <==> Unambiguous(results)
  {
    if Unambiguous(results) {
      forall other | SameAnswers(other, results)
        ensures Merged(other) == Merged(results)
      {
        SameOrder(results, other);
      }
    }
    if OrderIndependent(results) {
      forall id, p, q | p in results && q in results && Leads(results, p, id) && Leads(results, q, id)
        ensures Leading(p, id) == Leading(q, id)
      {
        FirstWins(results, p, id);
        FirstWins(results, q, id);
      }
    }
  }

  lemma SameMembers(a: seq<Probe>, b: seq<Probe>)
    requires SameAnswers(a, b)
    ensures forall p :: p in a <==> p in b
  {
    forall p
      ensures p in a <==> p in b
    {
      assert p in multiset(a) <==> p in multiset(b);
    }
  }

  lemma SameOrder(results: seq<Probe>, other: seq<Probe>)
    requires Unambiguous(results) && SameAnswers(other, results)
    ensures Merged(other) == Merged(results)
  {
    hide Leading, Rank, Merged;
    SameMembers(other, results);
    forall id
      ensures Lookup(Merged(other), id) == Lookup(Merged(results), id)
    {
      MergedLeads(results, id);
      MergedLeads(other, id);
      if id in Merged(results) {
        var p :| p in results && Leads(results, p, id) && Leading(p, id) == Some(Merged(results)[id]);
        var q :| q in other && Leads(other, q, id) && Leading(q, id) == Some(Merged(other)[id]);
        assert Leads(results, q, id);
      }
    }
    LookupsDecide(Merged(other), Merged(results));
  }

  lemma LookupsDecide(a: Merge, b: Merge)
    requires forall id :: Lookup(a, id) == Lookup(b, id)
    ensures a == b
  {
    forall id
      ensures id in a <==> id in b
      ensures id in a ==> a[id] == b[id]
    {
      assert Lookup(a, id) == Lookup(b, id);
    }
  }

  // A driver with a best offer wins if it completes first.
  lemma FirstWins(results: seq<Probe>, p: Probe, id: ControlId)
    requires OrderIndependent(results) && p in results && Leads(results, p, id)
    ensures Lookup(Merged(results), id) == Leading(p, id)
  {
    hide Leading, Rank, Merged;
    var k :| 0 <= k < |results| && results[k] == p;
    var others := results[..k] + results[k + 1..];
    MovedToFront(results, k);
    FirstIsKept(p, others, id);
  }

  lemma MovedToFront(results: seq<Probe>, k: nat)
    requires k < |results|
    ensures var others := results[..k] + results[k + 1..];
            SameAnswers([results[k]] + others, results) && forall r :: r in others ==> r in results
  {
    assert results == results[..k] + ([results[k]] + results[k + 1..]);
  }

  lemma {:induction false} FirstIsKept(p: Probe, others: seq<Probe>, id: ControlId)
    requires Leading(p, id).Some?
    requires forall r :: r in others && Leading(r, id).Some? ==>
      Rank(Leading(p, id).value) <= Rank(Leading(r, id).value)
    ensures Lookup(Merged([p] + others), id) == Leading(p, id)
  {
    var results := [p] + others;
    hide Rank;
    if others == [] {
      assert results[..0] == [];
      assert Merged(results) == MergeAll(Merged([]), p);
    } else {
      var rest, last := others[..|others| - 1], others[|others| - 1];
      assert results[..|results| - 1] == [p] + rest;
      FirstIsKept(p, rest, id);
      MergingAllPicks(Merged([p] + rest), last, id);
    }
  }

  // Drivers with different priorities never tie.
  lemma DistinctPrioritiesAreUnambiguous(results: seq<Probe>)
    requires forall p, q, id :: p in results && q in results && p != q && Leading(p, id).Some? && Leading(q, id).Some?
               ==> Rank(Leading(p, id).value) != Rank(Leading(q, id).value)
    ensures OrderIndependent(results)
  {
    hide Leading, Rank, Merged;
    assert Unambiguous(results);
    OrderDoesNotMatterIff(results);
  }

  // A driver puts its own name on its capabilities, or none.
  predicate SpeaksForItself(p: Probe) {
    forall i :: 0 <= i < |p.capabilities| ==> p.capabilities[i].driver == "" || p.capabilities[i].driver == p.driver
  }

  lemma {:induction false} MergedBearsTheName(p: Probe, n: nat, id: ControlId)
    requires n <= |p.capabilities| && SpeaksForItself(p) && id in MergeProbe(map[], p, n)
    ensures MergeProbe(map[], p, n)[id].driver == p.driver
  {
    if n > 0 && id in MergeProbe(map[], p, n - 1) {
      MergedBearsTheName(p, n - 1, id);
    }
  }

  predicate BuiltIn(driver: string) {
    driver == "intel.powercap" || driver == "intel.epp" || driver == "intel.tcc" || driver == "intel.msr"
  }

  // The drivers the program registers, each answering for itself and once, never tie.
  lemma BuiltInDriversAreUnambiguous(results: seq<Probe>)
    requires forall p :: p in results ==> BuiltIn(p.driver) && SpeaksForItself(p)
    requires forall i, j :: 0 <= i < j < |results| ==> results[i].driver != results[j].driver
    ensures OrderIndependent(results)
  {
    hide Rank, MergeProbe, OrderIndependent;
    forall p, q, id | p in results && q in results && p != q && Leading(p, id).Some? && Leading(q, id).Some?
      ensures Rank(Leading(p, id).value) != Rank(Leading(q, id).value)
    {
      var i :| 0 <= i < |results| && results[i] == p;
      var j :| 0 <= j < |results| && results[j] == q;
      assert p.driver != q.driver;
      MergedBearsTheName(p, |p.capabilities|, id);
      MergedBearsTheName(q, |q.capabilities|, id);
      RanksDiffer(Leading(p, id).value, Leading(q, id).value);
    }
    DistinctPrioritiesAreUnambiguous(results);
  }

  lemma RanksDiffer(a: Capability, b: Capability)
    requires BuiltIn(a.driver) && BuiltIn(b.driver) && a.driver != b.driver
    ensures Rank(a) != Rank(b)
  {
  }

  // --- The published list ---

  // The order of strings, character by character.
  predicate Less(a: string, b: string) {
    b != "" && (a == "" || a[0] < b[0] || (a[0] == b[0] && Less(a[1..], b[1..])))
  }

  predicate Ascending(list: seq<Capability>) {
    forall i, j :: 0 <= i < j < |list| ==> Less(list[i].id, list[j].id)
  }

  // The list holds exactly what was merged, by ascending identifier.
  ghost predicate Lists(list: seq<Capability>, merged: Merge) {
    && Ascending(list)
    && (forall c :: c in list ==> c.id in merged && merged[c.id] == c)
    && (forall id :: id in merged ==> merged[id].id == id && merged[id] in list)
  }

  lemma {:induction false} LessIsStrict(a: string, b: string, c: string)
    ensures !Less(a, a) && (a == b || Less(a, b) || Less(b, a)) && (Less(a, b) && Less(b, c) ==> Less(a, c))
  {
    if a != "" {
      LessIsStrict(a[1..], if b == "" then "" else b[1..], if c == "" then "" else c[1..]);
      if b != "" && a[0] == b[0] && a[1..] == b[1..] {
        assert a == [a[0]] + a[1..] && b == [b[0]] + b[1..];
      }
    }
  }

  function Without(merged: Merge, id: ControlId): Merge { map other | other in merged && other != id :: merged[other] }

  lemma {:induction false} ListLength(list: seq<Capability>, merged: Merge)
    requires Lists(list, merged)
    ensures |list| == |merged|
    decreases |list|
  {
    if list == [] {
      assert forall id :: id !in merged;
    } else {
      assert list[0] in list && list[0].id in merged;
      WithoutFirst(list, merged);
      hide Lists, Without;
      ListLength(list[1..], Without(merged, list[0].id));
      WithoutCount(merged, list[0].id);
    }
  }

  lemma WithoutCount(merged: Merge, id: ControlId)
    requires id in merged
    ensures |Without(merged, id)| + 1 == |merged|
  {
    assert merged.Keys == Without(merged, id).Keys + {id};
  }

  // There is only one such list.
  lemma {:induction false} ListIsCanonical(a: seq<Capability>, b: seq<Capability>, merged: Merge)
    requires Lists(a, merged) && Lists(b, merged)
    ensures a == b
    decreases |a|
  {
    hide Lists, Less;
    ListLength(a, merged);
    ListLength(b, merged);
    if a != [] {
      FirstIsLeast(a, b, merged);
      FirstIsLeast(b, a, merged);
      LessIsStrict(a[0].id, b[0].id, a[0].id);
      WithoutFirst(a, merged);
      WithoutFirst(b, merged);
      ListIsCanonical(a[1..], b[1..], Without(merged, a[0].id));
      assert a == [a[0]] + a[1..] && b == [b[0]] + b[1..];
    }
  }

  lemma FirstIsLeast(a: seq<Capability>, b: seq<Capability>, merged: Merge)
    requires Lists(a, merged) && Lists(b, merged) && a != [] && b != []
    ensures a[0] == b[0] || Less(a[0].id, b[0].id)
  {
    assert b[0] in b && merged[b[0].id] in a;
    var k :| 0 <= k < |a| && a[k] == b[0];
  }

  lemma WithoutFirst(a: seq<Capability>, merged: Merge)
    requires Lists(a, merged) && a != []
    ensures Lists(a[1..], Without(merged, a[0].id))
  {
    hide Less;
    var merged1 := Without(merged, a[0].id);
    forall c | c in a[1..]
      ensures c.id in merged1 && merged1[c.id] == c
    {
      var k :| 0 <= k < |a[1..]| && a[1..][k] == c;
      assert Less(a[0].id, a[k + 1].id);
      LessIsStrict(a[0].id, a[0].id, a[0].id);
    }
    forall id | id in merged1
      ensures merged1[id] in a[1..]
    {
      var k :| 0 <= k < |a| && a[k] == merged[id];
      assert a[k].id == id;
      assert a[k] == a[1..][k - 1];
    }
  }
}

// The merge as it runs: answers are taken as the drivers complete, and each one is followed by a publication.
module Discovery {
  import opened Wrappers
  import opened Model
  import opened DiscoverySpec

  datatype Publication = Publication(list: seq<Capability>, complete: bool, failed: bool)

  method ImmutableSet(merged: Merge) returns (list: seq<Capability>)
    requires forall id :: id in merged ==> merged[id].id == id
    ensures Lists(list, merged)
  {
    list := [];
    var left := merged.Keys;
    ghost var done: set<ControlId> := {};
    while left != {}
      invariant left !! done && left + done == merged.Keys && Ascending(list)
      invariant forall c :: c in list ==> c.id in done && merged[c.id] == c
      invariant forall id :: id in done ==> merged[id] in list
      decreases left
    {
      var id :| id in left;
      list := InsertSorted(merged[id], list);
      left, done := left - {id}, done + {id};
    }
  }

  method InsertSorted(c: Capability, list: seq<Capability>) returns (longer: seq<Capability>)
    requires Ascending(list) && forall x :: x in list ==> x.id != c.id
    ensures Ascending(longer) && forall x :: x in longer <==> x == c || x in list
  {
    var k := 0;
    while k < |list| && Less(list[k].id, c.id)
      invariant 0 <= k <= |list|
      invariant forall i :: 0 <= i < k ==> Less(list[i].id, c.id)
    {
      k := k + 1;
    }
    longer := list[..k] + [c] + list[k..];
    forall i | k <= i < |list|
      ensures Less(c.id, list[i].id)
    {
      assert list[k] in list;
      LessIsStrict(c.id, list[k].id, list[i].id);
    }
    forall x
      ensures x in longer <==> x == c || x in list
    {
      assert list == list[..k] + list[k..];
    }
    InsertedIsAscending(list, c, k);
  }

  lemma InsertedIsAscending(list: seq<Capability>, c: Capability, k: nat)
    requires Ascending(list) && k <= |list|
    requires forall i :: 0 <= i < k ==> Less(list[i].id, c.id)
    requires forall i :: k <= i < |list| ==> Less(c.id, list[i].id)
    ensures Ascending(list[..k] + [c] + list[k..])
  {
    hide Less;
  }

  lemma {:induction false} MergedHoldsOwnId(results: seq<Probe>, id: ControlId)
    requires id in Merged(results)
    ensures Merged(results)[id].id == id
  {
    var rest, last := results[..|results| - 1], results[|results| - 1];
    if id in Merged(rest) {
      MergedHoldsOwnId(rest, id);
    }
    ProbeHoldsOwnId(Merged(rest), last, |last.capabilities|, id);
  }

  lemma {:induction false} ProbeHoldsOwnId(merged: Merge, probe: Probe, n: nat, id: ControlId)
    requires n <= |probe.capabilities| && id in MergeProbe(merged, probe, n)
    requires id in merged ==> merged[id].id == id
    ensures MergeProbe(merged, probe, n)[id].id == id
  {
    if n > 0 && id in MergeProbe(merged, probe, n - 1) {
      ProbeHoldsOwnId(merged, probe, n - 1, id);
    }
  }

  method TakeAnswer(before: Merge, result: Probe) returns (merged: Merge)
    ensures merged == MergeAll(before, result)
  {
    merged := before;
    for n := 0 to |result.capabilities|
      invariant merged == MergeProbe(before, result, n)
    {
      var capability := Named(result.capabilities[n], result.driver);
      if capability.id !in merged || Prefer(capability, merged[capability.id]) {
        merged := merged[capability.id := capability];
      }
    }
  }

  // Publishes after every answer, until the run is given up; what is published is the list of what has been merged.
  method RunDiscovery(results: seq<Probe>, givenUp: nat) returns (publications: seq<Publication>)
    ensures |publications| == if givenUp < |results| then givenUp else |results|
    ensures forall k :: 0 <= k < |publications| ==>
              && Lists(publications[k].list, Merged(results[..k + 1]))
              && publications[k].complete == (k + 1 == |results|)
              && publications[k].failed == exists i :: 0 <= i <= k && results[i].failed
  {
    hide Lists, MergeAll;
    publications := [];
    var merged: Merge := map[];
    var failed := false;
    for count := 0 to |results|
      invariant |publications| == count <= givenUp && merged == Merged(results[..count])
      invariant failed == exists i :: 0 <= i < count && results[i].failed
      invariant forall k :: 0 <= k < count ==>
        && Lists(publications[k].list, Merged(results[..k + 1]))
        && publications[k].complete == (k + 1 == |results|)
        && publications[k].failed == exists i :: 0 <= i <= k && results[i].failed
    {
      if count == givenUp {
        return;
      }
      var result := results[count];
      failed := failed || result.failed;
      merged := TakeAnswer(merged, result);
      assert results[..count + 1][..count] == results[..count];
      assert merged == Merged(results[..count + 1]);
      forall id | id in merged
        ensures merged[id].id == id
      {
        MergedHoldsOwnId(results[..count + 1], id);
      }
      var list := ImmutableSet(merged);
      publications := publications + [Publication(list, count + 1 == |results|, failed)];
    }
  }
}
