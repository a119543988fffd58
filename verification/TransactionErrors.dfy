// When, exactly, a request is refused before anything is written, and with which error.
module TransactionErrors {
  import opened Wrappers
  import opened Model
  import opened Validate
  import opened Recovery
  import opened TransactionSpec
  import opened TransactionSafety

  predicate Available(cfg: Config, byId: Index, id: ControlId) { id in byId && byId[id].driver in cfg.drivers }

  // The n calls from tick t on all succeed.
  predicate AllGo(o: Oracle, t: nat, n: nat) { forall i :: t <= i < t + n ==> o(i).ok }

  lemma GoOn(o: Oracle, t: nat, n: nat)
    ensures AllGo(o, t, n + 1) <==> o(t).ok && AllGo(o, t + 1, n)
  {
  }

  // Preparing succeeds exactly if the driver of every control is there and every call succeeds.
  lemma {:induction false} PreparesIff(cfg: Config, byId: Index, m: Machine, changes: seq<Change>,
                                       done: seq<Operation>, o: Oracle)
    ensures !Prepare(cfg, byId, m, changes, done, o).error <==>
              AllGo(o, m.clock, |changes|) && forall i :: 0 <= i < |changes| ==> Available(cfg, byId, changes[i].id)
    ensures !Prepare(cfg, byId, m, changes, done, o).error ==>
              Prepare(cfg, byId, m, changes, done, o).machine.clock == m.clock + |changes|
    decreases |changes|
  {
    if changes != [] {
      GoOn(o, m.clock, |changes| - 1);
      assert changes == [changes[0]] + changes[1..];
      if Available(cfg, byId, changes[0].id) && o(m.clock).ok {
        var op := Operation(changes[0].id, byId[changes[0].id].driver, cfg.order(changes[0].id),
                            changes[0].requested, 0, false);
        PreparesIff(cfg, byId, Call(m), changes[1..], done + [op], o);
      }
      hide AllGo;
    }
  }

  // Capturing succeeds exactly if every control is there and every reading succeeds.
  lemma {:induction false} CapturesIff(m: Machine, ops: seq<Operation>, n: nat, o: Oracle)
    requires n <= |ops|
    ensures !CaptureAll(m, ops, n, o).error <==>
              AllGo(o, m.clock, |ops| - n) && forall i :: n <= i < |ops| ==> ops[i].control in m.world.hardware
    ensures !CaptureAll(m, ops, n, o).error ==> CaptureAll(m, ops, n, o).machine.clock == m.clock + |ops| - n
    decreases |ops| - n
  {
    if n < |ops| {
      GoOn(o, m.clock, |ops| - n - 1);
      var (m1, read) := ReadControl(m, ops[n].control, o);
      if read.Some? {
        var ops1 := ops[n := ops[n].(snapshot := read.value)];
        CapturesIff(m1, ops1, n + 1, o);
        assert forall i :: n < i < |ops| ==> ops1[i] == ops[i];
      }
      hide AllGo;
    }
  }

  predicate Prepares(cfg: Config, byId: Index, t: nat, changes: seq<Change>, o: Oracle) {
    AllGo(o, t, |changes|) && forall i :: 0 <= i < |changes| ==> Available(cfg, byId, changes[i].id)
  }

  predicate Captures(hardware: Hardware, t: nat, changes: seq<Change>, o: Oracle) {
    AllGo(o, t, |changes|) && forall i :: 0 <= i < |changes| ==> changes[i].id in hardware
  }

  lemma PlanningGoes(cfg: Config, byId: Index, m: Machine, changes: seq<Change>, o: Oracle)
    ensures var p := Prepare(cfg, byId, m, changes, [], o);
            && p.machine == m.(clock := p.machine.clock)
            && (!p.error <==> Prepares(cfg, byId, m.clock, changes, o))
            && (!p.error ==>
                  var sorted := SortByOrder(p.operations);
                  var captured := CaptureAll(p.machine, sorted, 0, o);
                  && captured.machine == m.(clock := captured.machine.clock)
                  && (!captured.error <==> Captures(m.world.hardware, m.clock + |changes|, changes, o))
                  && (!captured.error ==> captured.machine.clock == m.clock + |changes| + |changes|))
  {
    PreparesIff(cfg, byId, m, changes, [], o);
    PrepareMatchesChanges(cfg, byId, m, changes, [], o);
    var p := Prepare(cfg, byId, m, changes, [], o);
    if !p.error {
      var sorted := SortByOrder(p.operations);
      SortIsStable(p.operations, 0);
      CapturesIff(p.machine, sorted, 0, o);
      SortedControlsAre(cfg, byId, changes, p.operations, sorted, m.world.hardware);
      CaptureReadsHardware(p.machine, sorted, 0, o);
    }
    hide Prepare, CaptureAll, SortByOrder, AllGo, Available, PreparedFor;
  }

  lemma CommitRefusesIff(cfg: Config, m: Machine, ops: seq<Operation>, id: nat, o: Oracle)
    ensures var a := Commit(cfg, m, ops, id, o);
            if o(m.clock).ok then a.error.None? || a.error.value.Undone?
            else a.active.None? && a.error == Some(NotSaved) && a.machine.world.hardware == m.world.hardware
  {
    hide ApplyFrom, Rollback;
  }

  // A request ends without anything being written exactly in these cases, in this order; otherwise there is no error,
  // or one that says what has been undone.
  lemma ApplyRefusesIff(cfg: Config, capabilities: CapabilitySet, m: Machine, changes: ChangeSet, id: nat, o: Oracle)
    ensures var a := Apply(cfg, capabilities, m, changes, id, o);
            var validated := Validated(capabilities, changes);
            var n, byId := |changes.changes|, ById(capabilities.capabilities);
            if validated.Failure? then a == Applied(m, None, Some(Invalid(validated.error)))
            else if !Prepares(cfg, byId, m.clock, changes.changes, o) then
              a == Applied(m.(clock := a.machine.clock), None, Some(NotPrepared))
            else if !Captures(m.world.hardware, m.clock + n, changes.changes, o) then
              a == Applied(m.(clock := a.machine.clock), None, Some(NotCaptured))
            else if !o(m.clock + n + n).ok then
              a.active.None? && a.error == Some(NotSaved) && a.machine.world.hardware == m.world.hardware
            else a.error.None? || a.error.value.Undone?
  {
    hide Validated, Prepare, CaptureAll, SortByOrder, Prepares, Captures, Commit, LimitsAreOrdered, ById;
    var validated := Validated(capabilities, changes);
    if validated.Success? {
      var byId, accepted := ById(capabilities.capabilities), validated.value.changeSet.changes;
      AcceptedSetIsOrdered(capabilities, changes);
      PlanningGoes(cfg, byId, m, accepted, o);
      SameIds(cfg, byId, m.world.hardware, m.clock, changes.changes, accepted, o);
      SameIds(cfg, byId, m.world.hardware, m.clock + |accepted|, changes.changes, accepted, o);
      var p := Prepare(cfg, byId, m, accepted, [], o);
      if !p.error {
        var captured := CaptureAll(p.machine, SortByOrder(p.operations), 0, o);
        CommitRefusesIff(cfg, captured.machine, captured.operations, id, o);
      }
    }
  }

  lemma SameIds(cfg: Config, byId: Index, hardware: Hardware, t: nat, a: seq<Change>, b: seq<Change>, o: Oracle)
    requires |a| == |b| && forall i :: 0 <= i < |b| ==> b[i].id == a[i].id
    ensures Prepares(cfg, byId, t, a, o) == Prepares(cfg, byId, t, b, o)
    ensures Captures(hardware, t, a, o) == Captures(hardware, t, b, o)
  {
    hide AllGo, Available;
    assert (forall i :: 0 <= i < |a| ==> Available(cfg, byId, a[i].id))
        <==> forall i :: 0 <= i < |b| ==> Available(cfg, byId, b[i].id) by {
      if forall i :: 0 <= i < |b| ==> Available(cfg, byId, b[i].id) {
        assert forall i :: 0 <= i < |a| ==> b[i].id == a[i].id;
      }
    }
    assert (forall i :: 0 <= i < |a| ==> a[i].id in hardware) <==> forall i :: 0 <= i < |b| ==> b[i].id in hardware by {
      if forall i :: 0 <= i < |b| ==> b[i].id in hardware {
        assert forall i :: 0 <= i < |a| ==> b[i].id == a[i].id;
      }
    }
  }

  lemma SortedControlsAre(cfg: Config, byId: Index, changes: seq<Change>, ops: seq<Operation>, sorted: seq<Operation>,
                          hardware: Hardware)
    requires |ops| == |changes| && forall x :: x in sorted <==> x in ops
    requires forall i :: 0 <= i < |changes| ==> PreparedFor(cfg, byId, ops[0 + i], changes[i])
    ensures (forall i :: 0 <= i < |sorted| ==> sorted[i].control in hardware)
            <==> forall i :: 0 <= i < |changes| ==> changes[i].id in hardware
  {
    forall i | 0 <= i < |changes|
      ensures ops[i].control == changes[i].id
    {
      assert PreparedFor(cfg, byId, ops[0 + i], changes[i]);
    }
    if forall i :: 0 <= i < |sorted| ==> sorted[i].control in hardware {
      forall i | 0 <= i < |changes|
        ensures changes[i].id in hardware
      {
        assert ops[i] in sorted;
      }
    } else {
      var i :| 0 <= i < |sorted| && sorted[i].control !in hardware;
      assert sorted[i] in ops;
      var j :| 0 <= j < |ops| && ops[j] == sorted[i];
      assert changes[j].id !in hardware;
    }
  }
}
