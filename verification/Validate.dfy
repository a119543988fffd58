// Validation of a reviewed change set against discovered capabilities (internal/tuning/validate.go).
module Validate {
  import opened Wrappers
  import opened Model

  datatype CapabilitySet = CapabilitySet(generation: string, machine: string, capabilities: seq<Capability>)

  datatype Change = Change(id: ControlId, requested: Value)

  datatype ChangeSet = ChangeSet(generation: string, machine: string, changes: seq<Change>)

  datatype Adjustment = Adjustment(id: ControlId, requested: Value, normalized: Value)

  datatype Validation = Validation(changeSet: ChangeSet, adjustments: seq<Adjustment>)

  type Index = map<ControlId, Capability>

  // A later capability replaces an earlier one with the same identifier.
  function ById(capabilities: seq<Capability>): Index {
    if capabilities == [] then map[]
    else
      var last := capabilities[|capabilities| - 1];
      ById(capabilities[..|capabilities| - 1])[last.id := last]
  }

  function Items(value: Value): seq<real> { if value.Vector? then value.vector else [] }

  predicate RatioIsSafe(current: Value, requested: Value) {
    && current.Vector?
    && |Items(requested)| == |current.vector|
    && (forall i :: 0 < i < |Items(requested)| ==> Items(requested)[i] <= Items(requested)[i - 1] + TOLERANCE)
    && (forall i :: 0 <= i < |Items(requested)| ==> Items(requested)[i] <= current.vector[i] + TOLERANCE)
  }

  // What becomes of one change, whatever the others are.
  function NormalizeChange(byId: Index, change: Change): Result<Normalized, Error> {
    if change.id !in byId then Failure(UnknownControl)
    else
      var capability := byId[change.id];
      var outcome := capability.Normalize(change.requested);
      if outcome.Success? && IsRatio(change.id) && !RatioIsSafe(capability.current, outcome.value.value)
      then Failure(BadRatio)
      else outcome
  }

  function EffectiveNumeric(id: ControlId, byId: Index, changes: seq<Change>): Option<real> {
    if changes == [] then
      if id in byId && byId[id].current.Numeric? then Some(byId[id].current.number) else None
    else if changes[0].id == id && changes[0].requested.Numeric? then Some(changes[0].requested.number)
    else EffectiveNumeric(id, byId, changes[1..])
  }

  predicate PowerIsOrdered(byId: Index, changes: seq<Change>) {
    var pl1, pl2 := EffectiveNumeric(PL1, byId, changes), EffectiveNumeric(PL2, byId, changes);
    pl1.Some? && pl2.Some? ==> pl1.value <= pl2.value + TOLERANCE
  }

  predicate Distinct(changes: seq<Change>) {
    forall i, j :: 0 <= i < j < |changes| ==> changes[i].id != changes[j].id
  }

  // A change that can be made, whatever the others are.
  predicate Passes(byId: Index, change: Change) {
    && change.id in byId
    && Fits(byId[change.id], change.requested)
    && (change.id == RATIO_P_CORE || change.id == RATIO_E_CORE ==>
          RatioIsSafe(byId[change.id].current, if byId[change.id].range.None? then change.requested else NoValue))
  }

  // `result` puts the nearest value in place of each request.
  ghost predicate Substituted(byId: Index, changes: seq<Change>, result: seq<Change>) {
    && |result| == |changes|
    && forall i :: 0 <= i < |changes| ==> SubstitutedBy(byId, changes[i], result[i])
  }

  ghost predicate SubstitutedBy(byId: Index, change: Change, result: Change) {
    && result.id == change.id && change.id in byId
    && (exists adjusted :: Yields(byId[change.id], change.requested, Normalized(result.requested, adjusted)))
  }

  predicate AsksFor(changes: seq<Change>, id: ControlId, x: real) {
    exists i :: 0 <= i < |changes| && changes[i] == Change(id, Numeric(x))
  }

  // The number a control will have: the one requested, or the current one if none is.
  ghost predicate WillBe(byId: Index, changes: seq<Change>, id: ControlId, x: real) {
    AsksFor(changes, id, x)
    || (id in byId && byId[id].current == Numeric(x) && forall y :: !AsksFor(changes, id, y))
  }

  // PL1 will not be above PL2.
  ghost predicate LimitsAreOrdered(byId: Index, changes: seq<Change>) {
    forall x, y :: WillBe(byId, changes, PL1, x) && WillBe(byId, changes, PL2, y) ==> x <= y + TOLERANCE
  }

  // The declarative reading of acceptance.
  ghost predicate Acceptable(capabilities: CapabilitySet, changes: ChangeSet) {
    var byId := ById(capabilities.capabilities);
    && capabilities.generation == changes.generation
    && capabilities.machine == changes.machine
    && Distinct(changes.changes)
    && (forall i :: 0 <= i < |changes.changes| ==> Passes(byId, changes.changes[i]))
    && (forall result :: Substituted(byId, changes.changes, result) ==> LimitsAreOrdered(byId, result))
  }

  function Replace(byId: Index, change: Change): Change {
    var outcome := NormalizeChange(byId, change);
    if outcome.Success? then Change(change.id, outcome.value.value) else change
  }

  function Replaced(byId: Index, changes: seq<Change>): seq<Change> {
    seq(|changes|, i requires 0 <= i < |changes| => Replace(byId, changes[i]))
  }

  function Adjustments(byId: Index, changes: seq<Change>): seq<Adjustment> {
    if changes == [] then []
    else
      var last := changes[|changes| - 1];
      var outcome := NormalizeChange(byId, last);
      Adjustments(byId, changes[..|changes| - 1])
      + if outcome.Success? && outcome.value.adjusted
        then [Adjustment(last.id, last.requested, outcome.value.value)] else []
  }

  function Accepted(capabilities: CapabilitySet, changes: ChangeSet): Validation {
    var byId := ById(capabilities.capabilities);
    Validation(changes.(changes := Replaced(byId, changes.changes)), Adjustments(byId, changes.changes))
  }

  function IdsBefore(changes: seq<Change>, i: nat): set<ControlId> {
    set j | 0 <= j < i && j < |changes| :: changes[j].id
  }

  // The first change, from index i on, that is refused on its own or repeats a control.
  function FirstFault(byId: Index, changes: seq<Change>, i: nat): Option<Error>
    decreases |changes| - i
  {
    if i >= |changes| then None
    else if changes[i].id in IdsBefore(changes, i) then Some(DuplicateControl)
    else
      var outcome := NormalizeChange(byId, changes[i]);
      if outcome.Failure? then Some(outcome.error) else FirstFault(byId, changes, i + 1)
  }

  // The verdict, errors included, in the order the checks are made.
  function Validated(capabilities: CapabilitySet, changes: ChangeSet): Result<Validation, Error> {
    var byId := ById(capabilities.capabilities);
    var fault := FirstFault(byId, changes.changes, 0);
    if capabilities.generation != changes.generation || capabilities.machine != changes.machine then
      Failure(StaleCapabilities)
    else if fault.Some? then Failure(fault.value)
    else if !PowerIsOrdered(byId, Replaced(byId, changes.changes)) then Failure(CrossField)
    else Success(Accepted(capabilities, changes))
  }

  method ValidateChangeSet(capabilities: CapabilitySet, changes: ChangeSet)
    returns (result: Result<Validation, Error>)
    ensures result == Validated(capabilities, changes)
  {
    if capabilities.generation != changes.generation || capabilities.machine != changes.machine {
      return Failure(StaleCapabilities);
    }
    var byId: Index := map[];
    for n := 0 to |capabilities.capabilities|
      invariant byId == ById(capabilities.capabilities[..n])
    {
      assert capabilities.capabilities[..n + 1][..n] == capabilities.capabilities[..n];
      byId := byId[capabilities.capabilities[n].id := capabilities.capabilities[n]];
    }
    assert capabilities.capabilities[..|capabilities.capabilities|] == capabilities.capabilities;

    hide Adjustments, Replaced, IdsBefore;
    var requests := changes.changes;
    NothingBefore(byId, requests);
    var normalized: seq<Change> := [];
    var adjustments: seq<Adjustment> := [];
    var seen: set<ControlId> := {};
    for i := 0 to |requests|
      invariant FirstFault(byId, requests, 0) == FirstFault(byId, requests, i)
      invariant seen == IdsBefore(requests, i)
      invariant normalized == Replaced(byId, requests[..i])
      invariant adjustments == Adjustments(byId, requests[..i])
    {
      var change := requests[i];
      if change.id in seen {
        return Failure(DuplicateControl);
      }
      seen := seen + {change.id};
      if change.id !in byId {
        return Failure(UnknownControl);
      }
      var outcome := byId[change.id].Normalize(change.requested);
      if outcome.Failure? {
        return Failure(outcome.error);
      }
      if IsRatio(change.id) {
        var safe := ValidateRatio(byId[change.id].current, outcome.value.value);
        if !safe {
          return Failure(BadRatio);
        }
      }
      normalized := normalized + [Change(change.id, outcome.value.value)];
      if outcome.value.adjusted {
        adjustments := adjustments + [Adjustment(change.id, change.requested, outcome.value.value)];
      }
      PrefixGrows(byId, requests, i);
    }
    assert requests[..|requests|] == requests;
    var pl1 := FindNumeric(PL1, byId, normalized);
    var pl2 := FindNumeric(PL2, byId, normalized);
    if pl1.Some? && pl2.Some? && pl1.value > pl2.value + TOLERANCE {
      return Failure(CrossField);
    }
    return Success(Validation(changes.(changes := normalized), adjustments));
  }

  lemma NothingBefore(byId: Index, changes: seq<Change>)
    ensures Replaced(byId, changes[..0]) == [] && Adjustments(byId, changes[..0]) == [] && IdsBefore(changes, 0) == {}
  {
  }

  lemma PrefixGrows(byId: Index, changes: seq<Change>, i: nat)
    requires i < |changes|
    ensures Replaced(byId, changes[..i + 1]) == Replaced(byId, changes[..i]) + [Replace(byId, changes[i])]
    ensures var outcome := NormalizeChange(byId, changes[i]);
            Adjustments(byId, changes[..i + 1])
            == Adjustments(byId, changes[..i])
               + if outcome.Success? && outcome.value.adjusted
                 then [Adjustment(changes[i].id, changes[i].requested, outcome.value.value)] else []
    ensures IdsBefore(changes, i + 1) == IdsBefore(changes, i) + {changes[i].id}
  {
    assert changes[..i + 1][..i] == changes[..i];
  }

  method ValidateRatio(current: Value, requested: Value) returns (safe: bool)
    ensures safe == RatioIsSafe(current, requested)
  {
    var items := Items(requested);
    if !current.Vector? || |items| != |current.vector| {
      return false;
    }
    for i := 0 to |items|
      invariant forall j :: 0 < j < i ==> items[j] <= items[j - 1] + TOLERANCE
      invariant forall j :: 0 <= j < i ==> items[j] <= current.vector[j] + TOLERANCE
    {
      if i > 0 && items[i] > items[i - 1] + TOLERANCE {
        return false;
      }
      if items[i] > current.vector[i] + TOLERANCE {
        return false;
      }
    }
    return true;
  }

  method FindNumeric(id: ControlId, byId: Index, changes: seq<Change>) returns (number: Option<real>)
    ensures number == EffectiveNumeric(id, byId, changes)
  {
    for i := 0 to |changes|
      invariant EffectiveNumeric(id, byId, changes) == EffectiveNumeric(id, byId, changes[i..])
    {
      if changes[i].id == id && changes[i].requested.Numeric? {
        return Some(changes[i].requested.number);
      }
    }
    return if id in byId && byId[id].current.Numeric? then Some(byId[id].current.number) else None;
  }

  // Of several capabilities with one identifier the last one counts.
  lemma {:induction false} ByIdHoldsTheLast(capabilities: seq<Capability>, id: ControlId)
    ensures id in ById(capabilities) <==> exists i :: 0 <= i < |capabilities| && capabilities[i].id == id
    ensures id in ById(capabilities) ==>
              exists i :: 0 <= i < |capabilities| && capabilities[i].id == id
                          && ById(capabilities)[id] == capabilities[i]
                          && forall j :: i < j < |capabilities| ==> capabilities[j].id != id
  {
    if capabilities != [] {
      var n := |capabilities| - 1;
      ByIdHoldsTheLast(capabilities[..n], id);
      if id == capabilities[n].id {
        assert ById(capabilities)[id] == capabilities[n];
      } else if id in ById(capabilities) {
        var i :| 0 <= i < n && capabilities[..n][i].id == id && ById(capabilities)[id] == capabilities[..n][i]
                 && forall j :: i < j < n ==> capabilities[..n][j].id != id;
        assert capabilities[i].id == id;
        assert forall j :: i < j < n ==> capabilities[j].id == capabilities[..n][j].id;
      } else {
        assert forall i :: 0 <= i < n ==> capabilities[i].id == capabilities[..n][i].id;
      }
    }
  }

  // Ratios are safe exactly if there is one for each current one, none is above it, and none above an earlier one, but
  // for the tolerance of each comparison.
  lemma RatiosAreSafeIff(current: Value, requested: seq<real>)
    ensures RatioIsSafe(current, Vector(requested)) <==>
            && current.Vector? && |requested| == |current.vector|
            && (forall i :: 0 <= i < |requested| ==> requested[i] - current.vector[i] <= TOLERANCE)
            && (forall i, j :: 0 <= i < j < |requested| ==>
                  requested[j] - requested[i] <= (j - i) as real * TOLERANCE)
  {
    if RatioIsSafe(current, Vector(requested)) {
      forall i, j | 0 <= i < j < |requested|
        ensures requested[j] - requested[i] <= (j - i) as real * TOLERANCE
      {
        RatiosFall(current, requested, i, j);
      }
    } else if current.Vector? && |requested| == |current.vector| {
      assert forall i :: 0 < i < |requested| && requested[i] > requested[i - 1] + TOLERANCE ==>
        requested[i] - requested[i - 1] > (i - (i - 1)) as real * TOLERANCE;
    }
  }

  lemma {:induction false} RatiosFall(current: Value, requested: seq<real>, i: nat, j: nat)
    requires RatioIsSafe(current, Vector(requested)) && i < j < |requested|
    ensures requested[j] - requested[i] <= (j - i) as real * TOLERANCE
    decreases j
  {
    assert requested[j] <= requested[j - 1] + TOLERANCE;
    if i < j - 1 {
      RatiosFall(current, requested, i, j - 1);
    }
  }

  lemma ChangePassesIff(byId: Index, change: Change)
    ensures NormalizeChange(byId, change).Success? <==> Passes(byId, change)
    ensures Passes(byId, change) ==>
              forall result: Change :: SubstitutedBy(byId, change, result) <==> result == Replace(byId, change)
  {
    if change.id in byId {
      var c := byId[change.id];
      forall n ensures c.Normalize(change.requested) == Success(n)
                       <==> Fits(c, change.requested) && Yields(c, change.requested, n)
      {
        NormalizePassesIff(c, change.requested, n);
      }
      NormalizePassesIff(c, change.requested, Normalized(NoValue, false));
      hide Fits, Yields;
    }
  }

  lemma {:induction false} NoFaultMeansAllPass(byId: Index, changes: seq<Change>, i: nat)
    requires i <= |changes|
    ensures FirstFault(byId, changes, i).None? <==>
            (forall k :: i <= k < |changes| ==> NormalizeChange(byId, changes[k]).Success?)
            && (forall j, k :: 0 <= j < k < |changes| && i <= k ==> changes[j].id != changes[k].id)
    decreases |changes| - i
  {
    if i < |changes| {
      NoFaultMeansAllPass(byId, changes, i + 1);
    }
  }

  lemma {:induction false} EffectiveNumericIs(id: ControlId, byId: Index, changes: seq<Change>, x: real)
    requires Distinct(changes)
    ensures EffectiveNumeric(id, byId, changes) == Some(x) <==> WillBe(byId, changes, id, x)
  {
    if changes != [] {
      var first, rest := changes[0], changes[1..];
      EffectiveNumericIs(id, byId, rest, x);
      forall y
        ensures AsksFor(changes, id, y) <==> first == Change(id, Numeric(y)) || AsksFor(rest, id, y)
      {
        if AsksFor(rest, id, y) {
          var i :| 0 <= i < |rest| && rest[i] == Change(id, Numeric(y));
          assert changes[i + 1] == rest[i];
        }
      }
      if first.id == id && first.requested.Numeric? {
        assert AsksFor(changes, id, first.requested.number);
        assert forall y :: !AsksFor(rest, id, y);
      }
    }
  }

  lemma PowerIsOrderedIff(byId: Index, changes: seq<Change>)
    requires Distinct(changes)
    ensures PowerIsOrdered(byId, changes) <==> LimitsAreOrdered(byId, changes)
  {
    forall x, id
      ensures EffectiveNumeric(id, byId, changes) == Some(x) <==> WillBe(byId, changes, id, x)
    {
      EffectiveNumericIs(id, byId, changes, x);
    }
    var pl1, pl2 := EffectiveNumeric(PL1, byId, changes), EffectiveNumeric(PL2, byId, changes);
    hide WillBe;
    if pl1.Some? && pl2.Some? {
      assert WillBe(byId, changes, PL1, pl1.value) && WillBe(byId, changes, PL2, pl2.value);
    }
  }

  // Only the replaced set puts the nearest value in place of each request.
  lemma ReplacedIsSubstituted(byId: Index, changes: seq<Change>, result: seq<Change>)
    requires forall i :: 0 <= i < |changes| ==> Passes(byId, changes[i])
    ensures Substituted(byId, changes, result) <==> result == Replaced(byId, changes)
  {
    forall i | 0 <= i < |changes|
      ensures forall r: Change :: SubstitutedBy(byId, changes[i], r) <==> r == Replace(byId, changes[i])
    {
      ChangePassesIff(byId, changes[i]);
    }
    hide SubstitutedBy, Replace, Passes;
  }

  predicate AllNormalize(byId: Index, changes: seq<Change>) {
    forall i :: 0 <= i < |changes| ==> NormalizeChange(byId, changes[i]).Success?
  }

  lemma PassingIsAccepted(capabilities: CapabilitySet, changes: ChangeSet)
    ensures var byId := ById(capabilities.capabilities);
            Validated(capabilities, changes).Success? <==>
            && capabilities.generation == changes.generation && capabilities.machine == changes.machine
            && Distinct(changes.changes) && AllNormalize(byId, changes.changes)
            && PowerIsOrdered(byId, Replaced(byId, changes.changes))
    ensures Validated(capabilities, changes).Success? ==>
              Validated(capabilities, changes) == Success(Accepted(capabilities, changes))
  {
    NoFaultMeansAllPass(ById(capabilities.capabilities), changes.changes, 0);
    hide PowerIsOrdered, NormalizeChange, Accepted, Replaced;
  }

  // A change set passes exactly when it is acceptable; what passes is addressed alike, and is the set with the nearest
  // value in place of each request.
  lemma PassesIffAcceptable(capabilities: CapabilitySet, changes: ChangeSet)
    ensures Validated(capabilities, changes).Success? <==> Acceptable(capabilities, changes)
    ensures Acceptable(capabilities, changes) ==>
              var byId := ById(capabilities.capabilities);
              var result := Validated(capabilities, changes).value.changeSet;
              && result.generation == changes.generation && result.machine == changes.machine
              && Substituted(byId, changes.changes, result.changes)
              && forall other :: Substituted(byId, changes.changes, other) ==> other == result.changes
  {
    var byId := ById(capabilities.capabilities);
    PassingIsAccepted(capabilities, changes);
    forall i | 0 <= i < |changes.changes|
      ensures NormalizeChange(byId, changes.changes[i]).Success? <==> Passes(byId, changes.changes[i])
    {
      ChangePassesIff(byId, changes.changes[i]);
    }
    hide Passes, NormalizeChange, LimitsAreOrdered, PowerIsOrdered, Validated;
    if Distinct(changes.changes) && forall i :: 0 <= i < |changes.changes| ==> Passes(byId, changes.changes[i]) {
      var result := Replaced(byId, changes.changes);
      forall other
        ensures Substituted(byId, changes.changes, other) <==> other == result
      {
        ReplacedIsSubstituted(byId, changes.changes, other);
      }
      ReplacedIsDistinct(byId, changes.changes);
      PowerIsOrderedIff(byId, result);
    }
    hide Substituted, Replaced;
  }

  lemma ReplacedIsDistinct(byId: Index, changes: seq<Change>)
    requires Distinct(changes)
    ensures Distinct(Replaced(byId, changes))
  {
  }

  lemma {:induction false} NoAdjustments(byId: Index, changes: seq<Change>)
    requires forall i :: 0 <= i < |changes| ==>
      NormalizeChange(byId, changes[i]) == Success(Normalized(changes[i].requested, false))
    ensures Adjustments(byId, changes) == []
  {
    if changes != [] {
      NoAdjustments(byId, changes[..|changes| - 1]);
    }
  }

  lemma ReplacementIsFixed(capabilities: seq<Capability>, change: Change)
    requires forall c :: c in capabilities ==> c.Settles()
    requires NormalizeChange(ById(capabilities), change).Success?
    ensures var again := Replace(ById(capabilities), change);
            NormalizeChange(ById(capabilities), again) == Success(Normalized(again.requested, false))
  {
    ByIdHoldsTheLast(capabilities, change.id);
    NormalizeIsFixed(ById(capabilities)[change.id], change.requested);
  }

  // Revalidating an accepted change set accepts it unchanged and adjusts nothing.
  lemma RevalidationIsIdentity(capabilities: CapabilitySet, changes: ChangeSet)
    requires forall c :: c in capabilities.capabilities ==> c.Settles()
    requires Validated(capabilities, changes).Success?
    ensures var first := Validated(capabilities, changes).value.changeSet;
            Validated(capabilities, first) == Success(Validation(first, []))
  {
    PassingIsAccepted(capabilities, changes);
    var byId := ById(capabilities.capabilities);
    var first := Replaced(byId, changes.changes);
    forall i | 0 <= i < |first|
      ensures NormalizeChange(byId, first[i]) == Success(Normalized(first[i].requested, false))
    {
      ReplacementIsFixed(capabilities.capabilities, changes.changes[i]);
    }
    NoAdjustments(byId, first);
    assert Replaced(byId, first) == first;
    PassingIsAccepted(capabilities, changes.(changes := first));
    ReplacedIsDistinct(byId, changes.changes);
    hide NormalizeChange, PowerIsOrdered, Validated;
  }

  // In an accepted set no two changes share a control, controls keep their order, and PL1 stays at or below PL2.
  lemma AcceptedSetIsOrdered(capabilities: CapabilitySet, changes: ChangeSet)
    requires Validated(capabilities, changes).Success?
    ensures var result := Validated(capabilities, changes).value.changeSet.changes;
            var byId := ById(capabilities.capabilities);
            && |result| == |changes.changes|
            && (forall i :: 0 <= i < |result| ==> result[i].id == changes.changes[i].id && result[i].id in byId)
            && Distinct(result)
            && LimitsAreOrdered(byId, result)
  {
    PassingIsAccepted(capabilities, changes);
    var byId := ById(capabilities.capabilities);
    ReplacedIsDistinct(byId, changes.changes);
    PowerIsOrderedIff(byId, Replaced(byId, changes.changes));
    hide LimitsAreOrdered, PowerIsOrdered, Validated;
  }

  // --- What is reported ---

  predicate Repeats(changes: seq<Change>, i: nat) {
    i < |changes| && exists j :: 0 <= j < i && changes[j].id == changes[i].id
  }

  // What is wrong with one change.
  predicate Offends(byId: Index, changes: seq<Change>, i: nat, error: Error) {
    i < |changes|
    && var change := changes[i];
       if Repeats(changes, i) then error == DuplicateControl
       else if change.id !in byId then error == UnknownControl
       else
         || Refused(byId[change.id], change.requested, error)
         || (error == BadRatio && Fits(byId[change.id], change.requested) && !Passes(byId, change))
  }

  lemma FaultIs(byId: Index, changes: seq<Change>, i: nat, error: Error)
    requires i < |changes| && !Repeats(changes, i)
    ensures NormalizeChange(byId, changes[i]) == Failure(error) <==> Offends(byId, changes, i, error)
    ensures NormalizeChange(byId, changes[i]).Success? <==> Passes(byId, changes[i])
  {
    var change := changes[i];
    ChangePassesIff(byId, change);
    if change.id in byId {
      NormalizeRefusesIff(byId[change.id], change.requested, error);
      NormalizePassesIff(byId[change.id], change.requested, Normalized(NoValue, false));
    }
    hide Fits, Yields, Passes, SubstitutedBy;
  }

  predicate Blameless(byId: Index, changes: seq<Change>, i: nat) {
    i < |changes| && !Repeats(changes, i) && Passes(byId, changes[i])
  }

  // The first change at fault is the one reported.
  ghost predicate FirstOffence(byId: Index, changes: seq<Change>, from: nat, error: Error) {
    exists i: nat ::
      from <= i && Offends(byId, changes, i, error)
      && forall k: nat :: from <= k < i ==> Blameless(byId, changes, k)
  }

  lemma {:induction false} FirstFaultIs(byId: Index, changes: seq<Change>, from: nat, error: Error)
    ensures FirstFault(byId, changes, from) == Some(error) <==> FirstOffence(byId, changes, from, error)
    decreases |changes| - from
  {
    if from < |changes| {
      FirstFaultIs(byId, changes, from + 1, error);
      if !Repeats(changes, from) {
        FaultIs(byId, changes, from, error);
      }
      assert changes[from].id in IdsBefore(changes, from) <==> Repeats(changes, from);
      hide NormalizeChange, Passes, Offends, IdsBefore;
      FirstOffenceUnfolds(byId, changes, from, error);
      hide FirstOffence;
    }
  }

  lemma FirstOffenceUnfolds(byId: Index, changes: seq<Change>, from: nat, error: Error)
    requires from < |changes|
    ensures FirstOffence(byId, changes, from, error) <==>
            || Offends(byId, changes, from, error)
            || (Blameless(byId, changes, from) && FirstOffence(byId, changes, from + 1, error))
  {
    hide Blameless, Offends;
    if Blameless(byId, changes, from) && FirstOffence(byId, changes, from + 1, error) {
      var i: nat :| from + 1 <= i && Offends(byId, changes, i, error)
        && forall k: nat :: from + 1 <= k < i ==> Blameless(byId, changes, k);
      assert forall k: nat :: from <= k < i ==> k == from || Blameless(byId, changes, k);
    }
  }

  // The error of a change set that does not pass is the first there is: the wrong set, the first change at fault, or
  // the order of the power limits.
  lemma FirstErrorIsReported(capabilities: CapabilitySet, changes: ChangeSet, error: Error)
    ensures var byId := ById(capabilities.capabilities);
            Validated(capabilities, changes) == Failure(error) <==>
            if capabilities.generation != changes.generation || capabilities.machine != changes.machine
            then error == StaleCapabilities
            else
              || FirstOffence(byId, changes.changes, 0, error)
              || (error == CrossField && Distinct(changes.changes)
                  && (forall i :: 0 <= i < |changes.changes| ==> Passes(byId, changes.changes[i]))
                  && !Acceptable(capabilities, changes))
  {
    var byId := ById(capabilities.capabilities);
    FirstFaultIs(byId, changes.changes, 0, error);
    PassesIffAcceptable(capabilities, changes);
    NoFaultMeansAllPass(byId, changes.changes, 0);
    forall i | 0 <= i < |changes.changes|
      ensures NormalizeChange(byId, changes.changes[i]).Success? <==> Passes(byId, changes.changes[i])
    {
      ChangePassesIff(byId, changes.changes[i]);
    }
    hide Passes, NormalizeChange, PowerIsOrdered, FirstOffence, Acceptable, Replaced;
  }

  // The adjustments are those of the changes whose value has been changed, in their order, with what was asked for and
  // what became of it.
  ghost predicate Reports(byId: Index, changes: seq<Change>, adjustments: seq<Adjustment>, at: seq<nat>) {
    && |at| == |adjustments|
    && (forall i, j :: 0 <= i < j < |at| ==> at[i] < at[j])
    && (forall k :: 0 <= k < |at| ==> at[k] < |changes| && Adjusts(byId, changes[at[k]], adjustments[k]))
    && (forall i, a :: 0 <= i < |changes| && Adjusts(byId, changes[i], a) ==> i in at)
  }

  ghost predicate Adjusts(byId: Index, change: Change, a: Adjustment) {
    && a.id == change.id && a.requested == change.requested
    && Passes(byId, change) && Yields(byId[change.id], change.requested, Normalized(a.normalized, true))
  }

  lemma OneMoreReport(byId: Index, changes: seq<Change>, last: Change, adjustments: seq<Adjustment>, at: seq<nat>)
    requires Reports(byId, changes, adjustments, at)
    ensures var outcome := NormalizeChange(byId, last);
            if outcome.Success? && outcome.value.adjusted
            then Reports(byId, changes + [last],
                         adjustments + [Adjustment(last.id, last.requested, outcome.value.value)], at + [|changes|])
            else Reports(byId, changes + [last], adjustments, at)
  {
    var outcome := NormalizeChange(byId, last);
    ChangePassesIff(byId, last);
    forall a
      ensures Adjusts(byId, last, a) <==>
              outcome.Success? && outcome.value.adjusted
              && a == Adjustment(last.id, last.requested, outcome.value.value)
    {
      if last.id in byId {
        NormalizePassesIff(byId[last.id], last.requested, Normalized(a.normalized, true));
      }
    }
    hide Adjusts, Passes, NormalizeChange, SubstitutedBy;
    var more := at + [|changes|];
    assert more[|at|] == |changes|;
    assert forall k :: k in at ==> k in more;
  }

  lemma {:induction false} AdjustmentsAreReported(byId: Index, changes: seq<Change>) returns (at: seq<nat>)
    ensures Reports(byId, changes, Adjustments(byId, changes), at)
  {
    if changes == [] {
      at := [];
    } else {
      hide Reports, Adjustments;
      var before, last := changes[..|changes| - 1], changes[|changes| - 1];
      assert changes == before + [last];
      at := AdjustmentsAreReported(byId, before);
      at := OneMoreAdjustment(byId, before, last, at);
    }
  }

  lemma OneMoreAdjustment(byId: Index, before: seq<Change>, last: Change, at: seq<nat>) returns (at1: seq<nat>)
    requires Reports(byId, before, Adjustments(byId, before), at)
    ensures Reports(byId, before + [last], Adjustments(byId, before + [last]), at1)
  {
    hide Reports, Adjustments, NormalizeChange;
    OneMoreReport(byId, before, last, Adjustments(byId, before), at);
    AdjustmentsGrow(byId, before, last);
    var outcome := NormalizeChange(byId, last);
    if outcome.Success? && outcome.value.adjusted {
      at1 := at + [|before|];
    } else {
      at1 := at;
    }
  }

  lemma AdjustmentsGrow(byId: Index, before: seq<Change>, last: Change)
    ensures var outcome := NormalizeChange(byId, last);
            Adjustments(byId, before + [last])
            == if outcome.Success? && outcome.value.adjusted
               then Adjustments(byId, before) + [Adjustment(last.id, last.requested, outcome.value.value)]
               else Adjustments(byId, before)
  {
    assert (before + [last])[..|before|] == before;
  }

  lemma AcceptedSetReportsAdjustments(capabilities: CapabilitySet, changes: ChangeSet) returns (at: seq<nat>)
    requires Validated(capabilities, changes).Success?
    ensures Reports(ById(capabilities.capabilities), changes.changes,
                    Validated(capabilities, changes).value.adjustments, at)
  {
    PassingIsAccepted(capabilities, changes);
    at := AdjustmentsAreReported(ById(capabilities.capabilities), changes.changes);
  }
}
