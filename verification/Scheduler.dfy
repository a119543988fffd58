// Sampling and delivering metrics under changing subscriptions (internal/telemetry/scheduler.go,
// internal/telemetry/delivery.go). Times are ticks of a clock; a time that has never been set is absent.
module SchedulerSpec {
  import opened Wrappers

  type MetricId = string
  type ProviderId = string
  type SubscriptionId = nat

  const DEFAULT_INTERVAL: nat := 250
  const FIRST_BACKOFF: nat := 250
  const MAXIMUM_BACKOFF: nat := 5000
  const OPEN_CIRCUIT: nat := 5

  datatype Options = Options(minInterval: nat, maxInterval: nat)

  datatype Sample = Sample(metric: MetricId, reading: int)

  datatype Frame = Frame(samples: seq<Sample>, finished: nat)

  datatype Delivery = Delivery(sample: Sample, time: nat)

  // `slot` is the one-frame stream to the subscriber; `delivered` remembers every sample put into it.
  datatype Entry = Entry(
    metrics: seq<MetricId>,
    interval: nat,
    lastDelivery: map<MetricId, nat>,
    slot: Option<Frame>,
    delivered: seq<Delivery>)

  type Entries = map<SubscriptionId, Entry>

  // What the last discovery found: who provides a metric, and how often it may be sampled.
  datatype Routes = Routes(provider: map<MetricId, ProviderId>, minimum: map<MetricId, nat>)

  type Demands = map<MetricId, nat>

  // One call of the provider: when, and for which metrics at which demand.
  datatype Attempt = Attempt(time: nat, due: Demands, minimum: map<MetricId, nat>)

  // `read` are the demands as they were read last, and `minimum` what the metrics allowed then.
  datatype Worker = Worker(
    lastAttempt: map<MetricId, nat>,
    attempts: seq<Attempt>,
    failures: nat,
    backoff: nat,
    read: Demands,
    minimum: map<MetricId, nat>)

  datatype System = System(
    options: Options,
    routes: Routes,
    entries: Entries,
    nextId: SubscriptionId,
    stopped: bool,
    workers: map<ProviderId, Worker>)

  function ClampInterval(options: Options, interval: int): int {
    var wanted := if interval <= 0 then DEFAULT_INTERVAL else interval;
    if wanted < options.minInterval then options.minInterval
    else if wanted > options.maxInterval then options.maxInterval
    else wanted
  }

  function Minimum(routes: Routes, m: MetricId): nat { if m in routes.minimum then routes.minimum[m] else 0 }

  function Effective(routes: Routes, entry: Entry, m: MetricId): nat {
    if Minimum(routes, m) > entry.interval then Minimum(routes, m) else entry.interval
  }

  predicate Provides(routes: Routes, provider: ProviderId, m: MetricId) {
    m in routes.provider && routes.provider[m] == provider
  }

  ghost predicate Wanted(routes: Routes, entries: Entries, provider: ProviderId, m: MetricId) {
    Provides(routes, provider, m) && exists id :: id in entries && m in entries[id].metrics
  }

  // The demands on a provider: what somebody has subscribed to, at the shortest interval anybody asks for, but no
  // shorter than the metric allows.
  ghost predicate AreDemands(routes: Routes, entries: Entries, provider: ProviderId, demands: Demands) {
    && (forall m :: m in demands <==> Wanted(routes, entries, provider, m))
    && (forall m, id :: m in demands && id in entries && m in entries[id].metrics ==>
          demands[m] <= Effective(routes, entries[id], m))
    && (forall m :: m in demands ==>
          exists id :: id in entries && m in entries[id].metrics && demands[m] == Effective(routes, entries[id], m))
  }

  predicate IsDue(lastAttempt: map<MetricId, nat>, m: MetricId, interval: nat, now: nat) {
    m !in lastAttempt || lastAttempt[m] + interval <= now
  }

  function Due(lastAttempt: map<MetricId, nat>, demands: Demands, now: nat): Demands {
    map m | m in demands && IsDue(lastAttempt, m, demands[m], now) :: demands[m]
  }

  function Informed(worker: Worker, routes: Routes, demands: Demands): Worker {
    worker.(read := demands, minimum := routes.minimum)
  }

  // Marks what is due, by the demands read last, as attempted when the call starts; that is not before the clock was
  // read.
  function Attempted(worker: Worker, now: nat, started: nat): Worker {
    var due := Due(worker.lastAttempt, worker.read, now);
    if due == map[] then worker
    else
      worker.(lastAttempt := map m | m in worker.lastAttempt.Keys + due.Keys ::
                               if m in due then started else worker.lastAttempt[m],
              attempts := worker.attempts + [Attempt(started, due, worker.minimum)])
  }

  // A failure is counted, and the next rest is doubled up to a limit.
  function Failed(worker: Worker): Worker {
    worker.(failures := worker.failures + 1,
            backoff := if 2 * worker.backoff > MAXIMUM_BACKOFF then MAXIMUM_BACKOFF else 2 * worker.backoff)
  }

  function Succeeded(worker: Worker): Worker { worker.(failures := 0, backoff := FIRST_BACKOFF) }

  // How long a worker rests after its next failure.
  function FailureDelay(worker: Worker): nat {
    if worker.failures + 1 >= OPEN_CIRCUIT then MAXIMUM_BACKOFF else worker.backoff
  }

  predicate Accepts(entry: Entry, m: MetricId, time: nat) {
    m in entry.metrics && (m !in entry.lastDelivery || entry.lastDelivery[m] + entry.interval <= time)
  }

  datatype Filtered = Filtered(entry: Entry, kept: seq<Sample>)

  // The first n samples of a frame that this subscriber is due.
  function Filter(entry: Entry, frame: Frame, n: nat): Filtered
    requires n <= |frame.samples|
  {
    if n == 0 then Filtered(entry, [])
    else
      var before := Filter(entry, frame, n - 1);
      var sample := frame.samples[n - 1];
      if !Accepts(before.entry, sample.metric, frame.finished) then before
      else
        Filtered(before.entry.(lastDelivery := before.entry.lastDelivery[sample.metric := frame.finished],
                               delivered := before.entry.delivered + [Delivery(sample, frame.finished)]),
                 before.kept + [sample])
  }

  // An empty selection is not delivered; any other replaces whatever is still waiting.
  function PublishTo(entry: Entry, frame: Frame): Entry {
    var filtered := Filter(entry, frame, |frame.samples|);
    if filtered.kept == [] then filtered.entry
    else filtered.entry.(slot := Some(Frame(filtered.kept, frame.finished)))
  }

  function PublishAll(entries: Entries, frame: Frame): Entries {
    map id | id in entries :: PublishTo(entries[id], frame)
  }

  function Unique(metrics: seq<MetricId>): seq<MetricId> {
    if metrics == [] then []
    else
      var before, last := Unique(metrics[..|metrics| - 1]), metrics[|metrics| - 1];
      if last in before then before else before + [last]
  }

  function NewEntry(options: Options, metrics: seq<MetricId>, interval: int): Entry {
    var clamped := ClampInterval(options, interval);
    Entry(Unique(metrics), if clamped < 0 then 0 else clamped, map[], None, [])
  }

  // --- Runs ---

  datatype Step =
    | Subscribing(metrics: seq<MetricId>, interval: int)
    | Unsubscribing(id: SubscriptionId)
    | Taking(id: SubscriptionId)
    | Stopping
    | Rediscovering(routes: Routes)
    | Reading(provider: ProviderId, demands: Demands)
    | Attempting(provider: ProviderId, now: nat, started: nat)
    | Failing(provider: ProviderId)
    | Succeeding(provider: ProviderId)
    | Publishing(frame: Frame)

  ghost predicate MayStep(sys: System, step: Step) {
    match step
    case Unsubscribing(id) => id in sys.entries
    case Taking(id) => id in sys.entries
    case Reading(provider, demands) =>
      provider in sys.workers && AreDemands(sys.routes, sys.entries, provider, demands)
    case Attempting(provider, now, started) => provider in sys.workers && now <= started
    case Failing(provider) => provider in sys.workers
    case Succeeding(provider) => provider in sys.workers
    case _ => true
  }

  // Subscriptions, wake-ups, failures and publications in any order, from any number of workers; between a worker's
  // reading of the demands and its attempt anything may change.
  ghost function Do(sys: System, step: Step): System {
    if !MayStep(sys, step) then sys
    else
      match step
      case Subscribing(metrics, interval) =>
        if sys.stopped then sys.(nextId := sys.nextId + 1)
        else
          sys.(nextId := sys.nextId + 1,
               entries := sys.entries[sys.nextId + 1 := NewEntry(sys.options, metrics, interval)])
      case Unsubscribing(id) => sys.(entries := sys.entries - {id})
      case Taking(id) => sys.(entries := sys.entries[id := sys.entries[id].(slot := None)])
      case Stopping => sys.(stopped := true, entries := map[])
      case Rediscovering(routes) => sys.(routes := routes)
      case Reading(provider, demands) =>
        sys.(workers := sys.workers[provider := Informed(sys.workers[provider], sys.routes, demands)])
      case Attempting(provider, now, started) =>
        sys.(workers := sys.workers[provider := Attempted(sys.workers[provider], now, started)])
      case Failing(provider) => sys.(workers := sys.workers[provider := Failed(sys.workers[provider])])
      case Succeeding(provider) => sys.(workers := sys.workers[provider := Succeeded(sys.workers[provider])])
      case Publishing(frame) => sys.(entries := PublishAll(sys.entries, frame))
  }

  ghost function Run(sys: System, steps: seq<Step>): System
    decreases |steps|
  {
    if steps == [] then sys else Run(Do(sys, steps[0]), steps[1..])
  }

  // --- Properties ---

  // An attempt is made of exactly the metrics demanded whose interval has passed since the last one, all of them at
  // once, each at the demand read; nothing else changes.
  lemma DueIsAttempted(worker: Worker, now: nat, started: nat)
    ensures var after := Attempted(worker, now, started);
            if forall m :: m in worker.read ==> m in worker.lastAttempt && now - worker.lastAttempt[m] < worker.read[m]
            then after == worker
            else
              |after.attempts| == |worker.attempts| + 1
              && var due := after.attempts[|worker.attempts|].due;
              && after.attempts == worker.attempts + [Attempt(started, due, worker.minimum)]
              && (forall m :: m in due <==>
                    m in worker.read
                    && (m in worker.lastAttempt ==> now - worker.lastAttempt[m] >= worker.read[m]))
              && (forall m :: m in due ==> due[m] == worker.read[m])
              && after == worker.(attempts := after.attempts, lastAttempt := after.lastAttempt)
              && after.lastAttempt.Keys == worker.lastAttempt.Keys + due.Keys
              && (forall m :: m in after.lastAttempt ==>
                    after.lastAttempt[m] == if m in due then started else worker.lastAttempt[m])
  {
    var due := Due(worker.lastAttempt, worker.read, now);
    if m :| m in worker.read && !(m in worker.lastAttempt && now - worker.lastAttempt[m] < worker.read[m]) {
      assert m in due;
    }
  }

  function FailedTimes(worker: Worker, n: nat): Worker { if n == 0 then worker else Failed(FailedTimes(worker, n - 1)) }

  // After a success the rests are 250, 500, 1000 and 2000 ms, and 5000 from the fifth failure in a row on.
  lemma {:induction false} RestsGrow(worker: Worker, n: nat)
    ensures var failed := FailedTimes(Succeeded(worker), n);
            && failed.failures == n && failed.backoff <= MAXIMUM_BACKOFF
            && FailureDelay(failed)
               == (match n case 0 => 250 case 1 => 500 case 2 => 1000 case 3 => 2000 case _ => 5000)
            && failed.attempts == worker.attempts && failed.lastAttempt == worker.lastAttempt
            && (n < 4 ==> failed.backoff == FailureDelay(failed))
  {
    if n > 0 {
      RestsGrow(worker, n - 1);
    }
  }

  // What is asked for, or 250 ms if nothing is, brought into bounds.
  lemma ClampIsBounded(options: Options, interval: int)
    requires 0 < options.minInterval <= options.maxInterval
    ensures var clamped, wanted := ClampInterval(options, interval), if interval > 0 then interval else 250;
            && options.minInterval <= clamped <= options.maxInterval
            && (clamped > wanted ==> clamped == options.minInterval)
            && (clamped < wanted ==> clamped == options.maxInterval)
  {
  }

  predicate Ascending(at: seq<nat>) { forall i, j :: 0 <= i < j < |at| ==> at[i] < at[j] }

  // Each metric is kept where it comes first, and nowhere else.
  predicate FirstsOf(metrics: seq<MetricId>, at: seq<nat>) {
    && Ascending(at) && (forall k :: k in at ==> k < |metrics|)
    && forall i: nat :: i < |metrics| ==> (i in at <==> forall j :: 0 <= j < i ==> metrics[j] != metrics[i])
  }

  lemma {:induction false} UniqueKeepsFirsts(metrics: seq<MetricId>) returns (at: seq<nat>)
    ensures FirstsOf(metrics, at) && |Unique(metrics)| == |at|
    ensures forall k :: 0 <= k < |at| ==> at[k] < |metrics| && Unique(metrics)[k] == metrics[at[k]]
    ensures forall m :: m in Unique(metrics) <==> m in metrics
  {
    at := [];
    if metrics != [] {
      hide FirstsOf;
      var before, last := metrics[..|metrics| - 1], metrics[|metrics| - 1];
      at := UniqueKeepsFirsts(before);
      assert forall m :: m in metrics <==> m in before || m == last;
      assert last in before <==> exists j :: 0 <= j < |before| && metrics[j] == last;
      OneMoreFirst(metrics, at);
      if last !in Unique(before) {
        at := at + [|before|];
      }
    }
  }

  lemma OneMoreFirst(metrics: seq<MetricId>, at: seq<nat>)
    requires metrics != [] && FirstsOf(metrics[..|metrics| - 1], at)
    ensures var n := |metrics| - 1;
            if metrics[n] in metrics[..n] then FirstsOf(metrics, at) else FirstsOf(metrics, at + [n])
  {
    var n := |metrics| - 1;
    var before, more := metrics[..n], at + [n];
    assert more[|at|] == n;
    assert forall k :: k in more <==> k in at || k == n;
    forall i, j | 0 <= i < j < |more|
      ensures more[i] < more[j]
    {
      assert more[i] == at[i] && at[i] in at;
    }
    forall i: nat | i < n
      ensures (forall j :: 0 <= j < i ==> metrics[j] != metrics[i]) <==> i in at
    {
      assert forall j :: 0 <= j < i ==> before[j] == metrics[j];
      assert before[i] == metrics[i];
    }
    if metrics[n] in before {
      var j :| 0 <= j < n && before[j] == metrics[n];
      assert metrics[j] == metrics[n];
    } else {
      assert forall j :: 0 <= j < n ==> metrics[j] == before[j];
    }
  }

  // Each demand is the shortest interval anybody asks for, or the least the metric allows if that is longer.
  lemma DemandsAreShortest(routes: Routes, entries: Entries, provider: ProviderId, demands: Demands, m: MetricId)
    requires AreDemands(routes, entries, provider, demands)
    ensures m in demands <==> && m in routes.provider && routes.provider[m] == provider
                              && exists id :: id in entries && m in entries[id].metrics
    ensures m in demands && m in routes.minimum ==> routes.minimum[m] <= demands[m]
    ensures m in demands ==> forall id :: id in entries && m in entries[id].metrics ==>
              demands[m] <= entries[id].interval || (m in routes.minimum && demands[m] == routes.minimum[m])
    ensures m in demands && !(m in routes.minimum && demands[m] == routes.minimum[m]) ==>
              exists id :: id in entries && m in entries[id].metrics && demands[m] == entries[id].interval
  {
  }

  // A later attempt at the same metric comes no sooner than the demand read for it allows, which is no sooner than the
  // metric itself allows.
  ghost predicate AttemptsSpaced(attempts: seq<Attempt>) {
    && (forall i, j, m :: 0 <= i < j < |attempts| && m in attempts[i].due && m in attempts[j].due ==>
          attempts[i].time + attempts[j].due[m] <= attempts[j].time)
    && (forall i, m :: 0 <= i < |attempts| && m in attempts[i].due && m in attempts[i].minimum ==>
          attempts[i].minimum[m] <= attempts[i].due[m])
  }

  ghost predicate Paced(worker: Worker) {
    && AttemptsSpaced(worker.attempts)
    && (forall i, m :: 0 <= i < |worker.attempts| && m in worker.attempts[i].due ==>
          m in worker.lastAttempt && worker.attempts[i].time <= worker.lastAttempt[m])
    && (forall m :: m in worker.read && m in worker.minimum ==> worker.minimum[m] <= worker.read[m])
    && FIRST_BACKOFF <= worker.backoff <= MAXIMUM_BACKOFF
  }

  // Two deliveries of one metric to one subscriber are at least its interval apart.
  ghost predicate DeliveriesSpaced(entry: Entry) {
    forall i, j :: 0 <= i < j < |entry.delivered|
                   && entry.delivered[i].sample.metric == entry.delivered[j].sample.metric ==>
      entry.delivered[i].time + entry.interval <= entry.delivered[j].time
  }

  ghost predicate Served(entry: Entry) {
    && entry.interval > 0
    && DeliveriesSpaced(entry)
    && (forall i :: 0 <= i < |entry.delivered| ==>
          && entry.delivered[i].sample.metric in entry.metrics
          && entry.delivered[i].sample.metric in entry.lastDelivery
          && entry.delivered[i].time <= entry.lastDelivery[entry.delivered[i].sample.metric])
  }

  ghost predicate Regular(sys: System) {
    && 0 < sys.options.minInterval && 0 < sys.options.maxInterval
    && (forall id :: id in sys.entries ==> Served(sys.entries[id]) && id <= sys.nextId)
    && (forall p :: p in sys.workers ==> Paced(sys.workers[p]))
    && (sys.stopped ==> sys.entries == map[])
  }

  lemma DemandsAreAllowed(routes: Routes, entries: Entries, provider: ProviderId, demands: Demands, m: MetricId)
    requires AreDemands(routes, entries, provider, demands) && m in demands
    ensures Minimum(routes, m) <= demands[m] && Wanted(routes, entries, provider, m)
  {
  }

  // `due` is no more than what is due.
  ghost predicate Spared(worker: Worker, due: Demands, started: nat) {
    forall m :: m in due && m in worker.lastAttempt ==> worker.lastAttempt[m] + due[m] <= started
  }

  lemma OneMoreAttempt(worker: Worker, due: Demands, minimum: map<MetricId, nat>, started: nat)
    requires Paced(worker) && Spared(worker, due, started)
    requires forall m :: m in due && m in minimum ==> minimum[m] <= due[m]
    ensures AttemptsSpaced(worker.attempts + [Attempt(started, due, minimum)])
  {
    var attempts, n := worker.attempts + [Attempt(started, due, minimum)], |worker.attempts|;
    forall i, j, m | 0 <= i < j < |attempts| && m in attempts[i].due && m in attempts[j].due
      ensures attempts[i].time + attempts[j].due[m] <= attempts[j].time
    {
      assert attempts[i] == worker.attempts[i];
      if j == n {
        assert worker.attempts[i].time <= worker.lastAttempt[m];
      } else {
        assert attempts[j] == worker.attempts[j];
      }
    }
    forall i, m | 0 <= i < |attempts| && m in attempts[i].due && m in attempts[i].minimum
      ensures attempts[i].minimum[m] <= attempts[i].due[m]
    {
      if i < n {
        assert attempts[i] == worker.attempts[i];
      }
    }
  }

  lemma ReadingKeepsPace(worker: Worker, routes: Routes, entries: Entries, provider: ProviderId, demands: Demands)
    requires Paced(worker) && AreDemands(routes, entries, provider, demands)
    ensures Paced(Informed(worker, routes, demands))
  {
    hide AttemptsSpaced;
    forall m | m in demands && m in routes.minimum
      ensures routes.minimum[m] <= demands[m]
    {
      DemandsAreAllowed(routes, entries, provider, demands, m);
    }
  }

  lemma AttemptKeepsPace(worker: Worker, now: nat, started: nat)
    requires Paced(worker) && now <= started
    ensures Paced(Attempted(worker, now, started))
  {
    var due := Due(worker.lastAttempt, worker.read, now);
    OneMoreAttempt(worker, due, worker.minimum, started);
    LastAttemptsKeepUp(worker, now, started);
    hide AttemptsSpaced, Spared, Due;
  }

  lemma LastAttemptsKeepUp(worker: Worker, now: nat, started: nat)
    requires Paced(worker) && now <= started
    ensures var worker1 := Attempted(worker, now, started);
            forall i, m :: 0 <= i < |worker1.attempts| && m in worker1.attempts[i].due ==>
              m in worker1.lastAttempt && worker1.attempts[i].time <= worker1.lastAttempt[m]
  {
    hide AttemptsSpaced;
    var due := Due(worker.lastAttempt, worker.read, now);
    var worker1 := Attempted(worker, now, started);
    forall i, m | 0 <= i < |worker1.attempts| && m in worker1.attempts[i].due
      ensures m in worker1.lastAttempt && worker1.attempts[i].time <= worker1.lastAttempt[m]
    {
      if i < |worker.attempts| {
        assert worker1.attempts[i] == worker.attempts[i];
        assert worker.attempts[i].time <= worker.lastAttempt[m];
      }
    }
  }

  // A subscriber is due a sample of its metrics if its interval has passed since it had the last one, or it has had
  // none.
  predicate Owed(entry: Entry, m: MetricId, time: nat) {
    (exists i :: 0 <= i < |entry.metrics| && entry.metrics[i] == m)
    && (m in entry.lastDelivery ==> time - entry.lastDelivery[m] >= entry.interval)
  }

  // The first sample in the frame of each metric that is due.
  predicate Picks(entry: Entry, frame: Frame, i: nat) {
    i < |frame.samples| && Owed(entry, frame.samples[i].metric, frame.finished)
    && forall j :: 0 <= j < i ==> frame.samples[j].metric != frame.samples[i].metric
  }

  // These are the indices below n of the samples picked.
  predicate Chooses(entry: Entry, frame: Frame, n: nat, at: seq<nat>) {
    Ascending(at) && (forall i: nat :: i < n ==> (i in at <==> Picks(entry, frame, i))) && forall i :: i in at ==> i < n
  }

  function Taken(frame: Frame, at: seq<nat>): seq<Sample>
    requires forall i :: i in at ==> i < |frame.samples|
  {
    seq(|at|, k requires 0 <= k < |at| => assert at[k] in at; frame.samples[at[k]])
  }

  function Logged(samples: seq<Sample>, time: nat): seq<Delivery> {
    seq(|samples|, k requires 0 <= k < |samples| => Delivery(samples[k], time))
  }

  // Among the first n samples there is one of this metric.
  predicate Mentions(frame: Frame, n: nat, m: MetricId) {
    exists j :: 0 <= j < n && j < |frame.samples| && frame.samples[j].metric == m
  }

  // What has been delivered last, once the first n samples have been looked at.
  ghost predicate Noted(entry: Entry, frame: Frame, n: nat, after: map<MetricId, nat>) {
    forall m ::
      if Owed(entry, m, frame.finished) && Mentions(frame, n, m) then m in after && after[m] == frame.finished
      else (m in after <==> m in entry.lastDelivery) && (m in after ==> after[m] == entry.lastDelivery[m])
  }

  lemma MentionsOneMore(frame: Frame, n: nat)
    requires n < |frame.samples|
    ensures forall m :: Mentions(frame, n + 1, m) <==> Mentions(frame, n, m) || m == frame.samples[n].metric
  {
    forall m
      ensures Mentions(frame, n + 1, m) <==> Mentions(frame, n, m) || m == frame.samples[n].metric
    {
      if Mentions(frame, n, m) {
        var j :| 0 <= j < n && j < |frame.samples| && frame.samples[j].metric == m;
        assert 0 <= j < n + 1 && frame.samples[j].metric == m;
      } else if Mentions(frame, n + 1, m) {
        var j :| 0 <= j < n + 1 && j < |frame.samples| && frame.samples[j].metric == m;
        assert j == n;
      } else {
        assert frame.samples[n].metric != m;
      }
    }
  }

  lemma AcceptsWhatIsPicked(entry: Entry, frame: Frame, n: nat, now: Entry)
    requires n < |frame.samples| && entry.interval > 0
    requires now.metrics == entry.metrics && now.interval == entry.interval
    requires Noted(entry, frame, n, now.lastDelivery)
    ensures Accepts(now, frame.samples[n].metric, frame.finished) <==> Picks(entry, frame, n)
  {
  }

  lemma OneMoreChosen(entry: Entry, frame: Frame, n: nat, at: seq<nat>)
    requires n < |frame.samples| && Chooses(entry, frame, n, at)
    ensures if Picks(entry, frame, n)
            then Chooses(entry, frame, n + 1, at + [n])
                 && Taken(frame, at + [n]) == Taken(frame, at) + [frame.samples[n]]
            else Chooses(entry, frame, n + 1, at)
  {
    hide Picks;
    var more := at + [n];
    assert more[|at|] == n;
    assert forall k :: k in more <==> k in at || k == n;
    forall i, j | 0 <= i < j < |more|
      ensures more[i] < more[j]
    {
      assert more[i] == at[i] && at[i] in at;
    }
  }

  lemma {:induction false} FilterPicks(entry: Entry, frame: Frame, n: nat) returns (at: seq<nat>)
    requires n <= |frame.samples| && entry.interval > 0
    ensures Chooses(entry, frame, n, at)
    ensures var filtered := Filter(entry, frame, n);
            && filtered.kept == Taken(frame, at)
            && filtered.entry == entry.(lastDelivery := filtered.entry.lastDelivery,
                                        delivered := entry.delivered + Logged(filtered.kept, frame.finished))
            && Noted(entry, frame, n, filtered.entry.lastDelivery)
  {
    if n == 0 {
      at := [];
    } else {
      at := FilterPicks(entry, frame, n - 1);
      var before := Filter(entry, frame, n - 1);
      AcceptsWhatIsPicked(entry, frame, n - 1, before.entry);
      OneMoreChosen(entry, frame, n - 1, at);
      OneMoreNoted(entry, frame, n - 1, before.entry.lastDelivery);
      hide Accepts, Chooses, Noted, Picks, Taken;
      if Picks(entry, frame, n - 1) {
        at := at + [n - 1];
      }
    }
  }

  lemma OneMoreNoted(entry: Entry, frame: Frame, n: nat, last: map<MetricId, nat>)
    requires n < |frame.samples| && Noted(entry, frame, n, last)
    ensures Noted(entry, frame, n + 1, if Picks(entry, frame, n) then last[frame.samples[n].metric := frame.finished]
                                       else last)
  {
    MentionsOneMore(frame, n);
    var m := frame.samples[n].metric;
    assert Mentions(frame, n, m) || Owed(entry, m, frame.finished) ==> Mentions(frame, n, m) || Picks(entry, frame, n);
    hide Mentions, Owed;
  }

  lemma {:induction false} FilterKeepsServed(entry: Entry, frame: Frame, n: nat)
    requires n <= |frame.samples| && Served(entry)
    ensures Served(Filter(entry, frame, n).entry)
  {
    if n > 0 {
      FilterKeepsServed(entry, frame, n - 1);
    }
  }

  // A publication delivers exactly the first sample of each metric that is due, as it is and in the order of the
  // frame; that is what the slot then holds, unless nothing is due and it stays as it was.
  lemma PublishingServes(entry: Entry, frame: Frame) returns (at: seq<nat>)
    requires Served(entry)
    ensures Chooses(entry, frame, |frame.samples|, at)
    ensures var after, kept := PublishTo(entry, frame), Taken(frame, at);
            && Served(after)
            && after.slot == (if at == [] then entry.slot else Some(Frame(kept, frame.finished)))
            && after.delivered == entry.delivered + Logged(kept, frame.finished)
            && after.metrics == entry.metrics && after.interval == entry.interval
            && Noted(entry, frame, |frame.samples|, after.lastDelivery)
  {
    at := FilterPicks(entry, frame, |frame.samples|);
    FilterKeepsServed(entry, frame, |frame.samples|);
    hide DeliveriesSpaced, Noted, Chooses;
  }

  lemma NewEntryIsServed(options: Options, metrics: seq<MetricId>, interval: int)
    requires 0 < options.minInterval && 0 < options.maxInterval
    ensures Served(NewEntry(options, metrics, interval))
  {
  }

  lemma TakingServes(entry: Entry)
    requires Served(entry)
    ensures Served(entry.(slot := None))
  {
  }

  lemma RestingKeepsPace(worker: Worker)
    requires Paced(worker)
    ensures Paced(Failed(worker)) && Paced(Succeeded(worker))
  {
    hide AttemptsSpaced;
  }

  lemma DoKeepsRegular(sys: System, step: Step)
    requires Regular(sys)
    ensures Regular(Do(sys, step))
  {
    hide Served, Paced, PublishTo, NewEntry, AreDemands, AttemptsSpaced;
    if MayStep(sys, step) {
      match step
      case Subscribing(metrics, interval) => NewEntryIsServed(sys.options, metrics, interval);
      case Taking(id) => TakingServes(sys.entries[id]);
      case Failing(provider) => RestingKeepsPace(sys.workers[provider]);
      case Succeeding(provider) => RestingKeepsPace(sys.workers[provider]);
      case Reading(provider, demands) =>
        ReadingKeepsPace(sys.workers[provider], sys.routes, sys.entries, provider, demands);
      case Attempting(provider, now, started) => AttemptKeepsPace(sys.workers[provider], now, started);
      case Publishing(frame) =>
        forall id | id in sys.entries
          ensures Served(PublishTo(sys.entries[id], frame))
        {
          var at := PublishingServes(sys.entries[id], frame);
        }
      case _ =>
    }
  }

  // A subscription comes under an identifier never used before, and goes alone; stopping ends them all.
  lemma SubscriptionsComeAndGo(sys: System, metrics: seq<MetricId>, interval: int, id: SubscriptionId)
    requires Regular(sys)
    ensures var after := Do(sys, Subscribing(metrics, interval));
            && after.nextId == sys.nextId + 1 && after.nextId !in sys.entries
            && after.entries == if sys.stopped then map[]
                                else sys.entries[after.nextId := NewEntry(sys.options, metrics, interval)]
    ensures Do(sys, Unsubscribing(id)) == sys.(entries := map k | k in sys.entries && k != id :: sys.entries[k])
    ensures Do(sys, Stopping).entries == map[] && Do(sys, Stopping).stopped
  {
    assert sys.entries - {id} == map k | k in sys.entries && k != id :: sys.entries[k];
    hide Served, Paced, NewEntry;
  }

  // Once stopped, a scheduler never serves anybody again.
  lemma {:induction false} StoppedIsForGood(sys: System, steps: seq<Step>)
    requires Regular(sys) && sys.stopped
    ensures Run(sys, steps).stopped && Run(sys, steps).entries == map[]
    decreases |steps|
  {
    if steps != [] {
      DoKeepsRegular(sys, steps[0]);
      assert Do(sys, steps[0]).stopped by { hide Regular; }
      hide Regular, Do;
      StoppedIsForGood(Do(sys, steps[0]), steps[1..]);
    }
  }

  // Over every run, whatever subscriptions come and go and whatever fails.
  lemma {:induction false} EveryRunIsRegular(sys: System, steps: seq<Step>)
    requires Regular(sys)
    ensures Regular(Run(sys, steps))
    decreases |steps|
  {
    if steps != [] {
      DoKeepsRegular(sys, steps[0]);
      EveryRunIsRegular(Do(sys, steps[0]), steps[1..]);
    }
  }
}

// The scheduler as it runs.
module Scheduler {
  import opened Wrappers
  import opened SchedulerSpec

  class Subscription {
    const metrics: seq<MetricId>
    const interval: nat
    var lastDelivery: map<MetricId, nat>
    var slot: Option<Frame>
    ghost var delivered: seq<Delivery>

    constructor (options: Options, metricIds: seq<MetricId>, interval: int)
      ensures View() == NewEntry(options, metricIds, interval)
    {
      var unique := UniqueMetricIds(metricIds);
      var clamped := ClampInterval(options, interval);
      metrics, this.interval := unique, if clamped < 0 then 0 else clamped;
      lastDelivery, slot, delivered := map[], None, [];
    }

    ghost function View(): Entry
      reads this
    {
      Entry(metrics, interval, lastDelivery, slot, delivered)
    }

    // Evicts what is waiting unless the subscriber has just taken it; either way there is then room.
    method DeliverLatest(frame: Frame, taken: bool) returns (dropped: bool)
      modifies this`slot
      ensures View() == old(View()).(slot := Some(frame)) && dropped == (old(slot).Some? && !taken)
    {
      if slot.None? {
        slot := Some(frame);
        return false;
      }
      if taken {
        slot := None;
      }
      if slot.Some? {
        slot := None;
        dropped := true;
      } else {
        dropped := false;
      }
      slot := Some(frame);
    }

    method Publish(frame: Frame, taken: bool) returns (dropped: bool)
      modifies this
      ensures View() == PublishTo(old(View()), frame)
      ensures dropped == (delivered != old(delivered) && old(slot).Some? && !taken)
    {
      var kept: seq<Sample> := [];
      ghost var before := View();
      for n := 0 to |frame.samples|
        invariant Filter(before, frame, n) == Filtered(View(), kept)
        invariant |delivered| == |before.delivered| + |kept| && before.delivered <= delivered && slot == before.slot
      {
        var sample := frame.samples[n];
        if sample.metric in metrics
           && (sample.metric !in lastDelivery || frame.finished >= lastDelivery[sample.metric] + interval) {
          kept := kept + [sample];
          lastDelivery := lastDelivery[sample.metric := frame.finished];
          delivered := delivered + [Delivery(sample, frame.finished)];
        }
      }
      if |kept| == 0 {
        return false;
      }
      dropped := DeliverLatest(Frame(kept, frame.finished), taken);
    }
  }

  method UniqueMetricIds(metricIds: seq<MetricId>) returns (unique: seq<MetricId>)
    ensures unique == Unique(metricIds)
  {
    var seen: set<MetricId> := {};
    unique := [];
    for n := 0 to |metricIds|
      invariant unique == Unique(metricIds[..n]) && forall m :: m in seen <==> m in unique
    {
      assert metricIds[..n + 1][..n] == metricIds[..n];
      if metricIds[n] !in seen {
        seen := seen + {metricIds[n]};
        unique := unique + [metricIds[n]];
      }
    }
    assert metricIds[..|metricIds|] == metricIds;
  }

  class Registry {
    const options: Options
    var routes: Routes
    var subscriptions: map<SubscriptionId, Subscription>
    var nextId: SubscriptionId
    var stopped: bool

    ghost predicate Valid()
      reads this
    {
      && (forall a, b :: a in subscriptions && b in subscriptions && subscriptions[a] == subscriptions[b] ==> a == b)
      && (forall id :: id in subscriptions ==> id <= nextId)
      && (stopped ==> subscriptions == map[])
    }

    ghost function Entries(): SchedulerSpec.Entries
      reads this, subscriptions.Values
    {
      map id | id in subscriptions :: subscriptions[id].View()
    }

    constructor (options: Options)
      ensures Valid() && this.options == options && Entries() == map[] && nextId == 0 && !stopped
    {
      this.options, routes, subscriptions, nextId, stopped := options, Routes(map[], map[]), map[], 0, false;
    }

    method Subscribe(metricIds: seq<MetricId>, interval: int) returns (id: SubscriptionId)
      requires Valid()
      modifies this`subscriptions, this`nextId
      ensures Valid() && id == nextId == old(nextId) + 1
      ensures Entries() == if stopped then old(Entries())
                           else old(Entries())[id := NewEntry(options, metricIds, interval)]
    {
      hide NewEntry, Subscription.View;
      nextId := nextId + 1;
      id := nextId;
      if !stopped {
        var subscription := new Subscription(options, metricIds, interval);
        ghost var entries := Entries();
        subscriptions := subscriptions[id := subscription];
        assert Entries() == entries[id := subscription.View()];
      }
    }

    method Unsubscribe(id: SubscriptionId)
      requires Valid()
      modifies this`subscriptions
      ensures Valid() && Entries() == old(Entries()) - {id}
    {
      subscriptions := subscriptions - {id};
    }

    method CloseAll()
      requires Valid()
      modifies this`subscriptions, this`stopped
      ensures Valid() && stopped && Entries() == map[]
    {
      stopped, subscriptions := true, map[];
    }

    // Offers the frame to every subscriber, in no particular order. `taken` says who takes a waiting frame just then.
    method Publish(frame: Frame, taken: set<SubscriptionId>)
      requires Valid()
      modifies subscriptions.Values
      ensures Valid() && Entries() == PublishAll(old(Entries()), frame)
    {
      var left := subscriptions.Keys;
      while left != {}
        invariant left <= subscriptions.Keys
        invariant forall id :: id in subscriptions ==>
          subscriptions[id].View()
          == if id in left then old(subscriptions[id].View()) else PublishTo(old(subscriptions[id].View()), frame)
        decreases left
      {
        var id :| id in left;
        var dropped := subscriptions[id].Publish(frame, id in taken);
        left := left - {id};
      }
    }

    // One subscriber's wishes added to those of the others.
    method AddDemands(provider: ProviderId, subscription: Subscription, before: Demands,
                      ghost others: SchedulerSpec.Entries, ghost id: SubscriptionId) returns (demands: Demands)
      requires AreDemands(routes, others, provider, before) && id !in others
      ensures AreDemands(routes, others[id := subscription.View()], provider, demands)
    {
      demands := before;
      ghost var entry := subscription.View();
      for n := 0 to |subscription.metrics|
        invariant forall m :: m in demands <==>
          m in before || (m in subscription.metrics[..n] && Provides(routes, provider, m))
        invariant forall m :: m in demands ==>
          demands[m] == if m in subscription.metrics[..n] && Provides(routes, provider, m) then
                          (if m in before && before[m] <= Effective(routes, entry, m) then before[m]
                           else Effective(routes, entry, m))
                        else before[m]
      {
        var m := subscription.metrics[n];
        assert subscription.metrics[..n + 1] == subscription.metrics[..n] + [m];
        if Provides(routes, provider, m) {
          var effective := subscription.interval;
          if Minimum(routes, m) > effective {
            effective := Minimum(routes, m);
          }
          if m !in demands || effective < demands[m] {
            demands := demands[m := effective];
          }
        }
      }
      assert subscription.metrics[..|subscription.metrics|] == subscription.metrics;
      MoreDemands(routes, others, provider, before, id, entry, demands);
    }

    method DemandsFor(provider: ProviderId) returns (demands: Demands)
      requires Valid()
      ensures AreDemands(routes, Entries(), provider, demands)
    {
      demands := map[];
      var left := subscriptions.Keys;
      ghost var done: SchedulerSpec.Entries := map[];
      assert AreDemands(routes, done, provider, demands);
      hide AreDemands, Subscription.View;
      while left != {}
        invariant left <= subscriptions.Keys
        invariant done == map id | id in subscriptions && id !in left :: subscriptions[id].View()
        invariant AreDemands(routes, done, provider, demands)
        decreases left
      {
        var id :| id in left;
        demands := AddDemands(provider, subscriptions[id], demands, done, id);
        left, done := left - {id}, done[id := subscriptions[id].View()];
      }
      assert done == Entries();
    }
  }

  lemma MoreDemands(routes: Routes, others: Entries, provider: ProviderId, before: Demands, id: SubscriptionId,
                    entry: Entry, demands: Demands)
    requires AreDemands(routes, others, provider, before) && id !in others
    requires forall m :: m in demands <==> m in before || (m in entry.metrics && Provides(routes, provider, m))
    requires forall m :: m in demands ==>
      demands[m] == if m in entry.metrics && Provides(routes, provider, m) then
                      (if m in before && before[m] <= Effective(routes, entry, m) then before[m]
                       else Effective(routes, entry, m))
                    else before[m]
    ensures AreDemands(routes, others[id := entry], provider, demands)
  {
    hide Effective, Provides;
    var all := others[id := entry];
    assert id in all && all[id] == entry;
    assert forall k :: k in others ==> k in all && all[k] == others[k];
    forall m
      ensures m in demands <==> Wanted(routes, all, provider, m)
    {
      if m in before {
        var k :| k in others && m in others[k].metrics;
        assert k in all && m in all[k].metrics;
      }
    }
    forall m | m in demands
      ensures exists k :: k in all && m in all[k].metrics && demands[m] == Effective(routes, all[k], m)
    {
      if m in entry.metrics && Provides(routes, provider, m) && demands[m] == Effective(routes, entry, m) {
        assert m in all[id].metrics;
      } else {
        var k :| k in others && m in others[k].metrics && before[m] == Effective(routes, others[k], m);
        assert k in all && m in all[k].metrics;
      }
    }
  }

  class ProviderWorker {
    var lastAttempt: map<MetricId, nat>
    var failures: nat
    var backoff: nat
    var demands: Demands
    ghost var minimum: map<MetricId, nat>
    ghost var attempts: seq<Attempt>

    ghost function View(): Worker
      reads this
    {
      Worker(lastAttempt, attempts, failures, backoff, demands, minimum)
    }

    constructor ()
      ensures Paced(View()) && attempts == []
    {
      lastAttempt, failures, backoff, attempts, demands, minimum := map[], 0, FIRST_BACKOFF, [], map[], map[];
    }

    // Asks the registry what is wanted.
    method ReadDemands(registry: Registry, provider: ProviderId)
      requires registry.Valid()
      modifies this`demands, this`minimum
      ensures View() == Informed(old(View()), registry.routes, demands)
      ensures AreDemands(registry.routes, registry.Entries(), provider, demands)
    {
      hide AreDemands;
      demands := registry.DemandsFor(provider);
      minimum := registry.routes.minimum;
    }

    // Chooses what is due and marks it as attempted; nothing due means no call. `started` is read after `now`.
    method Choose(now: nat, started: nat) returns (due: set<MetricId>)
      modifies this`lastAttempt, this`attempts
      ensures View() == Attempted(old(View()), now, started)
      ensures due == Due(old(lastAttempt), demands, now).Keys
    {
      due := {};
      var left := demands.Keys;
      while left != {}
        invariant left <= demands.Keys && View() == old(View())
        invariant due == set m | m in demands && m !in left && IsDue(lastAttempt, m, demands[m], now)
        decreases left
      {
        var m :| m in left;
        if m !in lastAttempt || now >= lastAttempt[m] + demands[m] {
          due := due + {m};
        }
        left := left - {m};
      }
      ghost var chosen := Due(lastAttempt, demands, now);
      assert due == chosen.Keys;
      if due == {} {
        assert chosen == map[];
        return;
      }
      attempts := attempts + [Attempt(started, chosen, minimum)];
      lastAttempt := map m | m in lastAttempt.Keys + due :: if m in due then started else lastAttempt[m];
    }

    // Counts a failure and says how long to rest.
    method NoteFailure() returns (delay: nat)
      modifies this`failures, this`backoff
      ensures View() == Failed(old(View())) && delay == FailureDelay(old(View()))
    {
      failures := failures + 1;
      delay := backoff;
      if failures >= OPEN_CIRCUIT {
        delay := MAXIMUM_BACKOFF;
      }
      backoff := backoff * 2;
      if backoff > MAXIMUM_BACKOFF {
        backoff := MAXIMUM_BACKOFF;
      }
    }

    method NoteSuccess()
      modifies this`failures, this`backoff
      ensures View() == Succeeded(old(View()))
    {
      failures, backoff := 0, FIRST_BACKOFF;
    }
  }
}
