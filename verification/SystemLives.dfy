// One helper after another: whatever ends a helper, and at whatever step, the next one finds a world from which stock
// settings can be restored, unless evidence has been lost.
module SystemLives {
  import opened Wrappers
  import opened Model
  import opened Validate
  import opened Recovery
  import opened TransactionSpec
  import opened TransactionSafety
  import opened TransactionTrails
  import opened SessionSpec
  import opened SessionLaws
  import opened SessionReplies
  import opened ClientSpec
  import opened SystemSpec
  import opened SystemSafety

  // The world is evident wherever the helper has got to, and wherever its turn still leads.
  predicate Recorded(stock: Hardware, sys: System) {
    !HasStrayed(sys) ==>
      && Evident(sys.session.cfg, stock, sys.world)
      && (sys.helper.Working? ==> AllEvident(sys.session.cfg, stock, sys.helper.path))
  }

  lemma LaunchIsRecorded(stock: Hardware, env: Environment, cfg: Config, machine: Machine)
    requires Recoverable(cfg, stock, machine)
    ensures Recorded(stock, Launch(env, cfg, machine))
  {
  }

  // A turn shows only what its machine's history holds.
  lemma TurnIsRecorded(stock: Hardware, s: Session, input: Input, t: Turned)
    requires Told(stock, s, input, t) && t.session.machine.strays == []
    ensures s.machine.strays == [] && t.session.cfg == s.cfg
    ensures AllEvident(s.cfg, stock, Path(s.machine, t.session.machine))
  {
    var path := Path(s.machine, t.session.machine);
    assert Kept(s.cfg, stock, t.session.machine);
    hide Evident;
    forall i | 0 <= i < |path|
      ensures Evident(s.cfg, stock, path[i])
    {
      assert path[i] == t.session.machine.history[|s.machine.history| + i];
    }
  }

  lemma TookIsRecorded(stock: Hardware, sys: System, input: Input, t: Turned)
    requires Recorded(stock, sys) && sys.helper.Idling? && Told(stock, sys.session, input, t)
    ensures Recorded(stock, Took(sys, input, t))
  {
    if t.session.machine.strays == [] {
      TurnIsRecorded(stock, sys.session, input, t);
    }
    hide Told, Evident, AllEvident;
  }

  lemma TurningIsRecorded(stock: Hardware, sys: System, at: nat, input: Input)
    requires Faithful(stock, sys) && Recorded(stock, sys) && sys.helper.Idling?
    requires input.LeaseFired? ==> sys.session.lease.Some?
    ensures Recorded(stock, DoTurning(sys, at, input))
  {
    TurnIsTold(stock, sys, at, input);
    hide Faithful, Turn, Told, Recorded, Took;
    TookIsRecorded(stock, sys, input, Turn(sys.session, at, input, sys.env));
  }

  lemma FinishingIsRecorded(stock: Hardware, sys: System)
    requires Faithful(stock, sys) && Recorded(stock, sys)
    requires sys.helper.Working? && sys.helper.path == [] && sys.helper.replies == []
    ensures Recorded(stock, DoFinishing(sys))
  {
    hide Concluded, Speaks, Guarded, Evident, Trails;
  }

  lemma AdvancingIsRecorded(stock: Hardware, sys: System)
    requires Recorded(stock, sys) && sys.helper.Working? && sys.helper.path != []
    ensures Recorded(stock, DoAdvancing(sys))
  {
    hide Evident;
  }

  lemma CrashingIsRecorded(stock: Hardware, sys: System)
    requires Recorded(stock, sys)
    ensures Recorded(stock, DoCrashing(sys))
  {
  }

  predicate TouchesTheWorld(step: Step) {
    step.Turning? || step.Advancing? || step.Finishing? || step.Crashing?
  }

  ghost predicate SameWorld(sys: System, next: System) {
    && next.world == sys.world && next.session.cfg == sys.session.cfg && next.session.machine == sys.session.machine
    && next.astray == sys.astray
    && match sys.helper
       case Working(_, turned, path, _) =>
         next.helper.Working? && next.helper.turned.session.machine == turned.session.machine
         && next.helper.path == path
       case _ => next.helper == sys.helper
  }

  predicate Requests(step: Step) {
    step.Requesting? || step.Transmitting? || step.Completing? || step.Abandoning?
  }

  lemma TransmittingLeavesTheWorld(sys: System, ok: bool, landed: bool)
    requires sys.op.Asking?
    ensures SameWorld(sys, DoTransmitting(sys, ok, landed))
  {
    hide Die, Forget;
  }

  lemma CompletingLeavesTheWorld(sys: System)
    requires sys.op.Waiting? && Serial(sys.op.id) in sys.client.inbox
    ensures SameWorld(sys, DoCompleting(sys))
  {
    hide AfterAnswer;
  }

  lemma RequestsLeaveTheWorld(sys: System, step: Step)
    requires Requests(step) && MayStep(sys, step)
    ensures SameWorld(sys, Do(sys, step))
  {
    match step
    case Transmitting(ok, landed) => TransmittingLeavesTheWorld(sys, ok, landed);
    case Completing => CompletingLeavesTheWorld(sys);
    case _ =>
    hide Register, Die, Forget, Take, MayRequest, DoTransmitting, DoCompleting;
  }

  // The other steps leave the helper where it is, or let it answer.
  lemma OthersLeaveTheWorld(sys: System, step: Step)
    requires !TouchesTheWorld(step)
    ensures SameWorld(sys, Do(sys, step))
  {
    hide Turn, Receive, Announce, Die, Take, DoTurning;
    if Requests(step) && MayStep(sys, step) {
      hide Do;
      RequestsLeaveTheWorld(sys, step);
    }
  }

  lemma TouchingIsRecorded(stock: Hardware, sys: System, step: Step)
    requires Faithful(stock, sys) && Recorded(stock, sys) && TouchesTheWorld(step) && MayStep(sys, step)
    ensures Recorded(stock, Do(sys, step))
  {
    hide Faithful, Recorded, DoTurning, DoAdvancing, DoFinishing, DoCrashing;
    match step
    case Turning(at, wake) => TurningIsRecorded(stock, sys, at, Take(sys, wake).value);
    case Advancing => AdvancingIsRecorded(stock, sys);
    case Finishing => FinishingIsRecorded(stock, sys);
    case Crashing => CrashingIsRecorded(stock, sys);
  }

  lemma SameWorldIsRecorded(stock: Hardware, sys: System, next: System)
    requires Recorded(stock, sys) && SameWorld(sys, next)
    ensures Recorded(stock, next)
  {
    hide Evident, AllEvident;
  }

  lemma DoIsRecorded(stock: Hardware, sys: System, step: Step)
    requires Invariant(stock, sys) && Recorded(stock, sys)
    ensures Recorded(stock, Do(sys, step))
  {
    assert Faithful(stock, sys);
    hide Invariant, Faithful, Recorded, SameWorld;
    if !TouchesTheWorld(step) {
      hide Do;
      OthersLeaveTheWorld(sys, step);
      SameWorldIsRecorded(stock, sys, Do(sys, step));
    } else if MayStep(sys, step) {
      TouchingIsRecorded(stock, sys, step);
    }
  }

  lemma {:induction false} EveryRunIsRecorded(stock: Hardware, sys: System, steps: seq<Step>)
    requires Invariant(stock, sys) && Recorded(stock, sys)
    ensures Recorded(stock, Evolve(sys, steps)) && Invariant(stock, Evolve(sys, steps))
    decreases |steps|
  {
    hide Invariant, Recorded, Do;
    if steps != [] {
      DoIsSafe(stock, sys, steps[0]);
      DoIsRecorded(stock, sys, steps[0]);
      EveryRunIsRecorded(stock, Do(sys, steps[0]), steps[1..]);
    }
  }

  // --- Chains of helpers ---

  // A helper is launched, perhaps after a reboot, runs, and is ended if it has not ended by itself.
  datatype Life = Life(env: Environment, boot: Option<string>, steps: seq<Step>)

  // What one helper leaves to the next; `astray` if any so far has lost evidence.
  datatype Legacy = Legacy(cfg: Config, world: World, astray: bool)

  function NewMachine(world: World): Machine { Machine(world, 0, [], [], [], []) }

  // Temporary settings do not survive a reboot; the recovery file does.
  function Found(stock: Hardware, legacy: Legacy, boot: Option<string>): Legacy {
    if boot.None? then legacy
    else legacy.(cfg := legacy.cfg.(boot := boot.value), world := World(stock, legacy.world.stored))
  }

  function Lived(stock: Hardware, legacy: Legacy, life: Life): System {
    var found := Found(stock, legacy, life.boot);
    Evolve(Launch(life.env, found.cfg, NewMachine(found.world)), life.steps)
  }

  function After(stock: Hardware, legacy: Legacy, life: Life): Legacy {
    var sys := DoCrashing(Lived(stock, legacy, life));
    Legacy(Found(stock, legacy, life.boot).cfg, sys.world, legacy.astray || sys.astray)
  }

  function AfterAll(stock: Hardware, legacy: Legacy, lives: seq<Life>): Legacy
    decreases |lives|
  {
    if lives == [] then legacy else AfterAll(stock, After(stock, legacy, lives[0]), lives[1..])
  }

  lemma FoundIsRecoverable(stock: Hardware, legacy: Legacy, boot: Option<string>)
    requires Evident(legacy.cfg, stock, legacy.world)
    ensures var found := Found(stock, legacy, boot); Recoverable(found.cfg, stock, NewMachine(found.world))
  {
  }

  lemma {:induction false} EvolveKeepsConfig(sys: System, steps: seq<Step>, stock: Hardware)
    requires Invariant(stock, sys)
    ensures Evolve(sys, steps).session.cfg == sys.session.cfg
    decreases |steps|
  {
    hide Invariant, Do;
    if steps != [] {
      DoIsSafe(stock, sys, steps[0]);
      DoKeepsConfig(stock, sys, steps[0]);
      EvolveKeepsConfig(Do(sys, steps[0]), steps[1..], stock);
    }
  }

  lemma DoKeepsConfig(stock: Hardware, sys: System, step: Step)
    requires Invariant(stock, sys)
    ensures Do(sys, step).session.cfg == sys.session.cfg
  {
    assert Faithful(stock, sys);
    hide Invariant;
    if !TouchesTheWorld(step) {
      hide Do, Faithful;
      OthersLeaveTheWorld(sys, step);
    } else {
      hide Concluded, Speaks, Guarded, Trails, Turn, AllAtStock;
    }
  }

  lemma OneLife(stock: Hardware, legacy: Legacy, life: Life)
    requires Evident(legacy.cfg, stock, legacy.world)
    ensures Reached(stock, Lived(stock, legacy, life))
    ensures var after := After(stock, legacy, life); !after.astray ==> Evident(after.cfg, stock, after.world)
  {
    var found := Found(stock, legacy, life.boot);
    var machine := NewMachine(found.world);
    FoundIsRecoverable(stock, legacy, life.boot);
    LaunchIsSafe(stock, life.env, found.cfg, machine);
    LaunchIsRecorded(stock, life.env, found.cfg, machine);
    EveryRunIsRecorded(stock, Launch(life.env, found.cfg, machine), life.steps);
    EvolveKeepsConfig(Launch(life.env, found.cfg, machine), life.steps, stock);
    CrashingIsRecorded(stock, Lived(stock, legacy, life));
    hide Invariant, Evident, Recoverable, Launch, Evolve;
  }

  // Each helper in a chain of any length finds a recoverable world, as long as none before it has lost evidence.
  lemma {:induction false} EveryHelperFindsEvidence(stock: Hardware, legacy: Legacy, lives: seq<Life>)
    requires legacy.astray || Evident(legacy.cfg, stock, legacy.world)
    ensures var end := AfterAll(stock, legacy, lives); end.astray || Evident(end.cfg, stock, end.world)
    ensures legacy.astray ==> AfterAll(stock, legacy, lives).astray
    decreases |lives|
  {
    if lives != [] {
      if !legacy.astray {
        OneLife(stock, legacy, lives[0]);
      }
      hide After, Evident;
      EveryHelperFindsEvidence(stock, After(stock, legacy, lives[0]), lives[1..]);
    }
  }

  // So what is said to the user is true of every helper in the chain.
  lemma EveryHelperTellsTheTruth(stock: Hardware, legacy: Legacy, lives: seq<Life>, life: Life)
    requires Evident(legacy.cfg, stock, legacy.world) && !legacy.astray && !AfterAll(stock, legacy, lives).astray
    requires var sys := Lived(stock, AfterAll(stock, legacy, lives), life);
             && sys.admitted
             && (SaysClosed(sys.client) || (sys.op.Resting? && PlanRevert(sys.client).Nothing?)
                 || sys.helper == Gone(true))
    ensures Lived(stock, AfterAll(stock, legacy, lives), life).world.hardware == stock
  {
    EveryHelperFindsEvidence(stock, legacy, lives);
    OneLife(stock, AfterAll(stock, legacy, lives), life);
    var sys := Lived(stock, AfterAll(stock, legacy, lives), life);
    hide Lived, AfterAll, Reached, Evident;
    SessionClosedIsTrue(stock, sys);
    RevertIsTrue(stock, sys);
    if sys.helper == Gone(true) {
      CloseIsTrue(stock, sys);
    }
  }
}
