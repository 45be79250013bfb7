/** The stages of the block synchronisation service (sync/src/sync.rs) as a state machine over its
    first-in first-out mailbox and the futures it spawns. */
module SyncStage {
  import opened Basics

  datatype Stage = NotStart | Checking | Synchronizing(task: nat, begin: Option<nat>) | Canceling | Done

  /** The status other services see. */
  datatype Status = Prepare | Syncing | Synced

  // ---------- the handlers ----------

  /** A check starts a future only from NotStart or Done. In every other stage but Synchronizing it
      leaves Checking behind, even in Canceling. */
  function StageAfterCheck(stage: Stage): Stage {
    if stage.Synchronizing? then stage else Checking
  }

  predicate CheckStarts(stage: Stage) {
    stage.NotStart? || stage.Done?
  }

  function StageAfterCancel(stage: Stage): Stage {
    if stage.Synchronizing? then Canceling else stage
  }

  function StageAfterBegin(stage: Stage, task: nat): Stage {
    match stage
    case Synchronizing(_, _) => stage
    case Canceling => stage
    case _ => Synchronizing(task, None)
  }

  /** `ahead`: the target has more total difficulty than the local chain. */
  function StatusAfterBegin(stage: Stage, status: Status, ahead: bool): Status {
    if stage.Checking? && ahead then Syncing else status
  }

  predicate BeginCancels(stage: Stage, ahead: bool) {
    match stage
    case Checking => !ahead
    case Synchronizing(_, _) => true
    case Canceling => true
    case _ => false
  }

  function StatusAfterDone(stage: Stage, status: Status): Status {
    if stage.Synchronizing? || stage.Canceling? then Synced else status
  }

  /** Stages in which the source warns that it did not expect the event. */
  predicate BeginUnexpected(stage: Stage) {
    stage.NotStart? || stage.Done? || stage.Synchronizing?
  }

  predicate DoneUnexpected(stage: Stage) {
    stage.NotStart? || stage.Done?
  }

  class SyncService {
    var stage: Stage
    var status: Status

    constructor ()
      ensures stage == NotStart && status == Prepare
    {
      stage, status := NotStart, Prepare;
    }

    /** Replaces the stage by Checking, then looks at the old one. `spawns` if it goes on to start a
        sync future; looking up the services it needs may still fail after that. */
    method CheckAndStartSync() returns (spawns: bool)
      modifies `stage
      ensures stage == StageAfterCheck(old(stage)) && spawns == CheckStarts(old(stage))
    {
      var previous := stage;
      stage := Checking;
      match previous {
        case NotStart => spawns := true;
        case Done => spawns := true;
        case Checking => spawns := false;
        case Synchronizing(task, begin) =>
          stage := Synchronizing(task, begin);
          spawns := false;
        case Canceling => spawns := false;
      }
    }

    method CancelTask() returns (canceled: Option<nat>)
      modifies `stage
      ensures stage == StageAfterCancel(old(stage))
      ensures canceled == if old(stage).Synchronizing? then Some(old(stage).task) else None
    {
      var previous := stage;
      stage := Canceling;
      if previous.Synchronizing? {
        canceled := Some(previous.task);
      } else {
        stage := previous;
        canceled := None;
      }
    }

    method OnBegin(task: nat, ahead: bool) returns (cancels: bool)
      modifies this
      ensures stage == StageAfterBegin(old(stage), task)
      ensures status == StatusAfterBegin(old(stage), old(status), ahead)
      ensures cancels == BeginCancels(old(stage), ahead)
    {
      var previous := stage;
      stage := Synchronizing(task, None);
      cancels := false;
      match previous {
        case NotStart =>
        case Done =>
        case Checking =>
          if ahead {
            status := Syncing;
          } else {
            cancels := true;
          }
        case Synchronizing(_, _) =>
          stage := previous;
          cancels := true;
        case Canceling =>
          stage := Canceling;
          cancels := true;
      }
    }

    method OnDone() returns (checksAgain: bool)
      modifies this
      ensures stage == Done && status == StatusAfterDone(old(stage), old(status))
      ensures checksAgain <==> old(stage).Synchronizing?
    {
      var previous := stage;
      stage := Done;
      checksAgain := false;
      match previous {
        case NotStart =>
        case Done =>
        case Checking =>
        case Synchronizing(_, _) =>
          status := Synced;
          checksAgain := true;
        case Canceling =>
          status := Synced;
      }
    }

    method OnAncestor(number: nat)
      modifies `stage
      ensures stage == if old(stage).Synchronizing? then old(stage).(begin := Some(number)) else old(stage)
    {
      if stage.Synchronizing? {
        stage := stage.(begin := Some(number));
      }
    }
  }

  // ---------- the whole system ----------

  datatype Event =
    | Begin(future: nat, ahead: bool)
    | Finish(future: nat)
    | Check
    | Start(force: bool)
    | Cancel
    | PeerOpened
    | Started
    | Ancestor(number: nat)

  /** How far a spawned future is: it may send one begin event, and ends by sending its done event,
      which may be lost. */
  datatype Phase = Fresh | Begun | Finished | Lost

  datatype Future = Future(id: nat, phase: Phase)

  /** `live`: the spawned futures whose done event has not been handled; `canceled`: the futures whose task was told to
      stop. */
  datatype World = World(
    stage: Stage, status: Status, mailbox: seq<Event>, live: seq<Future>, nextId: nat, canceled: set<nat>)

  datatype Action =
    | Post(event: Event)            // another service or the user
    | FutureBegins(i: nat, ahead: bool)
    | FutureEnds(i: nat, delivered: bool)
    | Handle(services: bool)        // the first mail; `services` can be looked up

  const INIT := World(NotStart, Prepare, [], [], 0, {})

  predicate OwnEvent(e: Event) {
    e.Begin? || e.Finish?
  }

  function Sent(w: World, e: Event): World {
    w.(mailbox := w.mailbox + [e])
  }

  function WithPhase(w: World, i: nat, phase: Phase): World
    requires i < |w.live|
  {
    w.(live := w.live[i := w.live[i].(phase := phase)])
  }

  function Without(live: seq<Future>, id: nat): seq<Future> {
    if live == [] then []
    else if live[0].id == id then live[1..]
    else [live[0]] + Without(live[1..], id)
  }

  /** The sync a cancellation stops, if a sync is running. */
  function CanceledTask(stage: Stage): set<nat> {
    if stage.Synchronizing? then {stage.task} else {}
  }

  function WithCancel(w: World): World {
    w.(stage := StageAfterCancel(w.stage), canceled := w.canceled + CanceledTask(w.stage))
  }

  /** Handling `e`, which was taken from the mailbox. */
  function Handled(w: World, e: Event, services: bool): World {
    match e
    case Begin(f, ahead) =>
      w.(stage := StageAfterBegin(w.stage, f), status := StatusAfterBegin(w.stage, w.status, ahead),
         canceled := if BeginCancels(w.stage, ahead) then w.canceled + {f} else w.canceled)
    case Finish(f) =>
      var w' := w.(stage := Done, status := StatusAfterDone(w.stage, w.status), live := Without(w.live, f));
      if w.stage.Synchronizing? then Sent(w', Check) else w'
    case Check =>
      var w' := w.(stage := StageAfterCheck(w.stage));
      if CheckStarts(w.stage) && services
      then w'.(live := w.live + [Future(w.nextId, Fresh)], nextId := w.nextId + 1) else w'
    case Start(force) =>
      Sent(if force then WithCancel(w) else w, Check)
    case Cancel => WithCancel(w)
    case PeerOpened => if w.status.Prepare? then w else Sent(w, Check)
    case Started => Sent(w.(status := Synced), Check)
    case Ancestor(n) => if w.stage.Synchronizing? then w.(stage := w.stage.(begin := Some(n))) else w
  }

  function Next(w: World, a: Action): World {
    match a
    case Post(e) => if OwnEvent(e) then w else Sent(w, e)
    case FutureBegins(i, ahead) =>
      if i < |w.live| && w.live[i].phase.Fresh? then Sent(WithPhase(w, i, Begun), Begin(w.live[i].id, ahead)) else w
    case FutureEnds(i, delivered) =>
      if i >= |w.live| || w.live[i].phase.Finished? || w.live[i].phase.Lost? then w
      else if delivered then Sent(WithPhase(w, i, Finished), Finish(w.live[i].id))
      else WithPhase(w, i, Lost)
    case Handle(services) =>
      if w.mailbox == [] then w else Handled(w.(mailbox := w.mailbox[1..]), w.mailbox[0], services)
  }

  function After(run: seq<Action>): World {
    if run == [] then INIT else Next(After(run[..|run| - 1]), run[|run| - 1])
  }

  /** The world `rest` leads to from `w`. */
  function From(w: World, rest: seq<Action>): World {
    if rest == [] then w else Next(From(w, rest[..|rest| - 1]), rest[|rest| - 1])
  }

  lemma {:induction false} AfterIsFrom(run: seq<Action>, rest: seq<Action>)
    ensures After(run + rest) == From(After(run), rest)
  {
    if rest == [] {
      assert run + rest == run;
    } else {
      var all, init := run + rest, rest[..|rest| - 1];
      assert all[..|all| - 1] == run + init;
      AfterIsFrom(run, init);
    }
  }

  // ---------- at most one future ----------

  /** The begin and done events in the mailbox, in order. */
  function Own(mailbox: seq<Event>): seq<Event> {
    if mailbox == [] then []
    else (if OwnEvent(mailbox[0]) then [mailbox[0]] else []) + Own(mailbox[1..])
  }

  lemma {:induction false} OwnOfSent(mailbox: seq<Event>, e: Event)
    ensures Own(mailbox + [e]) == Own(mailbox) + if OwnEvent(e) then [e] else []
  {
    if mailbox == [] {
      assert Own([e]) == (if OwnEvent(e) then [e] else []) + Own([e][1..]);
    } else {
      var rest := mailbox[1..];
      assert (mailbox + [e])[1..] == rest + [e];
      OwnOfSent(rest, e);
      var first, last := if OwnEvent(mailbox[0]) then [mailbox[0]] else [], if OwnEvent(e) then [e] else [];
      assert first + (Own(rest) + last) == first + Own(rest) + last;
    }
  }

  /** The future has reached the stage: its begin event, if any, has been handled. */
  predicate Active(stage: Stage) {
    stage.Checking? || stage.Synchronizing? || stage.Canceling?
  }

  ghost predicate BeginWaits(w: World, f: nat, rest: seq<Event>) {
    && w.stage == Checking
    && |Own(w.mailbox)| == 1 + |rest| && Own(w.mailbox)[0].Begin? && Own(w.mailbox)[0].future == f
    && Own(w.mailbox)[1..] == rest
  }

  ghost predicate Inv(w: World) {
    if w.live == [] then Own(w.mailbox) == [] && (w.stage.NotStart? || w.stage.Done? || w.stage.Checking?)
    else
      && |w.live| == 1
      && var Future(f, phase) := w.live[0];
         match phase
         case Fresh => Own(w.mailbox) == [] && w.stage == Checking
         case Begun => BeginWaits(w, f, []) || (Own(w.mailbox) == [] && Active(w.stage))
         case Lost => BeginWaits(w, f, []) || (Own(w.mailbox) == [] && Active(w.stage))
         case Finished => BeginWaits(w, f, [Finish(f)]) || (Own(w.mailbox) == [Finish(f)] && Active(w.stage))
  }

  lemma SentKeeps(w: World, e: Event)
    requires Inv(w) && !OwnEvent(e)
    ensures Inv(Sent(w, e))
  {
    OwnOfSent(w.mailbox, e);
  }

  lemma BeginsKeeps(w: World, i: nat, ahead: bool)
    requires Inv(w) && i < |w.live| && w.live[i].phase.Fresh?
    ensures Inv(Next(w, FutureBegins(i, ahead)))
  {
    var f := w.live[0].id;
    var w' := Next(w, FutureBegins(i, ahead));
    OwnOfSent(w.mailbox, Begin(f, ahead));
    assert w'.live == [Future(f, Begun)] && Own(w'.mailbox) == [Begin(f, ahead)];
    assert BeginWaits(w', f, []);
  }

  lemma DeliversKeeps(w: World, i: nat)
    requires Inv(w) && i < |w.live| && (w.live[i].phase.Fresh? || w.live[i].phase.Begun?)
    ensures Inv(Next(w, FutureEnds(i, true)))
  {
    var f := w.live[0].id;
    var w' := Next(w, FutureEnds(i, true));
    OwnOfSent(w.mailbox, Finish(f));
    assert w'.live == [Future(f, Finished)] && Own(w'.mailbox) == Own(w.mailbox) + [Finish(f)];
    if w.live[0].phase.Begun? && BeginWaits(w, f, []) {
      assert BeginWaits(w', f, [Finish(f)]);
    }
  }

  lemma LosesKeeps(w: World, i: nat)
    requires Inv(w) && i < |w.live| && (w.live[i].phase.Fresh? || w.live[i].phase.Begun?)
    ensures Inv(Next(w, FutureEnds(i, false)))
  {
    var w' := Next(w, FutureEnds(i, false));
    assert w'.live == [Future(w.live[0].id, Lost)];
    if w.live[0].phase.Begun? && BeginWaits(w, w.live[0].id, []) {
      assert BeginWaits(w', w.live[0].id, []);
    }
  }

  lemma FutureKeeps(w: World, a: Action)
    requires Inv(w) && (a.FutureBegins? || a.FutureEnds?)
    ensures Inv(Next(w, a))
  {
    if a.i < |w.live| {
      var phase := w.live[a.i].phase;
      if a.FutureBegins? && phase.Fresh? {
        BeginsKeeps(w, a.i, a.ahead);
      } else if a.FutureEnds? && (phase.Fresh? || phase.Begun?) {
        if a.delivered { DeliversKeeps(w, a.i); } else { LosesKeeps(w, a.i); }
      }
    }
  }

  /** The mailbox without its first mail. */
  function Popped(w: World): World
    requires w.mailbox != []
  {
    w.(mailbox := w.mailbox[1..])
  }

  lemma CheckKeeps(w: World, services: bool)
    requires Inv(w)
    ensures Inv(Handled(w, Check, services))
  {
  }

  lemma CancelKeeps(w: World)
    requires Inv(w)
    ensures Inv(WithCancel(w))
  {
  }

  lemma HandleOtherKeeps(w: World, services: bool)
    requires Inv(w) && w.mailbox != [] && !OwnEvent(w.mailbox[0])
    ensures Inv(Handled(Popped(w), w.mailbox[0], services))
  {
    var w0 := Popped(w);
    assert Inv(w0) by { assert Own(w.mailbox) == Own(w.mailbox[1..]); }
    match w.mailbox[0]
    case Check => CheckKeeps(w0, services);
    case Start(force) =>
      CancelKeeps(w0);
      SentKeeps(if force then WithCancel(w0) else w0, Check);
    case Cancel => CancelKeeps(w0);
    case PeerOpened => SentKeeps(w0, Check);
    case Started => SentKeeps(w0.(status := Synced), Check);
    case Ancestor(_) =>
  }

  /** A begin event meets Checking, and a done event meets a stage that expects it. */
  lemma OwnEventsAreExpected(w: World)
    requires Inv(w) && w.mailbox != []
    ensures w.mailbox[0].Begin? ==> w.stage == Checking
    ensures w.mailbox[0].Finish? ==> Active(w.stage) && w.live == [Future(w.mailbox[0].future, Finished)]
  {
    if OwnEvent(w.mailbox[0]) {
      assert Own(w.mailbox)[0] == w.mailbox[0] && Own(w.mailbox)[1..] == Own(w.mailbox[1..]);
      var future := w.live[0];
      assert w.live == [future];
      if w.mailbox[0].Finish? {
        assert future.phase.Finished? && Own(w.mailbox) == [Finish(future.id)];
        assert future == Future(w.mailbox[0].future, Finished);
      }
    }
  }

  lemma HandleOwnKeeps(w: World, services: bool)
    requires Inv(w) && w.mailbox != [] && OwnEvent(w.mailbox[0])
    ensures Inv(Handled(Popped(w), w.mailbox[0], services))
  {
    OwnEventsAreExpected(w);
    assert Own(w.mailbox)[0] == w.mailbox[0] && Own(w.mailbox)[1..] == Own(w.mailbox[1..]);
    OwnOfSent(w.mailbox[1..], Check);
    if w.mailbox[0].Finish? {
      assert Without(w.live, w.mailbox[0].future) == [];
    }
  }

  lemma NextKeeps(w: World, a: Action)
    requires Inv(w)
    ensures Inv(Next(w, a))
  {
    match a
    case Post(e) => if !OwnEvent(e) { SentKeeps(w, e); }
    case FutureBegins(_, _) => FutureKeeps(w, a);
    case FutureEnds(_, _) => FutureKeeps(w, a);
    case Handle(services) =>
      if w.mailbox != [] {
        if OwnEvent(w.mailbox[0]) { HandleOwnKeeps(w, services); } else { HandleOtherKeeps(w, services); }
      }
  }

  lemma {:induction false} RunKeeps(run: seq<Action>)
    ensures Inv(After(run))
  {
    if run != [] {
      RunKeeps(run[..|run| - 1]);
      NextKeeps(After(run[..|run| - 1]), run[|run| - 1]);
    }
  }

  /** In every run at most one spawned future has its done event unhandled, a begin event is always
      handled in Checking, and no begin or done event meets a stage that does not expect it. */
  lemma AtMostOneSync(run: seq<Action>)
    ensures var w := After(run);
      && |w.live| <= 1
      && (w.mailbox != [] && w.mailbox[0].Begin? ==> w.stage == Checking && !BeginUnexpected(w.stage))
      && (w.mailbox != [] && w.mailbox[0].Finish? ==> !DoneUnexpected(w.stage))
  {
    RunKeeps(run);
    if After(run).mailbox != [] {
      OwnEventsAreExpected(After(run));
    }
  }

  // ---------- which tasks are canceled ----------

  /** The step tells the sync of future `f` to stop: its begin event reports a target that is not ahead, or a
      cancellation is handled while it is running. */
  predicate Cancels(w: World, a: Action, f: nat) {
    && a.Handle? && w.mailbox != []
    && (w.mailbox[0] == Begin(f, false) ||
        ((w.mailbox[0] == Cancel || w.mailbox[0] == Start(true)) && w.stage.Synchronizing? && w.stage.task == f))
  }

  lemma CancelsStep(w: World, a: Action, f: nat)
    requires Inv(w)
    ensures f in Next(w, a).canceled <==> f in w.canceled || Cancels(w, a, f)
  {
    if w.mailbox != [] {
      OwnEventsAreExpected(w);
    }
  }

  ghost predicate SomeCancels(run: seq<Action>, f: nat) {
    run != [] && (SomeCancels(run[..|run| - 1], f) || Cancels(After(run[..|run| - 1]), run[|run| - 1], f))
  }

  /** In every run exactly those syncs are canceled whose begin event told of a target that was not ahead, or that were
      running when a cancellation was handled. */
  lemma {:induction false} CanceledIff(run: seq<Action>, f: nat)
    ensures f in After(run).canceled <==> SomeCancels(run, f)
  {
    if run != [] {
      CanceledIff(run[..|run| - 1], f);
      RunKeeps(run[..|run| - 1]);
      CancelsStep(After(run[..|run| - 1]), run[|run| - 1], f);
    }
  }

  /** Handling a mail asks for another check if it is a start request, the start of the node, a new peer once the node
      is started, or the done event of a sync that was not being canceled. */
  lemma ChecksAgainIff(w: World, e: Event, services: bool)
    ensures Handled(w, e, services).mailbox == w.mailbox +
      if e.Start? || e.Started? || (e.PeerOpened? && !w.status.Prepare?) || (e.Finish? && w.stage.Synchronizing?)
      then [Check] else []
  {
    assert w.mailbox + [] == w.mailbox;
  }

  // ---------- what is reported ----------

  /** The status a step reports, if it reports one: syncing when a begin event tells of a target that is ahead, synced
      when the node starts and when a sync that had begun is done. */
  function Reports(w: World, a: Action): Option<Status> {
    if !a.Handle? || w.mailbox == [] then None
    else
      match w.mailbox[0]
      case Begin(_, ahead) => if ahead then Some(Syncing) else None
      case Finish(_) => if w.stage.Checking? then None else Some(Synced)
      case Started => Some(Synced)
      case _ => None
  }

  function LastReport(run: seq<Action>): Status {
    if run == [] then Prepare
    else
      var report := Reports(After(run[..|run| - 1]), run[|run| - 1]);
      if report.Some? then report.value else LastReport(run[..|run| - 1])
  }

  /** In every run the status is the last one reported. */
  lemma {:induction false} StatusIsLastReport(run: seq<Action>)
    ensures After(run).status == LastReport(run)
  {
    if run != [] {
      var w := After(run[..|run| - 1]);
      StatusIsLastReport(run[..|run| - 1]);
      RunKeeps(run[..|run| - 1]);
      if w.mailbox != [] {
        OwnEventsAreExpected(w);
      }
    }
  }

  /** The ancestor last reported since the sync began. */
  function LastAncestor(run: seq<Action>): Option<nat> {
    if run == [] then None
    else
      var w, a := After(run[..|run| - 1]), run[|run| - 1];
      if a.Handle? && w.mailbox != [] && w.mailbox[0].Begin? then None
      else if a.Handle? && w.mailbox != [] && w.mailbox[0].Ancestor? && w.stage.Synchronizing? then Some(w.mailbox[0].number)
      else LastAncestor(run[..|run| - 1])
  }

  /** While a sync is running, the ancestor recorded for it is the last one reported since it began. */
  lemma {:induction false} AncestorIsLastReported(run: seq<Action>)
    ensures After(run).stage.Synchronizing? ==> After(run).stage.begin == LastAncestor(run)
  {
    if run != [] {
      var w := After(run[..|run| - 1]);
      AncestorIsLastReported(run[..|run| - 1]);
      RunKeeps(run[..|run| - 1]);
      if w.mailbox != [] {
        OwnEventsAreExpected(w);
      }
    }
  }

  // ---------- the status after a sync ----------

  /** The status says syncing only while a sync is under way. */
  predicate StatusIsCurrent(w: World) {
    w.status.Syncing? ==> w.stage.Synchronizing? || w.stage.Canceling?
  }

  /** The step handles a check while a sync is being canceled. */
  predicate ChecksWhileCanceling(w: World, a: Action) {
    a.Handle? && w.mailbox != [] && w.mailbox[0].Check? && w.stage.Canceling? && w.status.Syncing?
  }

  /** The status stays current in a step exactly when the step is not such a check. */
  lemma StatusStaysCurrentIff(w: World, a: Action)
    requires StatusIsCurrent(w)
    ensures StatusIsCurrent(Next(w, a)) <==> !ChecksWhileCanceling(w, a)
  {
  }

  /** The status was current at every moment of the run. */
  ghost predicate AlwaysCurrent(run: seq<Action>) {
    StatusIsCurrent(After(run)) && (run != [] ==> AlwaysCurrent(run[..|run| - 1]))
  }

  ghost predicate NeverChecksWhileCanceling(run: seq<Action>) {
    run != [] ==>
      && NeverChecksWhileCanceling(run[..|run| - 1])
      && !ChecksWhileCanceling(After(run[..|run| - 1]), run[|run| - 1])
  }

  /** Over a whole run the status is current at every moment if and only if the run never handles a
      check while canceling. */
  lemma {:induction false} AlwaysCurrentIff(run: seq<Action>)
    ensures AlwaysCurrent(run) <==> NeverChecksWhileCanceling(run)
  {
    if run != [] {
      var init, a := run[..|run| - 1], run[|run| - 1];
      AlwaysCurrentIff(init);
      if StatusIsCurrent(After(init)) {
        StatusStaysCurrentIff(After(init), a);
      }
    }
  }

  // ---------- forced restarts ----------

  function Handles(rest: seq<Action>): nat {
    if rest == [] then 0 else Handles(rest[..|rest| - 1]) + if rest[|rest| - 1].Handle? then 1 else 0
  }

  /** Whenever a mail of `rest` is handled, the services can be looked up. */
  predicate Serviced(rest: seq<Action>) {
    forall k :: 0 <= k < |rest| && rest[k].Handle? ==> rest[k].services
  }

  /** The check of the restart is mail `r`, counted from 1, and no future has been spawned since. */
  predicate CheckIsMail(w: World, r: nat, n: nat) {
    0 < r <= |w.mailbox| && w.mailbox[r - 1].Check? && w.nextId == n
  }

  /** No sync can start, and no done event that could change that comes before the check. */
  predicate Waits(w: World, r: nat, n: nat) {
    CheckIsMail(w, r, n) && Active(w.stage) && forall k :: 0 <= k < r ==> !w.mailbox[k].Finish?
  }

  /** The old future is done, and its done event comes before the check. */
  ghost predicate DoneComes(w: World, r: nat, n: nat) {
    && CheckIsMail(w, r, n) && Active(w.stage)
    && exists k :: 0 <= k < r - 1 && w.mailbox[k].Finish?
  }

  predicate ReadyToStart(w: World, r: nat, n: nat) {
    CheckIsMail(w, r, n) && CheckStarts(w.stage)
  }

  lemma OnlyHandlingSpawns(w: World, a: Action)
    ensures Next(w, a).nextId >= w.nextId
    ensures !a.Handle? ==> Next(w, a).nextId == w.nextId
  {
  }

  lemma WaitsStep(w: World, a: Action, r: nat, n: nat)
    requires Waits(w, r, n)
    ensures Next(w, a).nextId == n
    ensures !a.Handle? ==> Waits(Next(w, a), r, n)
    ensures a.Handle? && r > 1 ==> Waits(Next(w, a), r - 1, n)
  {
    if a.Handle? {
      assert !w.mailbox[0].Finish?;
    }
  }

  lemma DoneComesStep(w: World, a: Action, r: nat, n: nat)
    requires Inv(w) && DoneComes(w, r, n)
    ensures r > 1 && Next(w, a).nextId == n
    ensures !a.Handle? ==> DoneComes(Next(w, a), r, n)
    ensures a.Handle? ==> DoneComes(Next(w, a), r - 1, n) || ReadyToStart(Next(w, a), r - 1, n)
  {
    var w' := Next(w, a);
    var k :| 0 <= k < r - 1 && w.mailbox[k].Finish?;
    if !a.Handle? {
      assert w'.mailbox[k].Finish?;
    } else if !w.mailbox[0].Finish? {
      assert w'.mailbox[k - 1].Finish?;
    }
  }

  lemma ReadyStep(w: World, a: Action, r: nat, n: nat)
    requires Inv(w) && ReadyToStart(w, r, n) && (a.Handle? ==> a.services)
    ensures !a.Handle? ==> ReadyToStart(Next(w, a), r, n)
    ensures a.Handle? ==> Next(w, a).nextId > n || (r > 1 && ReadyToStart(Next(w, a), r - 1, n))
  {
    OwnEventsAreExpected(w);
  }

  function Left(left: int, a: Action): int {
    if a.Handle? then left - 1 else left
  }

  /** With `left` mails to go until the check is handled, no future has been spawned, nor will one be. */
  predicate InVain(w: World, left: int, n: nat) {
    w.nextId == n && (left > 0 ==> Waits(w, left, n))
  }

  lemma InVainStep(w: World, a: Action, left: int, n: nat)
    requires Inv(w) && InVain(w, left, n) && (a.Handle? ==> left > 0)
    ensures InVain(Next(w, a), Left(left, a), n)
  {
    OnlyHandlingSpawns(w, a);
    if left > 0 {
      WaitsStep(w, a, left, n);
    }
  }

  lemma {:induction false} WaitsInVain(w: World, rest: seq<Action>, r: nat, n: nat)
    requires Inv(w) && InVain(w, r, n) && Handles(rest) <= r
    ensures Inv(From(w, rest)) && InVain(From(w, rest), r - Handles(rest), n)
  {
    if rest != [] {
      var init, a := rest[..|rest| - 1], rest[|rest| - 1];
      WaitsInVain(w, init, r, n);
      NextKeeps(From(w, init), a);
      InVainStep(From(w, init), a, r - Handles(init), n);
    }
  }

  /** With `left` mails to go until the check is handled, a future has been spawned or will be. */
  ghost predicate UnderWay(w: World, left: int, n: nat) {
    w.nextId > n || (left > 0 && (DoneComes(w, left, n) || ReadyToStart(w, left, n)))
  }

  lemma UnderWayStep(w: World, a: Action, left: int, n: nat)
    requires Inv(w) && UnderWay(w, left, n) && (a.Handle? ==> a.services)
    ensures UnderWay(Next(w, a), Left(left, a), n)
  {
    OnlyHandlingSpawns(w, a);
    if w.nextId <= n {
      if DoneComes(w, left, n) { DoneComesStep(w, a, left, n); } else { ReadyStep(w, a, left, n); }
    }
  }

  lemma {:induction false} StartsAgain(w: World, rest: seq<Action>, r: nat, n: nat)
    requires Inv(w) && UnderWay(w, r, n) && Serviced(rest)
    ensures Inv(From(w, rest)) && UnderWay(From(w, rest), r - Handles(rest), n)
  {
    if rest != [] {
      var init, a := rest[..|rest| - 1], rest[|rest| - 1];
      StartsAgain(w, init, r, n);
      NextKeeps(From(w, init), a);
      UnderWayStep(From(w, init), a, r - Handles(init), n);
    }
  }

  /** When a forced restart is handled, in whatever stage, a new sync is spawned by the time the check of the
      restart has been handled, whatever else happens, if and only if no sync was under way, or the done event
      of the one that was had been in the mailbox before the restart. */
  lemma ForcedRestartIff(run: seq<Action>, services: bool, rest: seq<Action>)
    requires After(run).mailbox != [] && After(run).mailbox[0] == Start(true)
    requires Handles(rest) == |After(run).mailbox| && Serviced(rest)
    ensures After(run + [Handle(services)] + rest).nextId > After(run).nextId
       <==> CheckStarts(After(run).stage) || exists k :: 0 <= k < |After(run).mailbox| && After(run).mailbox[k].Finish?
  {
    var w, start := After(run), run + [Handle(services)];
    assert start[..|start| - 1] == run;
    RunKeeps(start);
    AfterIsFrom(start, rest);
    var w' := After(start);
    assert w'.mailbox == w.mailbox[1..] + [Check] && w'.stage == StageAfterCancel(w.stage) && w'.nextId == w.nextId;
    if CheckStarts(w.stage) {
      StartsAgain(w', rest, |w.mailbox|, w.nextId);
    } else if k :| 0 <= k < |w.mailbox| && w.mailbox[k].Finish? {
      assert w'.mailbox[k - 1].Finish?;
      StartsAgain(w', rest, |w.mailbox|, w.nextId);
    } else {
      WaitsInVain(w', rest, |w.mailbox|, w.nextId);
    }
  }

  /** A forced restart during a sync takes that path: the restart is dropped, and once the old future
      has ended nothing runs, nothing is scheduled and the status still says syncing. */
  lemma ForcedRestartIsLost(w: World, f: nat)
    requires w.stage.Synchronizing? && w.status == Syncing && w.mailbox == [Start(true)]
    requires w.live == [Future(f, Begun)]
    ensures var w1 := Next(w, Handle(true));
      var w2 := Next(w1, Handle(true));
      var w3 := Next(w2, FutureEnds(0, true));
      var w4 := Next(w3, Handle(true));
      w4.stage == Done && w4.status == Syncing && w4.mailbox == [] && w4.live == []
  {
    var w1 := Next(w, Handle(true));
    assert w1.mailbox == [Check] && w1.stage == Canceling;
    var w2 := Next(w1, Handle(true));
    assert w2.mailbox == [] && w2.stage == Checking;
    var w3 := Next(w2, FutureEnds(0, true));
    assert w3.mailbox == [Finish(f)] && w3.live == [Future(f, Finished)];
  }

  /** Such a moment is reached: start, check, begin, then a forced restart is requested. */
  lemma ForcedRestartIsReachable()
    ensures var w := After([Post(Check), Handle(true), FutureBegins(0, true), Handle(true), Post(Start(true))]);
      w.stage.Synchronizing? && w.status == Syncing && w.mailbox == [Start(true)] && w.live == [Future(0, Begun)]
  {
    var run := [Post(Check), Handle(true), FutureBegins(0, true), Handle(true), Post(Start(true))];
    assert run[..4][..3] == run[..3] && run[..3][..2] == run[..2] && run[..2][..1] == run[..1] && run[..1][..0] == [];
    assert After(run[..1]) == World(NotStart, Prepare, [Check], [], 0, {});
    assert After(run[..2]) == World(Checking, Prepare, [], [Future(0, Fresh)], 1, {});
    assert After(run[..3]) == World(Checking, Prepare, [Begin(0, true)], [Future(0, Begun)], 1, {});
    assert After(run[..4]) == World(Synchronizing(0, None), Syncing, [], [Future(0, Begun)], 1, {});
  }

  /** A forced restart before the begin event is lost as well: it cancels nothing, and its check starts
      nothing. */
  lemma EarlyRestartIsLost()
    ensures var run := [Post(Check), Handle(true), Post(Start(true)), Handle(true), Handle(true)];
      After(run) == World(Checking, Prepare, [], [Future(0, Fresh)], 1, {})
  {
    var run := [Post(Check), Handle(true), Post(Start(true)), Handle(true), Handle(true)];
    assert run[..4][..3] == run[..3] && run[..3][..2] == run[..2] && run[..2][..1] == run[..1] && run[..1][..0] == [];
    assert After(run[..1]) == World(NotStart, Prepare, [Check], [], 0, {});
    assert After(run[..2]) == World(Checking, Prepare, [], [Future(0, Fresh)], 1, {});
    assert After(run[..3]) == World(Checking, Prepare, [Start(true)], [Future(0, Fresh)], 1, {});
    assert After(run[..4]) == World(Checking, Prepare, [Check], [Future(0, Fresh)], 1, {});
  }

  // ---------- services that are stuck ----------

  /** A sync is supposed to be under way, but no future is left that could still report it done. */
  predicate Stuck(w: World) {
    !w.stage.NotStart? && !w.stage.Done? && forall f :: f in w.live ==> f.phase.Lost?
  }

  /** The step handles a check that could start but fails to look up the services it needs. */
  predicate CheckFails(w: World, a: Action) {
    a == Handle(false) && w.mailbox != [] && w.mailbox[0].Check? && CheckStarts(w.stage)
  }

  /** The step ends a future whose done event is lost. */
  predicate DoneIsLost(w: World, a: Action) {
    a.FutureEnds? && !a.delivered && a.i < |w.live| && (w.live[a.i].phase.Fresh? || w.live[a.i].phase.Begun?)
  }

  lemma StuckStep(w: World, a: Action)
    requires Inv(w)
    ensures Stuck(Next(w, a)) <==> Stuck(w) || CheckFails(w, a) || DoneIsLost(w, a)
    ensures Stuck(w) ==> Next(w, a).nextId == w.nextId
  {
    var w' := Next(w, a);
    if a.Handle? && w.mailbox != [] {
      HandleStuckStep(w, a);
    } else if w.live != [] {
      assert w.live[0] in w.live && |w'.live| == 1 && w'.live[0] in w'.live;
    }
  }

  lemma HandleStuckStep(w: World, a: Action)
    requires Inv(w) && a.Handle? && w.mailbox != []
    ensures Stuck(Next(w, a)) <==> Stuck(w) || CheckFails(w, a)
    ensures Stuck(w) ==> Next(w, a).nextId == w.nextId
  {
    OwnEventsAreExpected(w);
    if OwnEvent(w.mailbox[0]) {
      assert Own(w.mailbox)[0] == w.mailbox[0];
    }
    if w.live != [] {
      assert w.live == [w.live[0]] && w.live[0] in w.live;
    }
    if CheckStarts(w.stage) {
      assert w.live == [];
      var spawned := Future(w.nextId, Fresh);
      assert Next(w, a).live == [spawned] ==> spawned in Next(w, a).live;
    }
  }

  ghost predicate SomeCheckFailed(run: seq<Action>) {
    run != [] && (SomeCheckFailed(run[..|run| - 1]) || CheckFails(After(run[..|run| - 1]), run[|run| - 1]))
  }

  ghost predicate SomeDoneLost(run: seq<Action>) {
    run != [] && (SomeDoneLost(run[..|run| - 1]) || DoneIsLost(After(run[..|run| - 1]), run[|run| - 1]))
  }

  /** The service is stuck exactly in the runs in which some check failed that way or some done event was
      lost. */
  lemma {:induction false} StuckIff(run: seq<Action>)
    ensures Stuck(After(run)) <==> SomeCheckFailed(run) || SomeDoneLost(run)
  {
    if run != [] {
      var init := run[..|run| - 1];
      StuckIff(init);
      RunKeeps(init);
      StuckStep(After(init), run[|run| - 1]);
    }
  }

  lemma {:induction false} StaysStuck(w: World, rest: seq<Action>)
    requires Inv(w) && Stuck(w)
    ensures Inv(From(w, rest)) && Stuck(From(w, rest)) && From(w, rest).nextId == w.nextId
  {
    if rest != [] {
      var w' := From(w, rest[..|rest| - 1]);
      StaysStuck(w, rest[..|rest| - 1]);
      NextKeeps(w', rest[|rest| - 1]);
      StuckStep(w', rest[|rest| - 1]);
    }
  }

  /** And it stays stuck: whatever happens next, no sync future is ever spawned again. */
  lemma StuckForGood(run: seq<Action>, rest: seq<Action>)
    requires Stuck(After(run))
    ensures Stuck(After(run + rest)) && After(run + rest).nextId == After(run).nextId
  {
    RunKeeps(run);
    AfterIsFrom(run, rest);
    StaysStuck(After(run), rest);
  }

  function Repeated(a: Action, r: nat): (rest: seq<Action>)
    ensures |rest| == r && forall k :: 0 <= k < r ==> rest[k] == a
  {
    if r == 0 then [] else Repeated(a, r - 1) + [a]
  }

  lemma {:induction false} RepeatedHandles(services: bool, r: nat)
    ensures Handles(Repeated(Handle(services), r)) == r
  {
    if r > 0 {
      RepeatedHandles(services, r - 1);
      assert Repeated(Handle(services), r)[..r - 1] == Repeated(Handle(services), r - 1);
    }
  }

  /** Let the future end, if there is one, and ask for a check. */
  const END_AND_CHECK := [FutureEnds(0, true), Post(Check)]

  lemma EndAndCheck(w: World)
    requires Inv(w) && !Stuck(w)
    ensures var w' := From(w, END_AND_CHECK);
      Inv(w') && UnderWay(w', |w'.mailbox|, w.nextId)
  {
    var ended := Next(w, FutureEnds(0, true));
    var w' := Next(ended, Post(Check));
    assert END_AND_CHECK[..1][..0] == [];
    assert From(w, END_AND_CHECK[..1]) == ended;
    assert From(w, END_AND_CHECK) == w';
    NextKeeps(w, FutureEnds(0, true));
    NextKeeps(ended, Post(Check));
    if !CheckStarts(w.stage) {
      EndedIsDone(w);
      var k :| 0 <= k < |ended.mailbox| && ended.mailbox[k].Finish?;
      assert w'.mailbox[k].Finish?;
    }
  }

  lemma EndedIsDone(w: World)
    requires Inv(w) && !Stuck(w) && !CheckStarts(w.stage)
    ensures var ended := Next(w, FutureEnds(0, true));
      Active(ended.stage) && ended.nextId == w.nextId && exists k :: 0 <= k < |ended.mailbox| && ended.mailbox[k].Finish?
  {
    var f, ended := w.live[0], Next(w, FutureEnds(0, true));
    if f.phase.Finished? {
      var own := Own(w.mailbox);
      assert BeginWaits(w, f.id, [Finish(f.id)]) ==> own[1..][0] == Finish(f.id);
      assert own[|own| - 1] == Finish(f.id);
      OwnIsMail(w.mailbox, Finish(f.id));
    } else {
      assert ended.mailbox[|w.mailbox|] == Finish(f.id);
    }
  }

  lemma {:induction false} OwnIsMail(mailbox: seq<Event>, e: Event)
    requires e in Own(mailbox)
    ensures exists k :: 0 <= k < |mailbox| && mailbox[k] == e
  {
    if mailbox[0] != e {
      OwnIsMail(mailbox[1..], e);
      var k :| 0 <= k < |mailbox[1..]| && mailbox[1..][k] == e;
      assert mailbox[k + 1] == e;
    }
  }

  /** A service that is not stuck can spawn another sync: let its future end, ask for a check and handle the
      whole mailbox. */
  lemma NotStuckCanGoOn(run: seq<Action>)
    requires !Stuck(After(run))
    ensures exists rest :: After(run + rest).nextId > After(run).nextId
  {
    var w := After(run);
    RunKeeps(run);
    EndAndCheck(w);
    var w' := From(w, END_AND_CHECK);
    var handles := Repeated(Handle(true), |w'.mailbox|);
    RepeatedHandles(true, |w'.mailbox|);
    StartsAgain(w', handles, |w'.mailbox|, w.nextId);
    AfterIsFrom(run, END_AND_CHECK);
    AfterIsFrom(run + END_AND_CHECK, handles);
    assert run + END_AND_CHECK + handles == run + (END_AND_CHECK + handles);
  }

  /** So a run has such a failure if and only if no continuation of it, whatever happens, ever spawns another
      sync. */
  lemma NeverSyncsAgainIff(run: seq<Action>)
    ensures SomeCheckFailed(run) || SomeDoneLost(run)
       <==> forall rest :: After(run + rest).nextId == After(run).nextId
  {
    StuckIff(run);
    if Stuck(After(run)) {
      forall rest ensures After(run + rest).nextId == After(run).nextId {
        StuckForGood(run, rest);
      }
    } else {
      NotStuckCanGoOn(run);
    }
  }

  /** A run stuck by a failed check. */
  lemma FailedCheckIsStuck()
    ensures var run := [Post(Check), Handle(false)];
      After(run) == World(Checking, Prepare, [], [], 0, {}) && Stuck(After(run)) && SomeCheckFailed(run)
  {
    var run := [Post(Check), Handle(false)];
    assert run[..1][..0] == [];
    assert After(run[..1]) == World(NotStart, Prepare, [Check], [], 0, {});
  }

  /** A run stuck by a lost done event, in which no check failed. */
  lemma LostDoneIsStuck()
    ensures var run := [Post(Check), Handle(true), FutureEnds(0, false)];
      && After(run) == World(Checking, Prepare, [], [Future(0, Lost)], 1, {})
      && Stuck(After(run)) && SomeDoneLost(run) && !SomeCheckFailed(run)
  {
    var run := [Post(Check), Handle(true), FutureEnds(0, false)];
    assert run[..2][..1] == run[..1] && run[..1][..0] == [];
    assert After(run[..1]) == World(NotStart, Prepare, [Check], [], 0, {});
    assert After(run[..2]) == World(Checking, Prepare, [], [Future(0, Fresh)], 1, {});
    assert !SomeCheckFailed(run[..1]);
    assert !SomeCheckFailed(run[..2]);
  }
}
