/**
 The publication and command protocol of a projection server, as a transition system.

 Every connection reads one numbered log of publications through a bounded window. A command
 runs beside its connection and its outcome is numbered while the lock on the number is held. A
 connection that falls behind takes a new receiver, a snapshot for each subscription, and
 answers the commands it skipped. Shutting down interleaves with all of it.

 A step is one action no other task can come between: what a task does to its own connection
 between two accesses to shared state is joined to one of them.
 */
module Publications {
  import opened Wrappers

  /** What a mutation, a command or an announcement changes, as a delivery reads it. */
  datatype Change = Change(
    /** The number of the modification it saved. */
    modification: Option<nat>,
    /** The registry says the change is published at all. */
    publishes: bool,
    /** The projections it affects. */
    affects: set<string>)

  datatype Outcome = Done(change: Change) | Failed

  /** What reaches every connection. Connections are numbered from 1; origin 0 is none. */
  datatype Publication =
    | Served(origin: nat, change: Change)
    | Ran(origin: nat, ticket: nat, outcome: Outcome)
    | Announced(change: Change)
    | Stored
    | Closing

  const NO_CONNECTION: nat := 0

  /** The change a publication carries to the connections that take it. */
  function Carried(p: Publication): Option<Change> {
    match p
    case Served(_, change) => Some(change)
    case Announced(change) => Some(change)
    case Ran(_, _, Done(change)) => Some(change)
    case _ => None
  }

  predicate Carries(p: Publication, n: nat) {
    Carried(p).Some? && Carried(p).value.modification == Some(n)
  }

  // ---------------------------------------------------------------- connections

  /** A subscription: `through` is the last modification its snapshot holds, and `offered` the
      modifications its host was asked to patch since that snapshot, in order. */
  datatype Subscription = Subscription(projection: string, authoring: bool, through: nat, offered: seq<nat>)

  /** One command's answer: its publication's number and what each subscription held as it left. */
  datatype Answer = Answer(ticket: nat, id: Option<nat>, number: nat, view: map<nat, Subscription>)

  datatype Phase =
    | Admitting
    | Idle
    | Starting(task: nat, ticket: nat, id: Option<nat>)
    | Mutating(change: Change)
    | Publishing(change: Change)
    | Lagging(from: nat, skipped: nat, pending: set<nat>)
    | Checking(skipped: nat)
    | Ended(closed: bool)

  datatype Connection = Connection(
    phase: Phase,
    /** The receiver: every publication from this index on. */
    cursor: nat,
    tickets: nat,
    /** The id each running command's response answers, by its ticket. */
    running: map<nat, Option<nat>>,
    /** The publication number of each command that ran, until it is answered. */
    ran: map<nat, nat>,
    subscriptions: map<nat, Subscription>,
    nextSubscription: nat,
    // History: the task and id of each accepted ticket, the modifications delivered, the answers.
    accepted: map<nat, (nat, Option<nat>)>,
    processed: seq<nat>,
    answers: seq<Answer>)

  /** A delivery asks for a patch exactly when the change is published, affects the
      subscription's projection, and is numbered after its snapshot. */
  predicate Wanted(sub: Subscription, change: Change) {
    && change.modification.Some?
    && change.publishes
    && change.modification.value > sub.through
    && sub.projection in change.affects
    && !sub.authoring
  }

  function Offer(sub: Subscription, change: Change): Subscription {
    if Wanted(sub, change) then sub.(offered := sub.offered + [change.modification.value]) else sub
  }

  function Deliver(k: Connection, change: Change): Connection {
    match change.modification
    case None => k
    case Some(n) =>
      k.(subscriptions := map id | id in k.subscriptions :: Offer(k.subscriptions[id], change),
         processed := k.processed + [n])
  }

  /** A fresh snapshot: it holds every modification saved so far. */
  function Resynced(sub: Subscription, saved: nat): Subscription {
    sub.(through := if sub.authoring then 0 else saved, offered := [])
  }

  /** `held`, given a fresh snapshot, as subscription `sub`. */
  function WithSubscription(k: Connection, sub: nat, held: Subscription, saved: nat): Connection {
    k.(subscriptions := k.subscriptions[sub := Resynced(held, saved)],
       nextSubscription := if sub < k.nextSubscription then k.nextSubscription else sub + 1)
  }

  /** The id a ticket's response answers. */
  function IdOf(running: map<nat, Option<nat>>, ticket: nat): Option<nat> {
    if ticket in running then running[ticket] else None
  }

  /** The change taking `p` delivers on connection `c`: its own mutation was delivered as served. */
  function Delivers(c: nat, p: Publication): Option<Change> {
    if p.Served? && p.origin == c then None else Carried(p)
  }

  /** Takes the publication at the cursor, any but the closing one: the response to a command of
      the connection's own, then the change. */
  function TakeAt(c: nat, k: Connection, p: Publication): Connection {
    var next := k.(cursor := k.cursor + 1);
    var answered := if p.Ran? && p.origin == c then Answered(next, p.ticket, k.cursor + 1) else next;
    match Delivers(c, p)
    case Some(change) => Deliver(answered, change)
    case None => answered
  }

  /** Answers one command whose publication is numbered `number`. */
  function Answered(k: Connection, ticket: nat, number: nat): Connection {
    k.(ran := k.ran - {ticket},
       running := k.running - {ticket},
       answers := k.answers + [Answer(ticket, IdOf(k.running, ticket), number, k.subscriptions)])
  }

  /** Answers the tickets of `order`, one by one. */
  function AnsweredAll(k: Connection, order: seq<(nat, nat)>): Connection
    decreases |order|
  {
    if order == [] then k else AnsweredAll(Answered(k, order[0].0, order[0].1), order[1..])
  }

  /** The commands that ran at or below `skipped`, by their tickets. */
  predicate IsSkippedOrder(ran: map<nat, nat>, skipped: nat, order: seq<(nat, nat)>) {
    && (forall i | 0 <= i < |order| :: order[i].0 in ran && ran[order[i].0] == order[i].1 <= skipped)
    && (forall t | t in ran && ran[t] <= skipped :: (t, ran[t]) in order)
    && (forall i, j | 0 <= i < j < |order| :: order[i].1 < order[j].1)
  }

  // ---------------------------------------------------------------- shared state

  datatype Stage =
    | Counted
    | Executing(saved: Option<Change>)
    | Returned(outcome: Outcome)
    | Sent(done: bool)

  datatype Task = Task(origin: nat, ticket: nat, stage: Stage)

  /** Who saved a modification that is not yet in the log, and who holds the lock. */
  datatype Owner = ByTask(task: nat) | ByConnection(connection: nat) | ByHost | ByCloser

  datatype Send = Send(publication: Publication, owner: Owner)

  datatype World = World(
    window: nat,
    commandLimit: nat,
    log: seq<Publication>,
    /** The number of the last publication numbered; `sending` holds its lock. */
    last: nat,
    sending: Option<Send>,
    /** Every modification saved, in order: number n is `made[n - 1]`. */
    made: seq<Change>,
    unsent: map<nat, Owner>,
    /** Where each published modification is in the log. */
    at: map<nat, nat>,
    tasks: map<nat, Task>,
    nextTask: nat,
    executing: set<nat>,
    permits: int,
    stopping: bool,
    closerPending: bool,
    closingAt: nat,
    running: int,
    serving: int,
    served: set<nat>)

  datatype Server = Server(w: World, connections: map<nat, Connection>)

  function Saved(w: World): nat { |w.made| }

  /** `change`, given the next modification number by its owner. */
  function Save(w: World, change: Change, owner: Owner): World {
    w.(made := w.made + [change], unsent := w.unsent[|w.made| + 1 := owner])
  }

  /** A change whose modification, if any, is the next number. */
  predicate NextChange(w: World, change: Change) {
    change.modification == Some(|w.made| + 1)
  }

  /** Numbers `p` and takes the lock it is sent under. */
  function Number(w: World, p: Publication, owner: Owner): World {
    w.(last := w.last + 1, sending := Some(Send(p, owner)))
  }

  /** The numbered publication is in the log and the lock is released. */
  function Landed(w: World): World
    requires w.sending.Some?
  {
    var p := w.sending.value.publication;
    var next := w.(log := w.log + [p], sending := None);
    if Carried(p).Some? && Carried(p).value.modification.Some? then
      var n := Carried(p).value.modification.value;
      next.(unsent := next.unsent - {n}, at := next.at[n := |w.log|])
    else next
  }

  /** Sends the numbered publication, whose task may then give its place back. */
  function Broadcast(w: World): World
    requires w.sending.Some?
  {
    match w.sending.value.owner
    case ByTask(id) => if id in w.tasks then WithTask(Landed(w), id, Sent(true)) else Landed(w)
    case _ => Landed(w)
  }

  function WithTask(w: World, id: nat, stage: Stage): World
    requires id in w.tasks
  {
    w.(tasks := w.tasks[id := w.tasks[id].(stage := stage)])
  }

  /** Counts a new task among the running ones. */
  function CountTask(w: World, origin: nat, ticket: nat): World {
    w.(tasks := w.tasks[w.nextTask := Task(origin, ticket, Counted)],
       nextTask := w.nextTask + 1,
       running := w.running + 1)
  }

  function UncountTask(w: World, id: nat): World {
    w.(tasks := w.tasks - {id}, running := w.running - 1)
  }

  /** Gives the counted task a permit. */
  function GrantTask(w: World, id: nat): World
    requires id in w.tasks
  {
    WithTask(w, id, Executing(None)).(permits := w.permits - 1, executing := w.executing + {id})
  }

  /** Gives the counted task a permit, or ends it when there is none. */
  function PermitTask(w: World, id: nat): World
    requires id in w.tasks
  {
    if w.permits > 0 then GrantTask(w, id) else UncountTask(w, id)
  }

  /** The host returned: the command gives its permit back. */
  function ReturnTask(w: World, id: nat, outcome: Outcome): World
    requires id in w.tasks
  {
    WithTask(w, id, Returned(outcome)).(permits := w.permits + 1, executing := w.executing - {id})
  }

  /** Numbers a command's outcome; none follows a closing publication. */
  function SendTask(w: World, id: nat): World
    requires id in w.tasks && w.tasks[id].stage.Returned?
  {
    Number(WithTask(w, id, Sent(false)),
           Ran(w.tasks[id].origin, w.tasks[id].ticket, w.tasks[id].stage.outcome), ByTask(id))
  }

  /** The closing publication is numbered, and its number kept for those that skip it. */
  function SendClosing(w: World): World {
    Number(w, Closing, ByCloser).(closerPending := false, closingAt := w.last + 1)
  }

  /** The connection whose started command has its permit. */
  function Granted(k: Connection): Connection
    requires k.phase.Starting?
  {
    var Starting(task, ticket, id) := k.phase;
    k.(phase := Idle, running := k.running[ticket := id], accepted := k.accepted[ticket := (task, id)])
  }

  // ---------------------------------------------------------------- steps

  datatype Step =
    | AdmitStep(c: nat)
    | CountStep(c: nat)
    | SubscribeStep(c: nat, projection: string, authoring: bool)
    | UnsubscribeStep(c: nat, sub: nat)
    | ResyncStep(c: nat, sub: nat)
    | StartStep(c: nat, id: Option<nat>)
    | PermitStep(c: nat)
    | MutateStep(c: nat, change: Change)
    | RespondStep(c: nat)
    | TakeStep(c: nat)
    | LagStep(c: nat)
    | LagResyncStep(c: nat, sub: nat)
    | LagAnswerStep(c: nat, order: seq<(nat, nat)>)
    | LagCheckStep(c: nat)
    | DisconnectStep(c: nat)
    | HostStartStep
    | HostPermitStep(task: nat)
    | TaskSaveStep(task: nat, change: Change)
    | TaskReturnStep(task: nat, outcome: Outcome)
    | TaskSendStep(task: nat)
    | TaskDropStep(task: nat)
    | HostSaveStep(change: Change)
    | HostSendStep(publication: Publication)
    | BroadcastStep
    | ShutDownStep
    | CloserStep

  predicate InPhase(s: Server, c: nat, phase: Phase) {
    c in s.connections && s.connections[c].phase == phase
  }

  predicate Enabled(s: Server, step: Step) {
    var w := s.w;
    match step
    case AdmitStep(c) => c != NO_CONNECTION && c !in s.connections && w.sending.None?
    case CountStep(c) => InPhase(s, c, Admitting)
    case SubscribeStep(c, _, _) => InPhase(s, c, Idle)
    case UnsubscribeStep(c, sub) => InPhase(s, c, Idle)
    case ResyncStep(c, sub) => InPhase(s, c, Idle) && sub in s.connections[c].subscriptions
    case StartStep(c, _) => InPhase(s, c, Idle)
    case PermitStep(c) =>
      c in s.connections && s.connections[c].phase.Starting? && s.connections[c].phase.task in w.tasks
    case MutateStep(c, change) =>
      InPhase(s, c, Idle) && (change.modification.None? || NextChange(w, change))
    case RespondStep(c) => c in s.connections && s.connections[c].phase.Mutating? && w.sending.None?
    case TakeStep(c) =>
      InPhase(s, c, Idle) && s.connections[c].cursor < |w.log| <= s.connections[c].cursor + w.window
    case LagStep(c) =>
      InPhase(s, c, Idle) && s.connections[c].cursor + w.window < |w.log| && w.sending.None?
    case LagResyncStep(c, sub) =>
      && c in s.connections && s.connections[c].phase.Lagging?
      && sub in s.connections[c].phase.pending && sub in s.connections[c].subscriptions
    case LagAnswerStep(c, order) =>
      && c in s.connections && s.connections[c].phase.Lagging? && s.connections[c].phase.pending == {}
      && IsSkippedOrder(s.connections[c].ran, s.connections[c].phase.skipped, order)
    case LagCheckStep(c) => c in s.connections && s.connections[c].phase.Checking?
    case DisconnectStep(c) => InPhase(s, c, Idle)
    case HostStartStep => true
    case HostPermitStep(id) =>
      id in w.tasks && w.tasks[id].stage == Counted && w.tasks[id].origin == NO_CONNECTION
    case TaskSaveStep(id, change) =>
      id in w.tasks && w.tasks[id].stage == Executing(None) && NextChange(w, change)
    case TaskReturnStep(id, outcome) =>
      && id in w.tasks && w.tasks[id].stage.Executing?
      && match w.tasks[id].stage.saved {
           case Some(change) => outcome == Done(change)
           case None => outcome.Done? ==> outcome.change.modification.None?
         }
    case TaskSendStep(id) => id in w.tasks && w.tasks[id].stage.Returned? && w.sending.None?
    case TaskDropStep(id) => id in w.tasks && w.tasks[id].stage == Sent(true)
    case HostSaveStep(change) => NextChange(w, change)
    case HostSendStep(p) =>
      && w.sending.None?
      && (p.Announced? || p.Stored? || (p.Served? && p.origin == NO_CONNECTION))
      && (Carried(p).Some? && Carried(p).value.modification.Some? ==>
            var n := Carried(p).value.modification.value;
            n in w.unsent && w.unsent[n] == ByHost && 0 < n <= |w.made| && w.made[n - 1] == Carried(p).value)
    case BroadcastStep => w.sending.Some?
    case ShutDownStep => true
    case CloserStep => w.closerPending && w.running == 0 && w.sending.None?
  }

  function WithConnection(s: Server, c: nat, k: Connection): Server {
    s.(connections := s.connections[c := k])
  }

  function NewConnection(w: World): Connection {
    Connection(Admitting, |w.log|, 0, map[], map[], map[], 1, map[], [], [])
  }

  /** A connection ends and gives its place back. */
  function End(s: Server, c: nat, closed: bool): Server
    requires c in s.connections
  {
    Server(s.w.(serving := s.w.serving - 1, served := s.w.served - {c}),
           s.connections[c := s.connections[c].(phase := Ended(closed))])
  }

  /** The connection delivers its own mutation as it answers it. */
  function Responding(k: Connection): Connection
    requires k.phase.Mutating?
  {
    Deliver(k, k.phase.change).(phase := Publishing(k.phase.change))
  }

  /** The connection fell behind: a new receiver, and a snapshot due to each subscription. */
  function Behind(w: World, k: Connection): Connection {
    k.(phase := Lagging(k.cursor, |w.log|, k.subscriptions.Keys), cursor := |w.log|)
  }

  /** One subscription is sent its snapshot. */
  function LagResynced(w: World, k: Connection, sub: nat): Connection
    requires k.phase.Lagging? && sub in k.subscriptions
  {
    k.(phase := k.phase.(pending := k.phase.pending - {sub}),
       subscriptions := k.subscriptions[sub := Resynced(k.subscriptions[sub], Saved(w))])
  }

  /** The skipped commands are answered. */
  function Caught(k: Connection, order: seq<(nat, nat)>): Connection
    requires k.phase.Lagging?
  {
    AnsweredAll(k, order).(phase := Checking(k.phase.skipped))
  }

  /** The outcome of `ticket` is kept with its number until it is answered. */
  function Keeping(k: Connection, ticket: nat, number: nat): Connection { k.(ran := k.ran[ticket := number]) }

  function TakeTicket(k: Connection): Connection { k.(tickets := k.tickets + 1) }

  /** The command is counted and takes a ticket. */
  function Started(s: Server, c: nat, id: Option<nat>): Server
    requires c in s.connections
  {
    var k := s.connections[c];
    Server(CountTask(s.w, c, k.tickets + 1),
           s.connections[c := k.(tickets := k.tickets + 1, phase := Starting(s.w.nextTask, k.tickets + 1, id))])
  }

  /** The connection is counted among those served. */
  function CountIn(s: Server, c: nat): Server
    requires c in s.connections
  {
    Server(s.w.(serving := s.w.serving + 1, served := s.w.served + {c}),
           s.connections[c := s.connections[c].(phase := Idle)])
  }

  /** A step's effect. */
  function Apply(s: Server, step: Step): Server
    requires Enabled(s, step)
  {
    var w := s.w;
    match step
    case AdmitStep(c) => WithConnection(s, c, NewConnection(w))
    case CountStep(c) =>
      var k := s.connections[c];
      if w.stopping then WithConnection(s, c, k.(phase := Ended(false)))
      else CountIn(s, c)
    case SubscribeStep(c, projection, authoring) =>
      var k := s.connections[c];
      WithConnection(s, c, WithSubscription(k, k.nextSubscription, Subscription(projection, authoring, 0, []), Saved(w)))
    case UnsubscribeStep(c, sub) =>
      var k := s.connections[c];
      WithConnection(s, c, k.(subscriptions := k.subscriptions - {sub}))
    case ResyncStep(c, sub) =>
      var k := s.connections[c];
      WithConnection(s, c, WithSubscription(k, sub, k.subscriptions[sub], Saved(w)))
    case StartStep(c, id) =>
      if w.stopping then WithConnection(s, c, TakeTicket(s.connections[c]))
      else Started(s, c, id)
    case PermitStep(c) =>
      var k := s.connections[c];
      Server(PermitTask(w, k.phase.task), s.connections[c := if w.permits > 0 then Granted(k) else k.(phase := Idle)])
    case MutateStep(c, change) =>
      var k := s.connections[c].(phase := Mutating(change));
      Server(if change.modification.Some? then Save(w, change, ByConnection(c)) else w, s.connections[c := k])
    case RespondStep(c) =>
      var k := s.connections[c];
      Server(Number(w, Served(c, k.phase.change), ByConnection(c)), s.connections[c := Responding(k)])
    case TakeStep(c) =>
      var k := s.connections[c];
      var p := w.log[k.cursor];
      if p.Closing? then End(s, c, true)
      else WithConnection(s, c, TakeAt(c, k, p))
    case LagStep(c) =>
      WithConnection(s, c, Behind(w, s.connections[c]))
    case LagResyncStep(c, sub) =>
      WithConnection(s, c, LagResynced(w, s.connections[c], sub))
    case LagAnswerStep(c, order) =>
      WithConnection(s, c, Caught(s.connections[c], order))
    case LagCheckStep(c) =>
      var k := s.connections[c];
      if w.closingAt != 0 && w.closingAt <= k.phase.skipped then End(s, c, true)
      else WithConnection(s, c, k.(phase := Idle))
    case DisconnectStep(c) => End(s, c, false)
    case HostStartStep => if w.stopping then s else s.(w := CountTask(w, NO_CONNECTION, 0))
    case HostPermitStep(id) => s.(w := PermitTask(w, id))
    case TaskSaveStep(id, change) => s.(w := Save(WithTask(w, id, Executing(Some(change))), change, ByTask(id)))
    case TaskReturnStep(id, outcome) =>
      s.(w := ReturnTask(w, id, outcome))
    case TaskSendStep(id) =>
      var Task(origin, ticket, _) := w.tasks[id];
      if origin in s.connections then
        Server(SendTask(w, id), s.connections[origin := Keeping(s.connections[origin], ticket, w.last + 1)])
      else s.(w := SendTask(w, id))
    case TaskDropStep(id) => s.(w := UncountTask(w, id))
    case HostSaveStep(change) => s.(w := Save(w, change, ByHost))
    case HostSendStep(p) => s.(w := Number(w, p, ByHost))
    case BroadcastStep =>
      var next := Broadcast(w);
      var owner := w.sending.value.owner;
      if owner.ByConnection? && owner.connection in s.connections then
        Server(next, s.connections[owner.connection := s.connections[owner.connection].(phase := Idle)])
      else s.(w := next)
    case ShutDownStep => s.(w := w.(stopping := true, closerPending := w.closerPending || !w.stopping))
    case CloserStep => s.(w := SendClosing(w))
  }

  function Initial(window: nat, commandLimit: nat): Server {
    Server(World(window, commandLimit, [], 0, None, [], map[], map[], map[], 0, {}, commandLimit,
                 false, false, 0, 0, 0, {}), map[])
  }

  /** Every step of a run is enabled where it is taken. */
  predicate IsRun(s: Server, steps: seq<Step>)
    decreases |steps|
  {
    steps == [] || (Enabled(s, steps[0]) && IsRun(Apply(s, steps[0]), steps[1..]))
  }

  function After(s: Server, steps: seq<Step>): Server
    requires IsRun(s, steps)
    decreases |steps|
  {
    if steps == [] then s else After(Apply(s, steps[0]), steps[1..])
  }

  /** A state some run of the server reaches. */
  ghost predicate Reachable(s: Server) {
    exists window: nat, commandLimit: nat, steps ::
      IsRun(Initial(window, commandLimit), steps) && After(Initial(window, commandLimit), steps) == s
  }
}
