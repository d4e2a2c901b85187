/** What every step of the publication protocol keeps. */
module PublicationsInvariant {
  import opened Wrappers
  import opened Publications

  // ---------------------------------------------------------------- the shared state

  /** Numbers are given under the lock, one at a time. */
  ghost predicate Numbered(w: World) {
    && w.last == |w.log| + (if w.sending.Some? then 1 else 0)
    && (w.closingAt == 0 ==>
          && (forall i | 0 <= i < |w.log| :: !w.log[i].Closing?)
          && (w.sending.Some? ==> !w.sending.value.publication.Closing?))
    && (w.closingAt > 0 ==>
          && w.closingAt <= w.last
          && (if w.closingAt <= |w.log| then w.log[w.closingAt - 1].Closing?
              else w.sending.Some? && w.sending.value.publication.Closing?)
          && (forall i | 0 <= i < |w.log| && w.log[i].Closing? :: i == w.closingAt - 1)
          && (w.sending.Some? && w.sending.value.publication.Closing? ==> w.closingAt == |w.log| + 1))
  }

  /** Every saved modification is in the log once, or held by the one that saved it. */
  ghost predicate Accounted(w: World) {
    && (forall n | 0 < n <= |w.made| ::
          w.made[n - 1].modification == Some(n) && (n in w.unsent || n in w.at))
    && (forall n | n in w.unsent :: 0 < n <= |w.made| && n !in w.at)
    && (forall n | n in w.at :: 0 < n <= |w.made| && w.at[n] < |w.log| && Carries(w.log[w.at[n]], n))
    && (forall i | 0 <= i < |w.log| :: InLog(w, i))
    && (w.sending.Some? ==> Held(w, Carried(w.sending.value.publication), w.sending.value.owner))
  }

  /** The publication at `i` carries a modification the log holds nowhere else. */
  ghost predicate InLog(w: World, i: nat)
    requires i < |w.log|
  {
    var change := Carried(w.log[i]);
    change.Some? && change.value.modification.Some? ==>
      var n := change.value.modification.value;
      n in w.at && w.at[n] == i && 0 < n <= |w.made| && w.made[n - 1] == change.value
  }

  /** `owner` holds the modification of `change`, which is not yet in the log. */
  ghost predicate Held(w: World, change: Option<Change>, owner: Owner) {
    change.Some? && change.value.modification.Some? ==>
      var n := change.value.modification.value;
      n in w.unsent && w.unsent[n] == owner && 0 < n <= |w.made| && w.made[n - 1] == change.value
  }

  ghost predicate TaskInv(w: World, id: nat)
    requires id in w.tasks
  {
    && id < w.nextTask
    && match w.tasks[id].stage {
         case Counted => id !in w.executing
         case Executing(saved) => id in w.executing && Held(w, saved, ByTask(id))
         case Returned(outcome) =>
           id !in w.executing && (outcome.Done? ==> Held(w, Some(outcome.change), ByTask(id)))
         case Sent(done) =>
           id !in w.executing
           && (!done ==> w.sending.Some? && w.sending.value.owner == ByTask(id)
                         && w.sending.value.publication.Ran?)
       }
  }

  ghost predicate EachTask(w: World) {
    forall id | id in w.tasks :: TaskInv(w, id)
  }

  /** The counts are those of the tasks there are. */
  ghost predicate Counts(w: World) {
    && w.executing <= w.tasks.Keys
    && w.permits + |w.executing| == w.commandLimit
    && 0 <= w.permits
    && w.running == |w.tasks|
  }

  /** An outcome is sent by its own task. */
  ghost predicate SendingTask(w: World) {
    && (w.sending.Some? && w.sending.value.publication.Ran? ==>
          && w.sending.value.owner.ByTask?
          && w.sending.value.owner.task in w.tasks
          && w.tasks[w.sending.value.owner.task].stage == Sent(false)
          && w.tasks[w.sending.value.owner.task].origin == w.sending.value.publication.origin)
    && (w.sending.Some? && w.sending.value.owner.ByTask? ==> w.sending.value.publication.Ran?)
  }

  ghost predicate Tasks(w: World) { EachTask(w) && Counts(w) && SendingTask(w) }

  /** A connection sends its own mutation and nothing else. */
  ghost predicate Sender(w: World) {
    w.sending.Some? ==>
      var Send(p, owner) := w.sending.value;
      && (p.Served? && p.origin != NO_CONNECTION ==> owner == ByConnection(p.origin))
      && (owner.ByConnection? ==> p.Served? && p.origin == owner.connection != NO_CONNECTION)
  }

  /** Once the closing publication is numbered nothing runs, and nothing will. */
  ghost predicate Quiet(w: World) {
    && (w.closerPending ==> w.stopping && w.closingAt == 0)
    && (w.closingAt > 0 ==>
          && w.stopping && w.tasks == map[]
          && (forall i | w.closingAt <= i < |w.log| :: !w.log[i].Ran?)
          && (w.sending.Some? ==> !w.sending.value.publication.Ran?))
    && (w.stopping && w.closingAt == 0 ==> w.closerPending)
  }

  ghost predicate WorldInv(w: World) {
    Numbered(w) && Accounted(w) && Tasks(w) && Sender(w) && Quiet(w) && w.serving == |w.served|
  }

  // ---------------------------------------------------------------- one connection

  predicate Live(k: Connection) { !k.phase.Admitting? && !k.phase.Ended? }

  /** The index below which the connection's own commands are answered. */
  function AnsweredBelow(k: Connection): nat {
    if k.phase.Lagging? then k.phase.from else k.cursor
  }

  predicate HasAnswer(answers: seq<Answer>, ticket: nat) {
    exists a :: 0 <= a < |answers| && answers[a].ticket == ticket
  }

  type Tickets = map<nat, (nat, Option<nat>)>

  /** Each accepted ticket is running or answered, and not both. */
  ghost predicate TicketsInv(accepted: Tickets, running: map<nat, Option<nat>>, answers: seq<Answer>, tickets: nat) {
    && (forall t | t in running :: t in accepted && accepted[t].1 == running[t] && !HasAnswer(answers, t))
    && (forall t | t in accepted :: 0 < t <= tickets && (t in running || HasAnswer(answers, t)))
  }

  /** A command being started is counted and has a ticket of its own. */
  ghost predicate StartingInv(tasks: map<nat, Task>, c: nat, phase: Phase, accepted: Tickets, tickets: nat) {
    phase.Starting? ==>
      && phase.ticket !in accepted && 0 < phase.ticket <= tickets
      && phase.task in tasks
      && tasks[phase.task] == Task(c, phase.ticket, Counted)
  }

  /** Publication number `number` is the outcome of ticket `t` of connection `c`. */
  ghost predicate RanAt(log: seq<Publication>, sending: Option<Send>, c: nat, t: nat, number: nat) {
    && 0 < number
    && if number <= |log| then OutcomeOf(log[number - 1], c, t)
       else number == |log| + 1 && sending.Some? && OutcomeOf(sending.value.publication, c, t)
  }

  predicate OutcomeOf(p: Publication, c: nat, t: nat) { p.Ran? && p.origin == c && p.ticket == t }

  /** Each command that ran and is not answered is published beyond where its connection is. */
  ghost predicate RanInv(log: seq<Publication>, sending: Option<Send>, c: nat, ran: map<nat, nat>,
                         running: map<nat, Option<nat>>, below: nat)
  {
    forall t | t in ran :: t in running && RanAt(log, sending, c, t, ran[t]) && below < ran[t]
  }

  predicate InFlight(tasks: map<nat, Task>, id: nat, c: nat, t: nat) {
    id in tasks && tasks[id].origin == c && tasks[id].ticket == t
    && (tasks[id].stage.Executing? || tasks[id].stage.Returned?)
  }

  /** Each running command that has not run is held by its task. */
  ghost predicate WaitingInv(tasks: map<nat, Task>, c: nat, accepted: Tickets, running: map<nat, Option<nat>>,
                             ran: map<nat, nat>)
  {
    forall t | t in running && t !in ran :: t in accepted && InFlight(tasks, accepted[t].0, c, t)
  }

  ghost predicate Commands(w: World, c: nat, k: Connection) {
    && TicketsInv(k.accepted, k.running, k.answers, k.tickets)
    && StartingInv(w.tasks, c, k.phase, k.accepted, k.tickets)
    && RanInv(w.log, w.sending, c, k.ran, k.running, AnsweredBelow(k))
    && WaitingInv(w.tasks, c, k.accepted, k.running, k.ran)
  }

  /** A task of the connection belongs to a ticket it has not seen published. */
  ghost predicate OwnTask(id: nat, task: Task, phase: Phase, accepted: Tickets, running: map<nat, Option<nat>>,
                          ran: map<nat, nat>)
  {
    match task.stage
    case Counted => phase.Starting? && phase.task == id
    case Sent(_) => true
    case _ => task.ticket in running && task.ticket !in ran && task.ticket in accepted && accepted[task.ticket].0 == id
  }

  ghost predicate OwnTasksInv(tasks: map<nat, Task>, c: nat, phase: Phase, accepted: Tickets,
                              running: map<nat, Option<nat>>, ran: map<nat, nat>)
  {
    forall id | id in tasks && tasks[id].origin == c :: OwnTask(id, tasks[id], phase, accepted, running, ran)
  }

  /** An outcome of the connection in the log is answered, or waits where its number is kept. */
  ghost predicate OwnOutcome(p: Publication, i: nat, accepted: Tickets, running: map<nat, Option<nat>>,
                             ran: map<nat, nat>, answers: seq<Answer>, below: nat)
    requires p.Ran?
  {
    && p.ticket in accepted
    && if i < below then HasAnswer(answers, p.ticket) && p.ticket !in running
       else p.ticket in ran && ran[p.ticket] == i + 1
  }

  ghost predicate OwnLogInv(log: seq<Publication>, c: nat, accepted: Tickets, running: map<nat, Option<nat>>,
                            ran: map<nat, nat>, answers: seq<Answer>, below: nat)
  {
    forall i | 0 <= i < |log| && log[i].Ran? && log[i].origin == c ::
      OwnOutcome(log[i], i, accepted, running, ran, answers, below)
  }

  ghost predicate OwnSendingInv(last: nat, sending: Option<Send>, c: nat, accepted: Tickets, ran: map<nat, nat>) {
    sending.Some? && sending.value.publication.Ran? && sending.value.publication.origin == c ==>
      var t := sending.value.publication.ticket;
      t in accepted && t in ran && ran[t] == last
  }

  ghost predicate OwnTasks(w: World, c: nat, k: Connection) {
    && OwnTasksInv(w.tasks, c, k.phase, k.accepted, k.running, k.ran)
    && OwnLogInv(w.log, c, k.accepted, k.running, k.ran, k.answers, AnsweredBelow(k))
    && OwnSendingInv(w.last, w.sending, c, k.accepted, k.ran)
  }

  /** The answers so far: in increasing number, each for its own publication and request, and
      each after every earlier publication reached every subscription it affects. */
  ghost predicate Answers(w: World, c: nat, k: Connection) {
    && (forall a | 0 <= a < |k.answers| :: AnswerInv(w.log, c, k.accepted, AnsweredBelow(k), k.answers[a]))
    && (forall a, b | 0 <= a < b < |k.answers| :: k.answers[a].number < k.answers[b].number)
    && (forall a, b | 0 <= a < b < |k.answers| :: k.answers[a].ticket != k.answers[b].ticket)
  }

  ghost predicate AnswerInv(log: seq<Publication>, c: nat, accepted: Tickets, below: nat,
                            answer: Answer)
  {
    && 0 < answer.number <= below <= |log|
    && OutcomeOf(log[answer.number - 1], c, answer.ticket)
    && answer.ticket in accepted
    && accepted[answer.ticket].1 == answer.id
    && forall sub | sub in answer.view :: Covers(log, answer.view[sub], answer.number - 1)
  }

  /** Every modification the log holds below `end` that affects the subscription is in its
      snapshot or was offered to it. */
  ghost predicate Covers(log: seq<Publication>, sub: Subscription, end: nat)
    requires end <= |log|
  {
    forall i | 0 <= i < end :: Covered(sub, log[i])
  }

  predicate Covered(sub: Subscription, p: Publication) {
    Carried(p).Some? && Wanted(sub, Carried(p).value) ==> Carried(p).value.modification.value in sub.offered
  }

  /** Modification `n` was saved and affects the subscription beyond its snapshot. */
  predicate Due(made: seq<Change>, sub: Subscription, n: nat) { 0 < n <= |made| && Wanted(sub, made[n - 1]) }

  /** The modifications of `processed` a subscription with this snapshot is offered, in order. */
  function OfferedOf(made: seq<Change>, processed: seq<nat>, sub: Subscription): seq<nat>
    decreases |processed|
  {
    if processed == [] then []
    else
      var n := processed[|processed| - 1];
      var earlier := OfferedOf(made, processed[..|processed| - 1], sub);
      if Due(made, sub, n) then earlier + [n] else earlier
  }

  /** The index below which the connection's receiver has brought everything to `sub`. */
  function ReachedBelow(k: Connection, sub: nat): nat {
    if k.phase.Lagging? && sub in k.phase.pending then k.phase.from else k.cursor
  }

  ghost predicate Subscribed(log: seq<Publication>, made: seq<Change>, processed: seq<nat>, reached: nat,
                             held: Subscription)
  {
    && held.offered == OfferedOf(made, processed, held)
    && held.through <= |made|
    && reached <= |log|
    && Covers(log, held, reached)
  }

  ghost predicate Subscriptions(w: World, k: Connection) {
    forall sub | sub in k.subscriptions ::
      sub < k.nextSubscription && Subscribed(w.log, w.made, k.processed, ReachedBelow(k, sub), k.subscriptions[sub])
  }

  /** What was delivered on the connection, and what can still be. */
  ghost predicate Processed(w: World, c: nat, k: Connection) {
    && (forall i | 0 <= i < |k.processed| :: 0 < k.processed[i] <= |w.made|)
    && (forall i, j | 0 <= i < j < |k.processed| :: k.processed[i] != k.processed[j])
    && (forall n | n in k.processed && n in w.unsent ::
          && w.unsent[n] == ByConnection(c) && k.phase.Publishing? && k.phase.change.modification == Some(n))
    && (forall i | k.cursor <= i < |w.log| :: FreshTo(w.log[i], c, k.processed))
    && (forall i | 0 <= i < |w.log| :: OwnProcessed(w.log[i], c, k.processed))
  }

  /** Taking `p` delivers a modification not delivered before. */
  predicate FreshTo(p: Publication, c: nat, processed: seq<nat>) {
    Carried(p).Some? && Carried(p).value.modification.Some? && !(p.Served? && p.origin == c) ==>
      Carried(p).value.modification.value !in processed
  }

  /** The connection's own mutation was delivered as it was served. */
  predicate OwnProcessed(p: Publication, c: nat, processed: seq<nat>) {
    p.Served? && p.origin == c && p.change.modification.Some? ==> p.change.modification.value in processed
  }

  /** The phases that hold a saved modification, and the receiver's place. */
  ghost predicate PhaseInv(w: World, c: nat, k: Connection) {
    && k.cursor <= |w.log|
    && (w.closingAt == 0 || k.phase.Checking? || AnsweredBelow(k) < w.closingAt)
    && match k.phase {
         case Mutating(change) =>
           Held(w, Some(change), ByConnection(c))
           && (change.modification.Some? ==> change.modification.value !in k.processed)
         case Publishing(change) =>
           && Held(w, Some(change), ByConnection(c))
           && w.sending == Some(Send(Served(c, change), ByConnection(c)))
           && (change.modification.Some? ==> change.modification.value in k.processed)
         case Lagging(from, skipped, pending) =>
           from <= skipped == k.cursor && pending <= k.subscriptions.Keys
         case Checking(skipped) => skipped == k.cursor
         case _ => true
       }
    && (w.sending.Some? && w.sending.value.owner == ByConnection(c) ==> k.phase.Publishing?)
    && (k.phase.Checking? && w.closingAt > 0 && w.closingAt <= k.cursor ==> k.running == map[])
  }

  ghost predicate LiveInv(w: World, c: nat, k: Connection) {
    && PhaseInv(w, c, k)
    && Commands(w, c, k)
    && OwnTasks(w, c, k)
    && Answers(w, c, k)
    && Subscriptions(w, k)
    && Processed(w, c, k)
  }

  /** A connection not yet counted has done nothing, and nothing was done for it. */
  ghost predicate NewInv(w: World, c: nat, k: Connection) {
    && k.cursor <= |w.log|
    && k == Connection(Admitting, k.cursor, 0, map[], map[], map[], 1, map[], [], [])
    && Untouched(w, c)
  }

  /** Nothing in the shared state names the connection. */
  ghost predicate Untouched(w: World, c: nat) {
    && (forall id | id in w.tasks :: w.tasks[id].origin != c)
    && (forall i | 0 <= i < |w.log| :: !Names(w.log[i], c))
    && (w.sending.Some? ==> !Names(w.sending.value.publication, c) && w.sending.value.owner != ByConnection(c))
  }

  predicate Names(p: Publication, c: nat) {
    (p.Ran? && p.origin == c) || (p.Served? && p.origin == c)
  }

  /** A connection the shutdown closed owes no answer. */
  ghost predicate EndedInv(w: World, c: nat, k: Connection)
    requires k.phase.Ended?
  {
    && k.cursor <= |w.log|
    && Answers(w, c, k)
    && (k.phase.closed ==>
          && k.running == map[]
          && w.closingAt > 0
          && (forall t | t in k.accepted :: HasAnswer(k.answers, t)))
    && (w.sending.Some? ==> w.sending.value.owner != ByConnection(c))
    && (forall id | id in w.tasks && w.tasks[id].origin == c :: w.tasks[id].stage != Counted)
  }

  ghost predicate ConnectionInv(w: World, c: nat, k: Connection) {
    && c != NO_CONNECTION
    && (c in w.served <==> Live(k))
    && (k.phase.Admitting? ==> NewInv(w, c, k))
    && (k.phase.Ended? ==> EndedInv(w, c, k))
    && (Live(k) ==> LiveInv(w, c, k))
  }

  ghost predicate Inv(s: Server) {
    && WorldInv(s.w)
    && s.w.served <= s.connections.Keys
    && (forall c | c in s.connections :: ConnectionInv(s.w, c, s.connections[c]))
    && (forall c | c !in s.connections && c != NO_CONNECTION :: Untouched(s.w, c))
  }
}
