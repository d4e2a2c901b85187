/** Every step of the publication protocol keeps its invariant. */
module PublicationsSteps {
  import opened Wrappers
  import opened Publications
  import opened PublicationsInvariant
  import opened PublicationsFrame

  /** A step that changes connection `c` and grows the shared state around the others. */
  lemma KeepChanged(s: Server, s': Server, c: nat)
    requires Inv(s) && WorldInv(s'.w) && c in s'.connections
    requires s'.connections == s.connections[c := s'.connections[c]]
    requires s'.w.served <= s'.connections.Keys
    requires forall d: nat | d != c && d != NO_CONNECTION :: Grows(s.w, s'.w, d)
    requires ConnectionInv(s'.w, c, s'.connections[c])
    ensures Inv(s')
  {
    forall d | d in s'.connections ensures ConnectionInv(s'.w, d, s'.connections[d]) {
      if d != c {
        Frame(s.w, s'.w, d, s.connections[d]);
      }
    }
    forall d: nat | d !in s'.connections && d != NO_CONNECTION ensures Untouched(s'.w, d) {
      FrameUntouched(s.w, s'.w, d);
    }
  }

  lemma KeepWith(s: Server, w': World, c: nat, k': Connection)
    requires Inv(s) && WorldInv(w') && c in s.connections && w'.served == s.w.served
    requires forall d: nat | d != c && d != NO_CONNECTION :: Grows(s.w, w', d)
    requires ConnectionInv(w', c, k')
    ensures Inv(Server(w', s.connections[c := k']))
  {
    KeepChanged(s, Server(w', s.connections[c := k']), c);
  }

  /** A step that changes no connection. */
  lemma KeepWorld(s: Server, s': Server)
    requires Inv(s) && WorldInv(s'.w) && s'.connections == s.connections
    requires s'.w.served == s.w.served
    requires forall d: nat | d != NO_CONNECTION :: Grows(s.w, s'.w, d)
    ensures Inv(s')
  {
    forall d | d in s'.connections ensures ConnectionInv(s'.w, d, s'.connections[d]) {
      Frame(s.w, s'.w, d, s.connections[d]);
    }
    forall d: nat | d !in s'.connections && d != NO_CONNECTION ensures Untouched(s'.w, d) {
      FrameUntouched(s.w, s'.w, d);
    }
  }

  // ---------------------------------------------------------------- the shared state alone

  /** The log's account of modifications depends only on these parts. */
  lemma AccountedKept(w: World, w': World)
    requires Accounted(w) && w'.log == w.log && w'.made == w.made && w'.unsent == w.unsent && w'.at == w.at
    requires w'.sending == w.sending
             || (w'.sending.Some? ==> Held(w', Carried(w'.sending.value.publication), w'.sending.value.owner))
    ensures Accounted(w')
  {
    forall i | 0 <= i < |w'.log| ensures InLog(w', i) { assert InLog(w, i); }
  }

  lemma SaveAccounted(w: World, change: Change, owner: Owner)
    requires Accounted(w) && NextChange(w, change)
    ensures Accounted(Save(w, change, owner)) && Held(Save(w, change, owner), Some(change), owner)
  {
    var w' := Save(w, change, owner);
    forall i | 0 <= i < |w'.log| ensures InLog(w', i) { assert InLog(w, i); }
  }

  lemma SaveKeeps(w: World, change: Change, owner: Owner)
    requires WorldInv(w) && NextChange(w, change)
    ensures WorldInv(Save(w, change, owner))
    ensures Held(Save(w, change, owner), Some(change), owner)
  {
    var w' := Save(w, change, owner);
    SaveAccounted(w, change, owner);
    forall id | id in w'.tasks ensures TaskInv(w', id) { assert TaskInv(w, id); }
  }

  lemma SaveGrows(w: World, change: Change, owner: Owner, d: nat)
    requires WorldInv(w)
    ensures Grows(w, Save(w, change, owner), d)
  {
    assert forall n | n in w.unsent :: n <= |w.made|;
  }

  lemma CountTaskKeeps(w: World, origin: nat, ticket: nat)
    requires WorldInv(w) && !w.stopping
    ensures w.nextTask !in w.tasks
    ensures WorldInv(CountTask(w, origin, ticket))
  {
    var w' := CountTask(w, origin, ticket);
    assert forall id | id in w.tasks :: TaskInv(w, id);
    AccountedKept(w, w');
    forall id | id in w'.tasks ensures TaskInv(w', id) {
      if id != w.nextTask { assert TaskInv(w, id); }
    }
  }

  lemma UncountKeeps(w: World, id: nat)
    requires WorldInv(w) && id in w.tasks && (w.tasks[id].stage == Counted || w.tasks[id].stage == Sent(true))
    ensures WorldInv(UncountTask(w, id))
  {
    var w' := UncountTask(w, id);
    assert TaskInv(w, id);
    assert w.tasks.Keys == w'.tasks.Keys + {id};
    AccountedKept(w, w');
    forall i | i in w'.tasks ensures TaskInv(w', i) { assert TaskInv(w, i); }
  }

  /** Changing one task's stage leaves the number of tasks. */
  lemma SameCount(w: World, id: nat, stage: Stage)
    requires id in w.tasks
    ensures |WithTask(w, id, stage).tasks| == |w.tasks|
  {
    assert WithTask(w, id, stage).tasks.Keys == w.tasks.Keys;
  }

  lemma GrantKeeps(w: World, id: nat)
    requires WorldInv(w) && id in w.tasks && w.tasks[id].stage == Counted && w.permits > 0
    ensures WorldInv(GrantTask(w, id))
  {
    var w' := GrantTask(w, id);
    assert TaskInv(w, id);
    SameCount(w, id, Executing(None));
    AccountedKept(w, w');
    forall i | i in w'.tasks ensures TaskInv(w', i) { assert TaskInv(w, i); }
  }

  lemma NumberKeeps(w: World, p: Publication, owner: Owner)
    requires WorldInv(w) && w.sending.None? && Held(w, Carried(p), owner)
    requires !p.Ran? && !p.Closing? && !owner.ByTask?
    requires p.Served? && p.origin != NO_CONNECTION ==> owner == ByConnection(p.origin)
    requires owner.ByConnection? ==> p.Served? && p.origin == owner.connection != NO_CONNECTION
    ensures WorldInv(Number(w, p, owner))
  {
    var w' := Number(w, p, owner);
    AccountedKept(w, w');
    forall i | i in w'.tasks ensures TaskInv(w', i) { assert TaskInv(w, i); }
  }

  lemma TaskSaveKeeps(w: World, id: nat, change: Change)
    requires WorldInv(w) && id in w.tasks && w.tasks[id].stage == Executing(None) && NextChange(w, change)
    ensures WorldInv(Save(WithTask(w, id, Executing(Some(change))), change, ByTask(id)))
  {
    var w1 := WithTask(w, id, Executing(Some(change)));
    var w' := Save(w1, change, ByTask(id));
    SameCount(w, id, Executing(Some(change)));
    AccountedKept(w, w1);
    SaveAccounted(w1, change, ByTask(id));
    forall i | i in w'.tasks ensures TaskInv(w', i) { assert TaskInv(w, i); }
  }

  lemma TaskReturnKeeps(w: World, id: nat, outcome: Outcome)
    requires WorldInv(w) && id in w.tasks && w.tasks[id].stage.Executing?
    requires match w.tasks[id].stage.saved
             case Some(change) => outcome == Done(change)
             case None => outcome.Done? ==> outcome.change.modification.None?
    ensures WorldInv(ReturnTask(w, id, outcome))
  {
    var w' := ReturnTask(w, id, outcome);
    assert TaskInv(w, id);
    assert w.executing == w'.executing + {id};
    SameCount(w, id, Returned(outcome));
    AccountedKept(w, w');
    forall i | i in w'.tasks ensures TaskInv(w', i) { assert TaskInv(w, i); }
  }

  lemma TaskSendKeeps(w: World, id: nat)
    requires WorldInv(w) && id in w.tasks && w.tasks[id].stage.Returned? && w.sending.None?
    ensures WorldInv(SendTask(w, id))
  {
    var w' := SendTask(w, id);
    assert TaskInv(w, id);
    SameCount(w, id, Sent(false));
    AccountedKept(w, w');
    forall i | i in w'.tasks ensures TaskInv(w', i) { assert TaskInv(w, i); }
  }

  lemma CloserKeeps(w: World)
    requires WorldInv(w) && w.closerPending && w.running == 0 && w.sending.None?
    ensures WorldInv(SendClosing(w))
  {
    assert w.tasks == map[];
    AccountedKept(w, SendClosing(w));
  }

  /** What a broadcast changes. */
  ghost predicate IsBroadcast(w: World, w': World) {
    && w.sending.Some?
    && w' == w.(log := w.log + [w.sending.value.publication], sending := None,
                unsent := w'.unsent, at := w'.at, tasks := w'.tasks)
    && (forall n | n in w'.unsent :: n in w.unsent && w'.unsent[n] == w.unsent[n] && !Carries(w.sending.value.publication, n))
    && (forall n | n in w.unsent && !Carries(w.sending.value.publication, n) :: n in w'.unsent && w'.unsent[n] == w.unsent[n])
    && (forall n | n in w'.at :: if Carries(w.sending.value.publication, n) then w'.at[n] == |w.log| else n in w.at && w'.at[n] == w.at[n])
    && (forall n: nat | n in w.at || Carries(w.sending.value.publication, n) :: n in w'.at)
    && SentTasks(w.tasks, w'.tasks, w.sending.value.owner)
  }

  /** The sender's own task, if it is one, may now be dropped. */
  ghost predicate SentTasks(tasks: map<nat, Task>, tasks': map<nat, Task>, owner: Owner) {
    && tasks'.Keys == tasks.Keys
    && (forall id | id in tasks ::
          tasks'[id] == if owner == ByTask(id) then tasks[id].(stage := Sent(true)) else tasks[id])
  }

  lemma BroadcastShape(w: World)
    requires w.sending.Some?
    ensures IsBroadcast(w, Broadcast(w))
  {
    var w' := Broadcast(w);
    LandedShape(w);
    assert w' == Landed(w).(tasks := w'.tasks);
    assert SentTasks(w.tasks, w'.tasks, w.sending.value.owner);
  }

  lemma LandedShape(w: World)
    requires w.sending.Some?
    ensures var w' := Landed(w); var p := w.sending.value.publication;
            && w' == w.(log := w.log + [p], sending := None, unsent := w'.unsent, at := w'.at)
            && (forall n | n in w'.unsent :: n in w.unsent && w'.unsent[n] == w.unsent[n] && !Carries(p, n))
            && (forall n | n in w.unsent && !Carries(p, n) :: n in w'.unsent && w'.unsent[n] == w.unsent[n])
            && (forall n | n in w'.at :: if Carries(p, n) then w'.at[n] == |w.log| else n in w.at && w'.at[n] == w.at[n])
            && (forall n: nat | n in w.at || Carries(p, n) :: n in w'.at)
  {}

  /** A modification no publication in the log carries is added with its place. */
  lemma BroadcastAccounted(w: World, w': World)
    requires Accounted(w) && IsBroadcast(w, w')
    ensures Accounted(w')
  {
    forall i | 0 <= i < |w'.log| ensures InLog(w', i) {
      assert i < |w.log| ==> w'.log[i] == w.log[i] && InLog(w, i);
    }
    forall n | n in w'.at
      ensures 0 < n <= |w'.made| && w'.at[n] < |w'.log| && Carries(w'.log[w'.at[n]], n)
    {
      assert n in w.at ==> w'.log[w.at[n]] == w.log[w.at[n]];
    }
  }

  lemma BroadcastTask(w: World, w': World, id: nat)
    requires id in w.tasks && TaskInv(w, id) && SendingTask(w) && IsBroadcast(w, w')
    requires Held(w, Carried(w.sending.value.publication), w.sending.value.owner)
    ensures TaskInv(w', id)
  {}

  lemma BroadcastTasks(w: World, w': World)
    requires Accounted(w) && Tasks(w) && IsBroadcast(w, w')
    ensures Tasks(w')
  {
    assert |w'.tasks| == |w'.tasks.Keys| && |w.tasks| == |w.tasks.Keys|;
    forall id | id in w'.tasks ensures TaskInv(w', id) { BroadcastTask(w, w', id); }
  }

  lemma BroadcastQuiet(w: World, w': World)
    requires Numbered(w) && Quiet(w) && IsBroadcast(w, w')
    ensures Numbered(w') && Quiet(w')
  {
    assert w.tasks == map[] ==> w'.tasks.Keys == {};
  }

  lemma BroadcastKeeps(w: World, w': World)
    requires WorldInv(w) && IsBroadcast(w, w')
    ensures WorldInv(w')
  {
    BroadcastAccounted(w, w');
    BroadcastTasks(w, w');
    BroadcastQuiet(w, w');
  }
}
