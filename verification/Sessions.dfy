/**
 * The cache of client sessions under concurrent Get and remove calls. Each
 * call is a thread that takes the steps of the source between its lock
 * operations; a session's own goroutines are threads that call remove.
 */
module Sessions {
  import opened Wrappers

  type Id = string
  type Handle = nat  // of a session; each call of Get that gets far enough makes one

  datatype Session = Session(id: Id, cancelled: bool, stopped: bool)

  /** Where a call of Get stands. `sn` is the session it made. */
  datatype Call =
    | Looking(id: Id)
    | Building(id: Id)
    | Built(id: Id, sn: Handle)
    | Syncing(id: Id, sn: Handle)
    | Failing(id: Id)              // about to remove after a failed sync
    | Returned(id: Id, client: Handle)
    | Failed(id: Id)

  /**
   * `past` is the history of the active map, one entry per step, and
   * `started` says from which entry on each call was under way.
   */
  datatype State = State(
    active: map<Id, Handle>,
    sessions: map<Handle, Session>,
    calls: seq<Call>,
    started: seq<nat>,
    past: seq<map<Id, Handle>>)

  datatype Step =
    | Begin(id: Id)              // somebody calls Get
    | Look(c: nat)               // the lookup under the read lock
    | Make(c: nat, sn: Handle)   // cache, client, context and ticker are made
    | GiveUp(c: nat)             // one of them could not be made
    | Claim(c: nat)              // the second lookup, and the insertion, under the lock
    | Synced(c: nat, ok: bool)
    | RemoveAfterSync(c: nat)
    | Remove(id: Id)             // remove(id) by a goroutine of a session of that id

  const INIT := State(map[], map[], [], [], [map[]])

  predicate Enabled(s: State, e: Step) {
    match e
    case Begin(_) => true
    case Look(c) => c < |s.calls| && s.calls[c].Looking?
    case Make(c, sn) => c < |s.calls| && s.calls[c].Building? && sn !in s.sessions
    case GiveUp(c) => c < |s.calls| && s.calls[c].Building?
    case Claim(c) => c < |s.calls| && s.calls[c].Built?
    case Synced(c, _) => c < |s.calls| && s.calls[c].Syncing?
    case RemoveAfterSync(c) => c < |s.calls| && s.calls[c].Failing?
    case Remove(_) => true
  }

  /** remove(id): whatever session is active under the id is cancelled, stopped and forgotten. */
  function Removed(s: State, id: Id): State {
    if id in s.active && s.active[id] in s.sessions then
      var sn := s.active[id];
      s.(active := s.active - {id}, sessions := s.sessions[sn := s.sessions[sn].(cancelled := true, stopped := true)])
    else s
  }

  function SetCall(s: State, c: nat, v: Call): State
    requires c < |s.calls|
  {
    s.(calls := s.calls[c := v])
  }

  function Effect(s: State, e: Step): State
    requires Enabled(s, e)
  {
    match e
    case Begin(id) => s.(calls := s.calls + [Looking(id)], started := s.started + [|s.past|])
    case Look(c) =>
      var id := s.calls[c].id;
      SetCall(s, c, if id in s.active then Returned(id, s.active[id]) else Building(id))
    case Make(c, sn) =>
      SetCall(s, c, Built(s.calls[c].id, sn)).(sessions := s.sessions[sn := Session(s.calls[c].id, false, false)])
    case GiveUp(c) => SetCall(s, c, Failed(s.calls[c].id))
    case Claim(c) =>
      var id := s.calls[c].id;
      if id in s.active then SetCall(s, c, Returned(id, s.active[id]))
      else SetCall(s, c, Syncing(id, s.calls[c].sn)).(active := s.active[id := s.calls[c].sn])
    case Synced(c, ok) =>
      SetCall(s, c, if ok then Returned(s.calls[c].id, s.calls[c].sn) else Failing(s.calls[c].id))
    case RemoveAfterSync(c) => SetCall(Removed(s, s.calls[c].id), c, Failed(s.calls[c].id))
    case Remove(id) => Removed(s, id)
  }

  function Next(s: State, e: Step): State
    requires Enabled(s, e)
  {
    var s' := Effect(s, e);
    s'.(past := s'.past + [s'.active])
  }

  // ----- What every interleaving keeps -----

  predicate IsActive(active: map<Id, Handle>, id: Id, sn: Handle) {
    id in active && active[id] == sn
  }

  /** Session `sn` was the active one of `id` at some moment from entry `from` on. */
  ghost predicate WasActive(past: seq<map<Id, Handle>>, from: nat, id: Id, sn: Handle) {
    exists i :: from <= i < |past| && IsActive(past[i], id, sn)
  }

  ghost predicate CallInv(s: State, c: Call, from: nat) {
    match c
    case Built(id, sn) =>
      && sn in s.sessions && s.sessions[sn].id == id
      && forall id' :: !WasActive(s.past, 0, id', sn)
    case Syncing(id, sn) => WasActive(s.past, from, id, sn)
    case Returned(id, sn) => WasActive(s.past, from, id, sn)
    case _ => true
  }

  ghost predicate CallsInv(s: State) {
    && s.past != [] && s.past[|s.past| - 1] == s.active
    && |s.started| == |s.calls|
    && (forall c :: 0 <= c < |s.calls| ==> s.started[c] < |s.past| && CallInv(s, s.calls[c], s.started[c]))
    && (forall c, d :: 0 <= c < d < |s.calls| && s.calls[c].Built? && s.calls[d].Built? ==>
          s.calls[c].sn != s.calls[d].sn)
  }

  /** What the fields of a session say about its past. */
  ghost predicate SessionInv(s: State, sn: Handle)
    requires sn in s.sessions
  {
    var x := s.sessions[sn];
    && x.cancelled == x.stopped
    && (x.cancelled <==> WasActive(s.past, 0, x.id, sn) && !IsActive(s.active, x.id, sn))
  }

  /**
   * Active sessions run, sessions that were active and no longer are have
   * been cancelled and stopped, and no others have.
   */
  ghost predicate SessionsInv(s: State) {
    && (forall id :: id in s.active ==> s.active[id] in s.sessions && s.sessions[s.active[id]].id == id)
    && (forall sn :: sn in s.sessions ==> SessionInv(s, sn))
    && (forall id, sn :: WasActive(s.past, 0, id, sn) ==> sn in s.sessions && s.sessions[sn].id == id)
  }

  ghost predicate Inv(s: State) {
    CallsInv(s) && SessionsInv(s)
  }

  lemma InitInv()
    ensures Inv(INIT)
  {
  }

  lemma PastGrows(past: seq<map<Id, Handle>>, now: map<Id, Handle>, from: nat, id: Id, sn: Handle)
    requires from <= |past|
    ensures WasActive(past + [now], from, id, sn) <==> WasActive(past, from, id, sn) || IsActive(now, id, sn)
  {
    var p := past + [now];
    if WasActive(p, from, id, sn) {
      var i :| from <= i < |p| && IsActive(p[i], id, sn);
      if i < |past| { assert IsActive(past[i], id, sn); }
    }
    if WasActive(past, from, id, sn) {
      var i :| from <= i < |past| && IsActive(past[i], id, sn);
      assert IsActive(p[i], id, sn);
    }
    if IsActive(now, id, sn) { assert IsActive(p[|past|], id, sn); }
  }

  /** What was active before or after a step, in terms of the histories. */
  lemma HistoryStep(s: State, e: Step)
    requires CallsInv(s) && Enabled(s, e)
    ensures forall from: nat, id, sn {:trigger WasActive(Next(s, e).past, from, id, sn)} :: from <= |s.past| ==>
              (WasActive(Next(s, e).past, from, id, sn) <==>
               WasActive(s.past, from, id, sn) || IsActive(Next(s, e).active, id, sn))
    ensures forall id, sn :: IsActive(s.active, id, sn) ==> WasActive(s.past, 0, id, sn)
  {
    var s' := Next(s, e);
    forall from: nat, id, sn | from <= |s.past|
      ensures WasActive(s'.past, from, id, sn) <==> WasActive(s.past, from, id, sn) || IsActive(s'.active, id, sn)
    {
      PastGrows(s.past, s'.active, from, id, sn);
    }
    forall id, sn | IsActive(s.active, id, sn) ensures WasActive(s.past, 0, id, sn) {
      assert IsActive(s.past[|s.past| - 1], id, sn);
    }
  }

  /** Only a claim makes a session active. */
  lemma OnlyClaimActivates(s: State, e: Step, id: Id, sn: Handle)
    requires Inv(s) && Enabled(s, e) && IsActive(Next(s, e).active, id, sn)
    ensures IsActive(s.active, id, sn) ||
            (e.Claim? && id !in s.active && id == s.calls[e.c].id && sn == s.calls[e.c].sn)
  {
  }

  lemma StepSession(s: State, e: Step, sn: Handle)
    requires Inv(s) && Enabled(s, e) && sn in Next(s, e).sessions
    ensures SessionInv(Next(s, e), sn)
  {
    HistoryStep(s, e);
    var s' := Next(s, e);
    var id := s'.sessions[sn].id;
    if IsActive(s'.active, id, sn) {
      OnlyClaimActivates(s, e, id, sn);
    }
    if sn in s.sessions {
      assert SessionInv(s, sn);
    }
  }

  /** What is active after a step was active before it, or is what a claim just made. */
  lemma StepActive(s: State, e: Step, id: Id, sn: Handle)
    requires Inv(s) && Enabled(s, e) && IsActive(Next(s, e).active, id, sn)
    ensures sn in Next(s, e).sessions && Next(s, e).sessions[sn].id == id
  {
    OnlyClaimActivates(s, e, id, sn);
    if e.Claim? {
      assert CallInv(s, s.calls[e.c], s.started[e.c]);
    }
  }

  lemma StepSessions(s: State, e: Step)
    requires Inv(s) && Enabled(s, e)
    ensures SessionsInv(Next(s, e))
  {
    var s' := Next(s, e);
    forall sn | sn in s'.sessions ensures SessionInv(s', sn) {
      StepSession(s, e, sn);
    }
    forall id, sn | IsActive(s'.active, id, sn) ensures sn in s'.sessions && s'.sessions[sn].id == id {
      StepActive(s, e, id, sn);
    }
    forall id, sn | WasActive(s'.past, 0, id, sn) ensures sn in s'.sessions && s'.sessions[sn].id == id {
      StepPast(s, e, id, sn);
    }
  }

  lemma StepPast(s: State, e: Step, id: Id, sn: Handle)
    requires Inv(s) && Enabled(s, e) && WasActive(Next(s, e).past, 0, id, sn)
    ensures sn in Next(s, e).sessions && Next(s, e).sessions[sn].id == id
  {
    PastGrows(s.past, Next(s, e).active, 0, id, sn);
    if IsActive(Next(s, e).active, id, sn) {
      StepActive(s, e, id, sn);
    }
  }

  /** A call the step does not move keeps what is known of it. */
  lemma StepOtherCall(s: State, e: Step, c: nat)
    requires Inv(s) && Enabled(s, e) && c < |s.calls| && Next(s, e).calls[c] == s.calls[c]
    requires e.Claim? ==> e.c != c
    ensures CallInv(Next(s, e), s.calls[c], s.started[c])
  {
    HistoryStep(s, e);
    var s' := Next(s, e);
    if s.calls[c].Built? {
      forall id' | IsActive(s'.active, id', s.calls[c].sn) ensures false {
        OnlyClaimActivates(s, e, id', s.calls[c].sn);
      }
    }
  }

  lemma StepOwnCall(s: State, e: Step, c: nat)
    requires Inv(s) && Enabled(s, e) && c < |s.calls| && Next(s, e).calls[c] != s.calls[c]
    ensures CallInv(Next(s, e), Next(s, e).calls[c], s.started[c])
  {
    HistoryStep(s, e);
    var s' := Next(s, e);
    match s'.calls[c] {
      case Returned(id, sn) => assert IsActive(s'.active, id, sn) || WasActive(s.past, s.started[c], id, sn);
      case Syncing(id, sn) => assert IsActive(s'.active, id, sn);
      case _ =>
    }
  }

  lemma StepCalls(s: State, e: Step)
    requires Inv(s) && Enabled(s, e)
    ensures CallsInv(Next(s, e))
  {
    var s' := Next(s, e);
    forall c | 0 <= c < |s'.calls|
      ensures s'.started[c] < |s'.past| && CallInv(s', s'.calls[c], s'.started[c])
    {
      if c < |s.calls| {
        if s'.calls[c] == s.calls[c] {
          StepOtherCall(s, e, c);
        } else {
          StepOwnCall(s, e, c);
        }
      }
    }
  }

  lemma StepInv(s: State, e: Step)
    requires Inv(s) && Enabled(s, e)
    ensures Inv(Next(s, e))
  {
    StepSessions(s, e);
    StepCalls(s, e);
  }

  // ----- Runs -----

  ghost predicate IsRun(steps: seq<Step>)
    decreases |steps|, 0
  {
    steps == [] ||
    (IsRun(steps[..|steps| - 1]) && Enabled(After(steps[..|steps| - 1]), steps[|steps| - 1]))
  }

  ghost function After(steps: seq<Step>): State
    requires IsRun(steps)
    decreases |steps|, 1
  {
    if steps == [] then INIT else Next(After(steps[..|steps| - 1]), steps[|steps| - 1])
  }

  /** In every interleaving of any number of calls. */
  lemma {:induction false} RunInv(steps: seq<Step>)
    requires IsRun(steps)
    ensures Inv(After(steps))
    decreases |steps|
  {
    if steps != [] {
      RunInv(steps[..|steps| - 1]);
      StepInv(After(steps[..|steps| - 1]), steps[|steps| - 1]);
    }
  }

  /** A step adds the map after it to the history, and keeps which call is which. */
  lemma StepHistory(s: State, e: Step)
    requires Enabled(s, e) && |s.started| == |s.calls|
    ensures var s' := Next(s, e);
            && s'.past == s.past + [s'.active] && |s'.started| == |s'.calls|
            && |s.calls| <= |s'.calls| <= |s.calls| + 1 && s.started <= s'.started
            && (forall c :: 0 <= c < |s.calls| ==> s'.calls[c].id == s.calls[c].id)
            && (|s'.calls| > |s.calls| ==>
                  e == Begin(s'.calls[|s.calls|].id) && s'.started == s.started + [|s.past|])
  {
  }

  /** What the history says: the map after every step, and for every call the step that began it. */
  lemma {:induction false} HistoryMeaning(steps: seq<Step>)
    requires IsRun(steps)
    ensures |After(steps).past| == |steps| + 1 && After(steps).past[|steps|] == After(steps).active
    ensures |After(steps).started| == |After(steps).calls|
    ensures forall c :: 0 <= c < |After(steps).calls| ==>
              BeganAt(steps, After(steps).started[c], After(steps).calls[c].id)
    ensures forall c, d :: 0 <= c < d < |After(steps).calls| ==> After(steps).started[c] < After(steps).started[d]
    decreases |steps|
  {
    if steps != [] {
      var pre, e := steps[..|steps| - 1], steps[|steps| - 1];
      HistoryMeaning(pre);
      var s, s' := After(pre), Next(After(pre), e);
      StepHistory(s, e);
      assert After(steps) == s';
      forall c | 0 <= c < |s'.calls| ensures BeganAt(steps, s'.started[c], s'.calls[c].id) {
        if c < |s.calls| {
          assert BeganAt(pre, s.started[c], s.calls[c].id) && s'.started[c] == s.started[c];
          assert steps[s.started[c] - 1] == pre[s.started[c] - 1];
        }
      }
    }
  }

  /** The call begins with step `n - 1`, so the maps from entry `n` on are of its time. */
  predicate BeganAt(steps: seq<Step>, n: nat, id: Id) {
    0 < n <= |steps| && steps[n - 1] == Begin(id)
  }

  lemma {:induction false} PastIsActive(steps: seq<Step>, n: nat)
    requires IsRun(steps) && n <= |steps|
    ensures IsRun(steps[..n]) && n < |After(steps).past| && After(steps).past[n] == After(steps[..n]).active
    decreases |steps|
  {
    HistoryMeaning(steps);
    if n == |steps| {
      assert steps[..n] == steps;
    } else {
      PastIsActive(steps[..|steps| - 1], n);
      HistoryMeaning(steps[..|steps| - 1]);
      StepHistory(After(steps[..|steps| - 1]), steps[|steps| - 1]);
      assert steps[..|steps| - 1][..n] == steps[..n];
    }
  }

  /** The session was active under the id after one of the steps from the `from`-th on. */
  ghost predicate ActiveDuring(steps: seq<Step>, from: nat, id: Id, sn: Handle)
    requires IsRun(steps)
  {
    exists n :: from <= n <= |steps| && IsRun(steps[..n]) && IsActive(After(steps[..n]).active, id, sn)
  }

  /** A successful Get returns a session that was the active one of its id at some moment of the call. */
  lemma GetReturnsActive(steps: seq<Step>, c: nat)
    requires IsRun(steps) && c < |After(steps).calls| && After(steps).calls[c].Returned?
    ensures var s := After(steps);
            && c < |s.started| && BeganAt(steps, s.started[c], s.calls[c].id)
            && WasActive(s.past, s.started[c], s.calls[c].id, s.calls[c].client)
            && ActiveDuring(steps, s.started[c], s.calls[c].id, s.calls[c].client)
  {
    RunInv(steps);
    HistoryMeaning(steps);
    var s := After(steps);
    assert CallInv(s, s.calls[c], s.started[c]);
    var n :| s.started[c] <= n < |s.past| && IsActive(s.past[n], s.calls[c].id, s.calls[c].client);
    PastIsActive(steps, n);
  }

  /** Active sessions run, and sessions that stopped being active were cancelled and stopped. */
  lemma ActiveSessionsRun(steps: seq<Step>, id: Id, sn: Handle)
    requires IsRun(steps)
    ensures var s := After(steps);
            && (IsActive(s.active, id, sn) ==> sn in s.sessions && s.sessions[sn] == Session(id, false, false))
            && (WasActive(s.past, 0, id, sn) && !IsActive(s.active, id, sn) ==>
                  sn in s.sessions && s.sessions[sn] == Session(id, true, true))
  {
    RunInv(steps);
    var s := After(steps);
    if IsActive(s.active, id, sn) {
      assert IsActive(s.past[|s.past| - 1], id, sn);
      assert SessionInv(s, sn);
    }
    if WasActive(s.past, 0, id, sn) {
      assert SessionInv(s, sn);
    }
  }

  /** An entry is never overwritten: it stays, or it is removed and its session stopped. */
  lemma EntriesAreNotOverwritten(s: State, e: Step, id: Id)
    requires Inv(s) && Enabled(s, e) && id in s.active
    ensures var s' := Next(s, e);
            if id in s'.active then s'.active[id] == s.active[id]
            else s'.sessions[s.active[id]].cancelled && s'.sessions[s.active[id]].stopped
  {
  }

  // ----- Removal -----

  /** Afterwards no session is active under the id; the one that was is cancelled and stopped; all else is as before. */
  ghost predicate Forgets(active: map<Id, Handle>, sessions: map<Handle, Session>,
                          active': map<Id, Handle>, sessions': map<Handle, Session>, id: Id) {
    && id !in active'
    && (forall i :: i != id ==> (i in active' <==> i in active))
    && (forall i :: i in active' ==> i in active && active'[i] == active[i])
    && sessions'.Keys == sessions.Keys
    && (forall sn :: sn in sessions ==>
          sessions'[sn] ==
          if IsActive(active, id, sn) then Session(sessions[sn].id, true, true) else sessions[sn])
  }

  /** The step removes `id`: by a goroutine of a session, or after a failed sync. */
  predicate Removes(s: State, e: Step, id: Id)
    requires Enabled(s, e)
  {
    e == Remove(id) || (e.RemoveAfterSync? && s.calls[e.c].id == id)
  }

  lemma RemovedForgets(s: State, id: Id)
    requires SessionsInv(s)
    ensures Forgets(s.active, s.sessions, Removed(s, id).active, Removed(s, id).sessions, id)
    ensures Removed(s, id).calls == s.calls
  {
  }

  /** In every interleaving a removal ends whatever session is active under the id, and no other. */
  lemma RemovalForgets(steps: seq<Step>, e: Step, id: Id)
    requires IsRun(steps) && Enabled(After(steps), e) && Removes(After(steps), e, id)
    ensures var s, s' := After(steps), Next(After(steps), e);
            && Forgets(s.active, s.sessions, s'.active, s'.sessions, id)
            && (e.RemoveAfterSync? ==> s'.calls[e.c] == Failed(id))
  {
    RunInv(steps);
    RemovedForgets(After(steps), id);
  }

  /** Nothing else ends a session. */
  lemma OnlyRemovalEnds(s: State, e: Step, id: Id)
    requires Inv(s) && Enabled(s, e) && id in s.active && !Removes(s, e, id)
    ensures IsActive(Next(s, e).active, id, s.active[id])
    ensures s.active[id] in s.sessions && s.active[id] in Next(s, e).sessions
    ensures Next(s, e).sessions[s.active[id]] == s.sessions[s.active[id]]
  {
  }

  // ----- How calls end -----

  /** The first lookup: a session that is active is returned and no other is made. */
  lemma LookupFinds(steps: seq<Step>, c: nat)
    requires IsRun(steps) && Enabled(After(steps), Look(c))
    ensures var s, s' := After(steps), Next(After(steps), Look(c));
            && s'.active == s.active && s'.sessions == s.sessions
            && (s.calls[c].id in s.active ==>
                  s'.calls[c].Returned? && IsActive(s.active, s.calls[c].id, s'.calls[c].client))
            && (s.calls[c].id !in s.active ==> forall sn :: sn !in s.sessions ==> Enabled(s', Make(c, sn)))
  {
  }

  predicate Ended(c: Call) {
    c.Returned? || c.Failed?
  }

  /** A call that has ended stays as it is. */
  lemma EndedStays(s: State, e: Step, c: nat)
    requires Enabled(s, e) && c < |s.calls| && Ended(s.calls[c])
    ensures c < |Next(s, e).calls| && Next(s, e).calls[c] == s.calls[c]
  {
  }

  /**
   * In every interleaving: a call whose cache synced returns the session it
   * made, one whose cache did not sync fails, and so does one that could not
   * make what it needed.
   */
  lemma {:induction false} CallOutcomes(steps: seq<Step>, c: nat)
    requires IsRun(steps)
    ensures c < |After(steps).calls| && (After(steps).calls[c].Built? || After(steps).calls[c].Syncing?) ==>
              Make(c, After(steps).calls[c].sn) in steps
    ensures Synced(c, true) in steps ==>
              c < |After(steps).calls| && After(steps).calls[c].Returned? &&
              Make(c, After(steps).calls[c].client) in steps
    ensures Synced(c, false) in steps ==>
              c < |After(steps).calls| && (After(steps).calls[c].Failing? || After(steps).calls[c].Failed?)
    ensures GiveUp(c) in steps ==> c < |After(steps).calls| && After(steps).calls[c].Failed?
    decreases |steps|
  {
    if steps != [] {
      var pre, e := steps[..|steps| - 1], steps[|steps| - 1];
      assert steps == pre + [e];
      CallOutcomes(pre, c);
      if c < |After(pre).calls| && Ended(After(pre).calls[c]) {
        EndedStays(After(pre), e, c);
      }
    }
  }

  // ----- The session of the call that loses the race -----

  /** A session that was never active and that no call can still claim. */
  ghost predicate Orphan(s: State, sn: Handle) {
    && sn in s.sessions
    && (forall id :: !WasActive(s.past, 0, id, sn))
    && (forall c :: 0 <= c < |s.calls| ==> !Holds(s.calls[c], sn))
  }

  predicate Holds(c: Call, sn: Handle) {
    c.Built? && c.sn == sn
  }

  /**
   * A claim leaves the session just made an orphan exactly if the id was
   * taken, and then the call returns the session that has it.
   */
  lemma ClaimOrphansIff(s: State, c: nat)
    requires Inv(s) && Enabled(s, Claim(c))
    ensures Orphan(Next(s, Claim(c)), s.calls[c].sn) <==> s.calls[c].id in s.active
    ensures s.calls[c].id in s.active ==>
              Next(s, Claim(c)).calls[c] == Returned(s.calls[c].id, s.active[s.calls[c].id])
  {
    HistoryStep(s, Claim(c));
    var s' := Next(s, Claim(c));
    if s.calls[c].id !in s.active {
      assert IsActive(s'.active, s.calls[c].id, s.calls[c].sn);
      assert WasActive(s'.past, 0, s.calls[c].id, s.calls[c].sn);
    }
  }

  lemma OrphanStep(s: State, e: Step, sn: Handle)
    requires Inv(s) && Enabled(s, e) && Orphan(s, sn)
    ensures Orphan(Next(s, e), sn)
    ensures !Next(s, e).sessions[sn].cancelled && !Next(s, e).sessions[sn].stopped
  {
    HistoryStep(s, e);
    var s' := Next(s, e);
    forall id ensures !IsActive(s'.active, id, sn) {
      if IsActive(s'.active, id, sn) {
        OnlyClaimActivates(s, e, id, sn);
      }
    }
    StepSessions(s, e);
    assert SessionInv(s', sn);
  }

  /** Nothing that happens later cancels an orphan or stops its ticker. */
  lemma {:induction false} OrphanIsNeverStopped(steps: seq<Step>, more: seq<Step>, sn: Handle)
    requires IsRun(steps) && IsRun(steps + more) && Orphan(After(steps), sn)
    ensures Orphan(After(steps + more), sn)
    ensures !After(steps + more).sessions[sn].cancelled && !After(steps + more).sessions[sn].stopped
    decreases |more|
  {
    if more == [] {
      assert steps + more == steps;
      RunInv(steps);
      assert SessionInv(After(steps), sn);
    } else {
      var pre := more[..|more| - 1];
      assert (steps + more)[..|steps + more| - 1] == steps + pre;
      OrphanIsNeverStopped(steps, pre, sn);
      RunInv(steps + pre);
      OrphanStep(After(steps + pre), more[|more| - 1], sn);
    }
  }

  // ----- What becomes of every session -----

  /** The step is a claim of `sn` that finds the id taken. */
  predicate Loses(s: State, e: Step, sn: Handle)
    requires Enabled(s, e)
  {
    e.Claim? && s.calls[e.c].sn == sn && s.calls[e.c].id in s.active
  }

  ghost predicate LostClaim(steps: seq<Step>, sn: Handle)
    requires IsRun(steps)
    decreases |steps|
  {
    steps != [] &&
    (LostClaim(steps[..|steps| - 1], sn) || Loses(After(steps[..|steps| - 1]), steps[|steps| - 1], sn))
  }

  /** Becoming an orphan takes a lost claim. */
  lemma NewOrphanLost(s: State, e: Step, sn: Handle)
    requires Inv(s) && Enabled(s, e) && Orphan(Next(s, e), sn) && !Orphan(s, sn)
    ensures Loses(s, e, sn)
  {
    HistoryStep(s, e);
    var s' := Next(s, e);
    forall id ensures !WasActive(s.past, 0, id, sn) {
      assert !WasActive(s'.past, 0, id, sn);
    }
    if sn !in s.sessions {
      assert Holds(s'.calls[e.c], sn);
      assert false;
    } else {
      var c :| 0 <= c < |s.calls| && Holds(s.calls[c], sn);
      assert !Holds(s'.calls[c], sn);
      assert e == Claim(c);
      ClaimOrphansIff(s, c);
    }
  }

  /** In every interleaving the orphans are exactly the sessions of the calls that lost the race. */
  lemma {:induction false} OrphanIffLostClaim(steps: seq<Step>, sn: Handle)
    requires IsRun(steps)
    ensures Orphan(After(steps), sn) <==> LostClaim(steps, sn)
    decreases |steps|
  {
    if steps != [] {
      var pre, e := steps[..|steps| - 1], steps[|steps| - 1];
      OrphanIffLostClaim(pre, sn);
      RunInv(pre);
      if Orphan(After(pre), sn) {
        OrphanStep(After(pre), e, sn);
      } else if Orphan(After(steps), sn) {
        NewOrphanLost(After(pre), e, sn);
      }
      if Loses(After(pre), e, sn) {
        ClaimOrphansIff(After(pre), e.c);
      }
    }
  }

  ghost predicate HeldByCall(s: State, sn: Handle) {
    exists c :: 0 <= c < |s.calls| && Holds(s.calls[c], sn)
  }

  lemma HeldWasNotActive(s: State, sn: Handle, id: Id)
    requires Inv(s) && HeldByCall(s, sn)
    ensures !WasActive(s.past, 0, id, sn)
  {
    var c :| 0 <= c < |s.calls| && Holds(s.calls[c], sn);
    assert CallInv(s, s.calls[c], s.started[c]);
  }

  lemma NeverActive(s: State, sn: Handle)
    requires Inv(s) && sn in s.sessions
    ensures !WasActive(s.past, 0, s.sessions[sn].id, sn) <==> HeldByCall(s, sn) || Orphan(s, sn)
  {
    var id := s.sessions[sn].id;
    if HeldByCall(s, sn) {
      HeldWasNotActive(s, sn, id);
    }
    if !WasActive(s.past, 0, id, sn) && !HeldByCall(s, sn) {
      forall id' ensures !WasActive(s.past, 0, id', sn) {
        assert WasActive(s.past, 0, id', sn) ==> id' == id;
      }
    }
  }

  /**
   * In every interleaving each session runs or was cancelled and stopped. It
   * was stopped exactly if it was once active and no longer is, and one that
   * runs is held by a call about to claim, or active, or was left behind by a
   * call that lost the race.
   */
  lemma EverySession(steps: seq<Step>, sn: Handle)
    requires IsRun(steps) && sn in After(steps).sessions
    ensures var s := After(steps);
            var x := s.sessions[sn];
            && x.cancelled == x.stopped
            && (x.cancelled <==> WasActive(s.past, 0, x.id, sn) && !IsActive(s.active, x.id, sn))
            && (!x.cancelled <==> HeldByCall(s, sn) || IsActive(s.active, x.id, sn) || LostClaim(steps, sn))
            && !(HeldByCall(s, sn) && IsActive(s.active, x.id, sn)) && !(HeldByCall(s, sn) && LostClaim(steps, sn))
            && !(IsActive(s.active, x.id, sn) && LostClaim(steps, sn))
  {
    RunInv(steps);
    OrphanIffLostClaim(steps, sn);
    NeverActive(After(steps), sn);
    var s := After(steps);
    assert SessionInv(s, sn);
    assert IsActive(s.active, s.sessions[sn].id, sn) ==> WasActive(s.past, 0, s.sessions[sn].id, sn) by {
      assert s.past[|s.past| - 1] == s.active;
    }
    assert Orphan(s, sn) ==> !HeldByCall(s, sn);
  }

  // ----- Two calls that race -----

  lemma RunSnoc(steps: seq<Step>, e: Step)
    requires IsRun(steps) && Enabled(After(steps), e)
    ensures IsRun(steps + [e]) && After(steps + [e]) == Next(After(steps), e)
  {
    assert (steps + [e])[..|steps|] == steps;
  }

  /** Both look before either has inserted, so each makes a session. */
  function Race(id: Id): seq<Step> {
    [Begin(id)] + [Begin(id)] + [Look(0)] + [Look(1)] + [Make(0, 10)] + [Make(1, 11)] + [Claim(0)]
  }

  /** What the race has come to, apart from the history. */
  predicate RaceAt(s: State, calls: seq<Call>, sessions: set<Handle>, active: map<Id, Handle>) {
    s.calls == calls && s.sessions.Keys == sessions && s.active == active
  }

  lemma BothLook(id: Id)
    ensures var steps := [Begin(id)] + [Begin(id)] + [Look(0)] + [Look(1)];
            IsRun(steps) && RaceAt(After(steps), [Building(id), Building(id)], {}, map[])
  {
    assert [] + [Begin(id)] == [Begin(id)];
    RunSnoc([], Begin(id));
    RunSnoc([Begin(id)], Begin(id));
    RunSnoc([Begin(id)] + [Begin(id)], Look(0));
    RunSnoc([Begin(id)] + [Begin(id)] + [Look(0)], Look(1));
  }

  lemma BothMake(id: Id)
    ensures IsRun(Race(id))
    ensures RaceAt(After(Race(id)), [Syncing(id, 10), Built(id, 11)], {10, 11}, map[id := 10])
  {
    BothLook(id);
    var p4 := [Begin(id)] + [Begin(id)] + [Look(0)] + [Look(1)];
    RunSnoc(p4, Make(0, 10));
    RunSnoc(p4 + [Make(0, 10)], Make(1, 11));
    RunSnoc(p4 + [Make(0, 10)] + [Make(1, 11)], Claim(0));
  }

  /** Two calls for one id, and the session of the second is left running for good. */
  lemma RaceLeavesOrphan(id: Id)
    ensures var steps := Race(id) + [Claim(1)];
            && IsRun(steps) && LostClaim(steps, 11) && Orphan(After(steps), 11)
            && After(steps).calls[1] == Returned(id, 10)
  {
    BothMake(id);
    RunInv(Race(id));
    ClaimOrphansIff(After(Race(id)), 1);
    RunSnoc(Race(id), Claim(1));
    OrphanIffLostClaim(Race(id) + [Claim(1)], 11);
  }

  // ----- The map as an object -----

  class Cache {
    var active: map<Id, Handle>
    var sessions: map<Handle, Session>

    /** The lookup under the read lock. */
    method Lookup(id: Id) returns (sn: Option<Handle>)
      ensures sn.Some? <==> id in active
      ensures sn.Some? ==> IsActive(active, id, sn.value)
    {
      sn := if id in active then Some(active[id]) else None;
    }

    /** The second lookup and the insertion: the session that is active afterwards. */
    method Claim(id: Id, sn: Handle) returns (winner: Handle)
      modifies this`active
      ensures IsActive(active, id, winner)
      ensures active == if id in old(active) then old(active) else old(active)[id := sn]
    {
      if id in active {
        return active[id];
      }
      active := active[id := sn];
      winner := sn;
    }

    method Remove(id: Id)
      requires id in active ==> active[id] in sessions
      modifies this
      ensures Forgets(old(active), old(sessions), active, sessions, id)
    {
      if id in active {
        var sn := active[id];
        sessions := sessions[sn := sessions[sn].(cancelled := true)];
        sessions := sessions[sn := sessions[sn].(stopped := true)];
        active := active - {id};
      }
    }
  }
}
