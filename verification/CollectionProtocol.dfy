/**
The job protocol of the Done collection: starting, pausing, resuming, claiming, checkpointing,
finishing, crashing and recovering, in any interleaving (src/oa_knowledge/done_collection.py and
src/oa_knowledge/desktop_collection.py).

Each transaction that takes the write lock before it reads is one step. The clean-up of a
timed-out download reads the parameters before it holds the lock, so it is two steps.
*/
module CollectionProtocol {
  import opened Wrappers

  datatype Kind = Inventory | Download | Login | Review

  datatype Status = Queued | Running | Paused | AuthRequired | Completed | Failed

  /** The stored parameters: the pause flag, and everything else. */
  datatype Params = Params(pause: bool, body: nat)

  datatype Job = Job(kind: Kind, status: Status, params: Params, owner: Option<nat>)

  type Jobs = map<nat, Job>

  predicate Active(j: Job) {
    j.status in {Queued, Running}
  }

  predicate AnyActive(jobs: Jobs) {
    exists i :: i in jobs && Active(jobs[i])
  }

  predicate AnyOtherActive(jobs: Jobs, id: nat) {
    exists i :: i in jobs && i != id && Active(jobs[i])
  }

  predicate LatestOfKind(jobs: Jobs, kind: Kind, id: nat) {
    id in jobs && jobs[id].kind == kind && forall i :: i in jobs && jobs[i].kind == kind ==> i <= id
  }

  /** An unfinished job of the kind must be resumed, not replaced. */
  predicate Unfinished(jobs: Jobs, kind: Kind) {
    exists i :: i in jobs && LatestOfKind(jobs, kind, i) && jobs[i].status in {Paused, AuthRequired}
  }

  // --- the transactions ---

  function StartJob(jobs: Jobs, id: nat, kind: Kind, reserve: Option<nat>): Jobs {
    if AnyActive(jobs) || Unfinished(jobs, kind) then jobs
    else jobs[id := Job(kind, Queued, Params(false, 0), reserve)]
  }

  function PauseJob(jobs: Jobs, id: nat): Jobs {
    if id !in jobs then jobs
    else
      var j := jobs[id];
      var p := j.params.(pause := true);
      match j.status
      case Queued => jobs[id := j.(status := Paused, params := p, owner := None)]
      case Running => jobs[id := j.(params := p)]
      case _ => jobs
  }

  function ResumeJob(jobs: Jobs, id: nat, reserve: Option<nat>): Jobs {
    if id in jobs && jobs[id].status in {Paused, AuthRequired, Failed} && !AnyOtherActive(jobs, id) then
      jobs[id := jobs[id].(status := Queued, params := jobs[id].params.(pause := false), owner := reserve)]
    else jobs
  }

  predicate Abandoned(j: Job, dead: set<nat>) {
    j.owner.None? || j.owner.value in dead
  }

  predicate Claimable(j: Job, worker: nat, dead: set<nat>) {
    Active(j) && (Abandoned(j, dead) || (j.owner == Some(worker) && j.status != Running))
  }

  function ClaimJob(jobs: Jobs, id: nat, worker: nat, dead: set<nat>): Jobs {
    if id in jobs && Claimable(jobs[id], worker, dead)
      then jobs[id := jobs[id].(status := Running, owner := Some(worker))] else jobs
  }

  /** An inventory or download batch begins by pausing a job that is wanted paused. */
  predicate PausesFirst(j: Job) {
    j.params.pause && j.kind in {Inventory, Download}
  }

  /** The first write of a batch. A login looks at nothing before it; a review writes no status. */
  function BeginJob(jobs: Jobs, id: nat): Jobs {
    if id !in jobs || jobs[id].kind == Review then jobs
    else if PausesFirst(jobs[id]) then jobs[id := jobs[id].(status := Paused, owner := None)]
    else jobs[id := jobs[id].(status := Running)]
  }

  /** What the web worker looks for: a queued job that nobody holds, or that it holds itself, or whose lease is over. */
  predicate Eligible(j: Job, worker: nat, expired: bool) {
    j.status == Queued && (j.owner.None? || j.owner == Some(worker) || expired)
  }

  /** The web worker's claim: it writes itself as the owner and leaves the status. */
  function WebClaimJob(jobs: Jobs, id: nat, worker: nat): Jobs {
    if id in jobs then jobs[id := jobs[id].(owner := Some(worker))] else jobs
  }

  /** A checkpoint or heartbeat: new parameters, with the pause flag read in the same transaction. */
  function CheckpointJob(jobs: Jobs, id: nat, body: nat): Jobs {
    if id !in jobs then jobs else jobs[id := jobs[id].(params := Params(jobs[id].params.pause, body))]
  }

  /** The clean-up write of a timed-out download: parameters read earlier, put back changed. */
  function CleanUpJob(jobs: Jobs, id: nat, read: Params, body: nat): Jobs {
    if id !in jobs then jobs else jobs[id := jobs[id].(params := read.(body := body))]
  }

  function FinishJob(jobs: Jobs, id: nat, wanted: Status): Jobs {
    if id !in jobs then jobs
    else
      var j := jobs[id];
      var status := if wanted == Queued && j.params.pause then Paused else wanted;
      jobs[id := j.(status := status, owner := if status == Queued then j.owner else None)]
  }

  /** A maintenance pass takes back what a dead worker held. */
  function RecoverJob(jobs: Jobs, id: nat, dead: set<nat>): Jobs {
    if id in jobs && Active(jobs[id]) && Abandoned(jobs[id], dead)
      then jobs[id := jobs[id].(status := Queued, owner := None)] else jobs
  }

  // --- interleavings ---

  datatype Session = Session(job: nat, read: Option<Params>)

  /**
  The rows, who is working on what, which job a web worker has read and not claimed yet, and two
  records of the past: the pause requests accepted on a job since it was last resumed, and the jobs a
  recovery pass has put back.
  */
  datatype State = State(
    jobs: Jobs, nextId: nat, sessions: map<nat, Session>, picked: map<nat, nat>, dead: set<nat>, wanted: set<nat>,
      recovered: set<nat>)

  datatype Event =
    | Start(kind: Kind, reserve: Option<nat>)
    | Pause(id: nat)
    | Resume(id: nat, reserve: Option<nat>)
    | Claim(worker: nat, id: nat)
    | Begin(worker: nat)
    | Checkpoint(worker: nat, body: nat)
    | ReadForCleanUp(worker: nat)
    | CleanUp(worker: nat, body: nat)
    | Finish(worker: nat, status: Status)
    | Crash(worker: nat)
    | Recover(id: nat)
    | WebRead(worker: nat, id: nat, expired: bool)
    | WebClaim(worker: nat)

  function Step(s: State, e: Event): State {
    match e
    case Start(kind, reserve) =>
      var jobs := StartJob(s.jobs, s.nextId, kind, reserve);
      if jobs == s.jobs then s else s.(jobs := jobs, nextId := s.nextId + 1)
    case Pause(id) =>
      s.(jobs := PauseJob(s.jobs, id),
         wanted := if id in s.jobs && Active(s.jobs[id]) then s.wanted + {id} else s.wanted)
    case Resume(id, reserve) =>
      var jobs := ResumeJob(s.jobs, id, reserve);
      if jobs == s.jobs then s else s.(jobs := jobs, wanted := s.wanted - {id}, recovered := s.recovered - {id})
    case Claim(w, id) =>
      if w in s.sessions || w in s.dead || id !in s.jobs || !Claimable(s.jobs[id], w, s.dead) then s
      else s.(jobs := ClaimJob(s.jobs, id, w, s.dead), sessions := s.sessions[w := Session(id, None)])
    case Begin(w) =>
      if w !in s.sessions then s
      else
        var id := s.sessions[w].job;
        s.(jobs := BeginJob(s.jobs, id), sessions := if id in s.jobs && PausesFirst(s.jobs[id]) then s.sessions - {w}
          else s.sessions)
    case Checkpoint(w, body) =>
      if w !in s.sessions then s else s.(jobs := CheckpointJob(s.jobs, s.sessions[w].job, body))
    case ReadForCleanUp(w) =>
      if w !in s.sessions || s.sessions[w].job !in s.jobs then s
      else s.(sessions := s.sessions[w := s.sessions[w].(read := Some(s.jobs[s.sessions[w].job].params))])
    case CleanUp(w, body) =>
      if w !in s.sessions || s.sessions[w].read.None? then s
      else s.(jobs := CleanUpJob(s.jobs, s.sessions[w].job, s.sessions[w].read.value, body),
              sessions := s.sessions[w := s.sessions[w].(read := None)])
    case Finish(w, status) =>
      if w !in s.sessions || status == Running then s
      else s.(jobs := FinishJob(s.jobs, s.sessions[w].job, status), sessions := s.sessions - {w})
    case Crash(w) => s.(sessions := s.sessions - {w}, picked := s.picked - {w}, dead := s.dead + {w})
    case Recover(id) =>
      var jobs := RecoverJob(s.jobs, id, s.dead);
      if jobs == s.jobs then s else s.(jobs := jobs, recovered := s.recovered + {id})
    case WebRead(w, id, expired) =>
      if w in s.sessions || w in s.dead || id !in s.jobs || !Eligible(s.jobs[id], w, expired) then s
      else s.(picked := s.picked[w := id])
    case WebClaim(w) =>
      if w in s.sessions || w !in s.picked then s
      else
        var id := s.picked[w];
        s.(jobs := WebClaimJob(s.jobs, id, w), sessions := s.sessions[w := Session(id, None)], picked := s.picked - {w})
  }

  function Exec(s: State, events: seq<Event>): State {
    if events == [] then s else Step(Exec(s, events[..|events| - 1]), events[|events| - 1])
  }

  const INITIAL := State(map[], 0, map[], map[], {}, {}, {})

  // --- safety ---

  ghost predicate OneActive(jobs: Jobs) {
    forall i, j :: i in jobs && j in jobs && Active(jobs[i]) && Active(jobs[j]) ==> i == j
  }

  ghost predicate KnownIds(s: State) {
    && (forall i :: i in s.jobs ==> i < s.nextId)
    && (forall w :: w in s.sessions ==> s.sessions[w].job in s.jobs)
    && (forall w :: w in s.picked ==> s.picked[w] in s.jobs)
  }

  /** At most one job is active, and every live session works on a running job that it alone owns. */
  ghost predicate Safe(s: State) {
    && OneActive(s.jobs) && KnownIds(s)
    && (forall w :: w in s.sessions ==>
          && w !in s.dead && s.sessions[w].job in s.jobs
          && s.jobs[s.sessions[w].job].status == Running && s.jobs[s.sessions[w].job].owner == Some(w))
  }

  predicate FromWeb(e: Event) {
    e.WebRead? || e.WebClaim?
  }

  lemma StepKeepsIds(s: State, e: Event)
    requires KnownIds(s)
    ensures KnownIds(Step(s, e))
  {
    hide AnyActive, AnyOtherActive, Unfinished, LatestOfKind;
  }

  lemma StepKeepsOneActive(s: State, e: Event)
    requires Safe(s) && !FromWeb(e)
    ensures OneActive(Step(s, e).jobs)
  {
  }

  predicate FromWorker(e: Event) {
    e.Begin? || e.Checkpoint? || e.ReadForCleanUp? || e.CleanUp? || e.Finish?
  }

  lemma ParametersKeepSessions(s: State, e: Event)
    requires Safe(s) && (e.Checkpoint? || e.ReadForCleanUp? || e.CleanUp?) && OneActive(Step(s, e).jobs)
    ensures Safe(Step(s, e))
  {
    StepKeepsIds(s, e);
    hide OneActive, KnownIds, BeginJob, FinishJob;
  }

  lemma BeginKeepsSessions(s: State, e: Event)
    requires Safe(s) && e.Begin? && OneActive(Step(s, e).jobs)
    ensures Safe(Step(s, e))
  {
    StepKeepsIds(s, e);
    hide OneActive, KnownIds;
  }

  lemma FinishKeepsSessions(s: State, e: Event)
    requires Safe(s) && e.Finish? && OneActive(Step(s, e).jobs)
    ensures Safe(Step(s, e))
  {
    StepKeepsIds(s, e);
    hide OneActive, KnownIds;
  }

  lemma WorkerKeepsSessions(s: State, e: Event)
    requires Safe(s) && FromWorker(e) && OneActive(Step(s, e).jobs)
    ensures Safe(Step(s, e))
  {
    hide Safe, OneActive, Step;
    if e.Begin? {
      BeginKeepsSessions(s, e);
    } else if e.Finish? {
      FinishKeepsSessions(s, e);
    } else {
      ParametersKeepSessions(s, e);
    }
  }

  lemma OthersKeepSessions(s: State, e: Event)
    requires Safe(s) && !FromWorker(e) && !FromWeb(e) && OneActive(Step(s, e).jobs)
    ensures Safe(Step(s, e))
  {
    StepKeepsIds(s, e);
    hide OneActive, AnyActive, AnyOtherActive, Unfinished, LatestOfKind, KnownIds;
  }

  lemma StepIsSafe(s: State, e: Event)
    requires Safe(s) && !FromWeb(e)
    ensures Safe(Step(s, e))
  {
    hide Step, Safe;
    StepKeepsOneActive(s, e);
    if FromWorker(e) {
      WorkerKeepsSessions(s, e);
    } else {
      OthersKeepSessions(s, e);
    }
  }

  /** While only desktop workers claim jobs, at most one job is active and every session owns its running job. */
  lemma {:induction false} AlwaysSafe(events: seq<Event>)
    requires forall e :: e in events ==> !FromWeb(e)
    ensures Safe(Exec(INITIAL, events))
  {
    if events != [] {
      AlwaysSafe(events[..|events| - 1]);
      StepIsSafe(Exec(INITIAL, events[..|events| - 1]), events[|events| - 1]);
      hide Step;
    }
  }

  /** And then two workers never work on the same job. */
  lemma SessionsAreExclusive(events: seq<Event>, v: nat, w: nat)
    requires forall e :: e in events ==> !FromWeb(e)
    requires var s := Exec(INITIAL, events);
      v in s.sessions && w in s.sessions && s.sessions[v].job == s.sessions[w].job
    ensures v == w
  {
    AlwaysSafe(events);
  }

  // --- a pause request is not lost ---

  /** A clean-up write, of parameters that were read before the pause request, on a job that is wanted paused. */
  predicate DropsPause(s: State, e: Event) {
    e.CleanUp? && e.worker in s.sessions && s.sessions[e.worker].read.Some?
    && s.sessions[e.worker].job in s.wanted && !s.sessions[e.worker].read.value.pause
  }

  /** Every accepted pause request is still stored, and only crash recovery puts such a job back in the queue. */
  ghost predicate PausesKept(s: State) {
    forall id :: id in s.wanted ==>
      && id in s.jobs && s.jobs[id].params.pause
      && (s.jobs[id].status == Queued ==> id in s.recovered)
  }

  lemma StepKeepsPauses(s: State, e: Event)
    requires KnownIds(s) && PausesKept(s) && !DropsPause(s, e)
    ensures PausesKept(Step(s, e))
  {
  }

  lemma DroppedPauseIsLost(s: State, e: Event)
    requires KnownIds(s) && DropsPause(s, e)
    ensures !PausesKept(Step(s, e))
  {
    var id := s.sessions[e.worker].job;
    assert id in Step(s, e).wanted && !Step(s, e).jobs[id].params.pause;
  }

  /** The state of a run before event number `n`. */
  function At(events: seq<Event>, n: nat): State
    requires n <= |events|
  {
    Exec(INITIAL, events[..n])
  }

  lemma NextAt(events: seq<Event>, n: nat)
    requires n < |events|
    ensures At(events, n + 1) == Step(At(events, n), events[n])
    ensures KnownIds(At(events, n))
  {
    hide Step, KnownIds;
    assert events[..n + 1][..n] == events[..n];
    IdsAreKnown(events[..n]);
  }

  ghost predicate NoneDropsPause(events: seq<Event>, n: nat)
    requires n <= |events|
  {
    forall k :: 0 <= k < n ==> !DropsPause(At(events, k), events[k])
  }

  /**
  In any interleaving, pause requests survive every later parameter write until a resume, and meanwhile
  the job is not put back in the queue unless its worker dies and it is recovered: throughout a run this
  holds if and only if no clean-up puts back, on a job wanted paused, parameters from before the request.
  */
  lemma PauseIsNeverLostIff(events: seq<Event>)
    ensures (forall n :: 0 <= n <= |events| ==> PausesKept(At(events, n))) <==> NoneDropsPause(events, |events|)
  {
    hide Step, DropsPause, PausesKept, At;
    if NoneDropsPause(events, |events|) {
      forall n | 0 <= n <= |events| ensures PausesKept(At(events, n)) {
        PausesSoFar(events, n);
      }
    } else {
      var n: nat :| n < |events| && DropsPause(At(events, n), events[n]);
      NextAt(events, n);
      DroppedPauseIsLost(At(events, n), events[n]);
    }
  }

  lemma {:induction false} PausesSoFar(events: seq<Event>, n: nat)
    requires n <= |events| && NoneDropsPause(events, n)
    ensures PausesKept(At(events, n))
  {
    hide Step, DropsPause;
    if n > 0 {
      hide At, PausesKept;
      PausesSoFar(events, n - 1);
      NextAt(events, n - 1);
      StepKeepsPauses(At(events, n - 1), events[n - 1]);
    }
  }

  lemma {:induction false} IdsAreKnown(events: seq<Event>)
    ensures KnownIds(Exec(INITIAL, events))
  {
    if events != [] {
      IdsAreKnown(events[..|events| - 1]);
      hide Step, KnownIds;
      StepKeepsIds(Exec(INITIAL, events[..|events| - 1]), events[|events| - 1]);
    }
  }

  /** The one write that can lose a request loses it exactly when the request was committed after its read. */
  lemma CleanUpKeepsPauseIff(s: State, w: nat, body: nat)
    requires PausesKept(s)
    requires w in s.sessions && s.sessions[w].read.Some? && s.sessions[w].job in s.wanted
    ensures var id := s.sessions[w].job;
      Step(s, CleanUp(w, body)).jobs[id].params.pause <==> s.sessions[w].read.value.pause
  {
  }

  const LOST_PAUSE: seq<Event> :=
    [Start(Download, None), Claim(7, 0), Begin(7), ReadForCleanUp(7), Pause(0), CleanUp(7, 1), Finish(7, Queued)]

  function OneJob(status: Status, params: Params, owner: Option<nat>, sessions: map<nat, Session>,
      wanted: set<nat>): State {
    State(map[0 := Job(Download, status, params, owner)], 1, sessions, map[], {}, wanted, {})
  }

  lemma LostPauseFirst()
    ensures Step(INITIAL, Start(Download, None)) == OneJob(Queued, Params(false, 0), None, map[], {})
    ensures Step(OneJob(Queued, Params(false, 0), None, map[], {}), Claim(7, 0))
            == OneJob(Running, Params(false, 0), Some(7), map[7 := Session(0, None)], {})
    ensures Step(OneJob(Running, Params(false, 0), Some(7), map[7 := Session(0, None)], {}), Begin(7))
            == OneJob(Running, Params(false, 0), Some(7), map[7 := Session(0, None)], {})
  {
    var started := StartJob(map[], 0, Download, None);
    assert 0 in started && started[0] == Job(Download, Queued, Params(false, 0), None);
    assert started == map[0 := Job(Download, Queued, Params(false, 0), None)] && started != map[];
  }

  lemma LostPauseMiddle()
    ensures var read := map[7 := Session(0, Some(Params(false, 0)))];
      && Step(OneJob(Running, Params(false, 0), Some(7), map[7 := Session(0, None)], {}), ReadForCleanUp(7))
         == OneJob(Running, Params(false, 0), Some(7), read, {})
      && Step(OneJob(Running, Params(false, 0), Some(7), read, {}), Pause(0))
         == OneJob(Running, Params(true, 0), Some(7), read, {0})
  {
  }

  lemma LostPauseLast()
    ensures var read := map[7 := Session(0, Some(Params(false, 0)))];
      && Step(OneJob(Running, Params(true, 0), Some(7), read, {0}), CleanUp(7, 1))
         == OneJob(Running, Params(false, 1), Some(7), map[7 := Session(0, None)], {0})
      && Step(OneJob(Running, Params(false, 1), Some(7), map[7 := Session(0, None)], {0}), Finish(7, Queued))
         == OneJob(Queued, Params(false, 1), Some(7), map[], {0})
  {
  }

  /** So it happens: a pause between the read and the write of a clean-up is forgotten, and the job is queued again. */
  lemma PauseLostByCleanUp()
    ensures var s := Exec(INITIAL, LOST_PAUSE);
      0 in s.wanted && s.recovered == {} && 0 in s.jobs && s.jobs[0].status == Queued && !s.jobs[0].params.pause
  {
    hide Step;
    LostPauseFirst();
    LostPauseMiddle();
    LostPauseLast();
    var e := LOST_PAUSE;
    forall k | 0 <= k < 7 ensures Exec(INITIAL, e[..k + 1]) == Step(Exec(INITIAL, e[..k]), e[k]) {
      assert e[..k] + [e[k]] == e[..k + 1];
      ExecSteps(INITIAL, e[..k], e[k]);
    }
    assert Exec(INITIAL, e[..0]) == INITIAL;
    assert e[..7] == e;
    assert Exec(INITIAL, e[..1]) == Step(INITIAL, e[0]);
    assert Exec(INITIAL, e[..2]) == Step(Exec(INITIAL, e[..1]), e[1]);
    assert Exec(INITIAL, e[..3]) == Step(Exec(INITIAL, e[..2]), e[2]);
    assert Exec(INITIAL, e[..4]) == Step(Exec(INITIAL, e[..3]), e[3]);
    assert Exec(INITIAL, e[..5]) == Step(Exec(INITIAL, e[..4]), e[4]);
    assert Exec(INITIAL, e[..6]) == Step(Exec(INITIAL, e[..5]), e[5]);
    assert Exec(INITIAL, e[..7]) == Step(Exec(INITIAL, e[..6]), e[6]);
  }

  lemma ExecSteps(s: State, events: seq<Event>, e: Event)
    ensures Exec(s, events + [e]) == Step(Exec(s, events), e)
  {
    assert (events + [e])[..|events|] == events;
  }

  /**
  A recovered inventory or download that is wanted paused does not run again: its next batch begins by pausing
  it.
  */
  lemma RecoveredJobPauses(s: State, w: nat)
    requires KnownIds(s) && PausesKept(s) && w in s.sessions && s.sessions[w].job in s.wanted
    requires s.jobs[s.sessions[w].job].kind in {Inventory, Download}
    ensures var s' := Step(s, Begin(w));
      && s'.jobs[s.sessions[w].job].status == Paused && s'.jobs[s.sessions[w].job].owner.None?
      && w !in s'.sessions && PausesKept(s')
  {
  }

  /** An active job that no live worker holds is put back in the queue by a recovery, and any other is left alone. */
  lemma RecoveryPutsBack(s: State, id: nat)
    requires id in s.jobs
    ensures var (s', j) := (Step(s, Recover(id)), s.jobs[id]);
      if j.status in {Queued, Running} && (j.owner.None? || j.owner.value in s.dead)
      then s'.jobs == s.jobs[id := j.(status := Queued, owner := None)] && (j.status == Running ==> id in s'.recovered)
      else s' == s
  {
  }

  /**
  So the job of a worker that has died goes back to the queue, whatever it was doing, and nobody works on it for
  it.
  */
  lemma CrashIsRecovered(s: State, w: nat, id: nat)
    requires id in s.jobs && Active(s.jobs[id]) && s.jobs[id].owner == Some(w)
    ensures var s' := Step(Step(s, Crash(w)), Recover(id));
      && s'.jobs[id] == s.jobs[id].(status := Queued, owner := None)
      && w !in s'.sessions && w !in s'.picked && w in s'.dead
  {
    RecoveryPutsBack(Step(s, Crash(w)), id);
  }

  /** A checkpoint stores what it is given, and keeps the pause flag that is stored. */
  lemma CheckpointStores(s: State, w: nat, body: nat)
    requires KnownIds(s) && w in s.sessions
    ensures var id := s.sessions[w].job;
      Step(s, Checkpoint(w, body)).jobs == s.jobs[id := s.jobs[id].(params := Params(s.jobs[id].params.pause, body))]
  {
  }

  /** The web worker picks up only a queued job, which nobody holds, or itself, or someone whose lease is over. */
  lemma PickedMeans(s: State, w: nat, id: nat, expired: bool)
    ensures var s' := Step(s, WebRead(w, id, expired));
      && s'.jobs == s.jobs && s'.sessions == s.sessions
      && (s' != s ==> w !in s.sessions && s'.picked == s.picked[w := id] && id in s.jobs && s.jobs[id].status == Queued)
      && (s' != s && !expired ==> s.jobs[id].owner in {None, Some(w)})
  {
  }

  // --- the transactions as the program performs them ---

  datatype Request = PauseRequest | ResumeRequest

  class CollectionLedger {
    var jobs: Jobs
    var nextId: nat

    /** Refuses while any job is active, and while an unfinished job of the kind waits to be resumed. */
    method StartCollection(kind: Kind, reserve: Option<nat>) returns (started: Option<nat>)
      requires forall i :: i in jobs ==> i < nextId
      modifies this
      ensures jobs == StartJob(old(jobs), old(nextId), kind, reserve)
      ensures started.Some? <==> !AnyActive(old(jobs)) && !Unfinished(old(jobs), kind)
      ensures started.Some? ==>
        started.value == old(nextId) && started.value in jobs && jobs[started.value].status == Queued
      ensures OneActive(old(jobs)) ==> OneActive(jobs)
      ensures forall i :: i in jobs ==> i < nextId
    {
      if AnyActive(jobs) || Unfinished(jobs, kind) {
        return None;
      }
      jobs := jobs[nextId := Job(kind, Queued, Params(false, 0), reserve)];
      started := Some(nextId);
      nextId := nextId + 1;
    }

    method ControlCollection(id: nat, request: Request, reserve: Option<nat>) returns (ok: bool)
      modifies this`jobs
      ensures jobs == if request == PauseRequest then PauseJob(old(jobs), id) else ResumeJob(old(jobs), id, reserve)
      ensures ok <==> id in old(jobs) && (if request == PauseRequest then Active(old(jobs)[id])
                else old(jobs)[id].status in {Paused, AuthRequired, Failed} && !AnyOtherActive(old(jobs), id))
      ensures ok && request == PauseRequest ==>
        && jobs[id].params.pause
        && jobs[id].status == (if old(jobs)[id].status == Queued then Paused else Running)
        && jobs[id].owner == (if old(jobs)[id].status == Queued then None else old(jobs)[id].owner)
      ensures ok && request == ResumeRequest ==>
        jobs[id].status == Queued && jobs[id].owner == reserve && !jobs[id].params.pause
      ensures OneActive(old(jobs)) ==> OneActive(jobs)
    {
      if id !in jobs {
        return false;
      }
      var job := jobs[id];
      if request == PauseRequest && job.status in {Queued, Running} {
        var params := job.params.(pause := true);
        if job.status == Queued {
          job := job.(status := Paused, owner := None);
        }
        jobs := jobs[id := job.(params := params)];
        return true;
      }
      if request == ResumeRequest && job.status in {Paused, AuthRequired, Failed} {
        if AnyOtherActive(jobs, id) {
          return false;
        }
        jobs := jobs[id := job.(params := job.params.(pause := false), status := Queued, owner := reserve)];
        return true;
      }
      ok := false;
    }

    /** Takes the oldest job the worker may have: its own reservation, or one that nobody alive holds. */
    method ClaimDesktopJob(worker: nat, dead: set<nat>) returns (claimed: Option<nat>)
      requires forall i :: i in jobs ==> i < nextId
      modifies this`jobs
      ensures claimed.None? ==> jobs == old(jobs) && forall i :: i in old(jobs) ==>
        !Claimable(old(jobs)[i], worker, dead)
      ensures claimed.Some? ==>
        && claimed.value in old(jobs) && Claimable(old(jobs)[claimed.value], worker, dead)
        && (forall i :: i in old(jobs) && i < claimed.value ==> !Claimable(old(jobs)[i], worker, dead))
        && jobs == ClaimJob(old(jobs), claimed.value, worker, dead)
      ensures OneActive(old(jobs)) ==> OneActive(jobs)
    {
      var i := 0;
      while i < nextId
        invariant i <= nextId && jobs == old(jobs)
        invariant forall k :: k in jobs && k < i ==> !Claimable(jobs[k], worker, dead)
      {
        if i in jobs && jobs[i].status in {Queued, Running} {
          var previous := jobs[i].owner;
          var ours, abandoned := previous == Some(worker), previous.None? || previous.value in dead;
          if (ours || abandoned) && (jobs[i].status != Running || abandoned) {
            jobs := jobs[i := jobs[i].(status := Running, owner := Some(worker))];
            return Some(i);
          }
        }
        i := i + 1;
      }
      claimed := None;
    }

    method FinishCollection(id: nat, wanted: Status)
      requires id in jobs
      modifies this`jobs
      ensures jobs == FinishJob(old(jobs), id, wanted)
      ensures jobs[id].status == if wanted == Queued && old(jobs)[id].params.pause then Paused else wanted
      ensures jobs[id].owner == if jobs[id].status == Queued then old(jobs)[id].owner else None
    {
      var status := if wanted == Queued && jobs[id].params.pause then Paused else wanted;
      jobs := jobs[id := jobs[id].(status := status)];
      if status != Queued {
        jobs := jobs[id := jobs[id].(owner := None)];
      }
    }
  }
}
