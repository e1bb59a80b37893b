/**
What the web worker's claim does to the protocol (src/oa_knowledge/web/worker.py, `_claim_next`, and
src/oa_knowledge/done_collection.py): it reads a queued job and writes itself as the owner later,
without looking again. Exactly when two jobs become active, and when two workers share a job.
*/
module CollectionClaims {
  import opened Wrappers
  import opened CollectionProtocol

  // --- two active jobs ---

  /** A worker writes to a job that has meanwhile become inactive, making it active beside another one. */
  predicate Revives(s: State, e: Event) {
    && (e.Begin? || e.Finish?) && e.worker in s.sessions && s.sessions[e.worker].job in s.jobs
    && var id := s.sessions[e.worker].job;
       && !Active(s.jobs[id]) && AnyOtherActive(s.jobs, id)
       && (if e.Begin? then s.jobs[id].kind != Review && !PausesFirst(s.jobs[id])
           else e.status == Queued && !s.jobs[id].params.pause)
  }

  lemma NoRevivalKeepsOneActive(s: State, e: Event)
    requires OneActive(s.jobs) && KnownIds(s) && !Revives(s, e)
    ensures OneActive(Step(s, e).jobs)
  {
    if FromWorker(e) {
      WorkerKeepsOneActive(s, e);
    } else {
      OthersKeepOneActive(s, e);
    }
  }

  lemma WorkerKeepsOneActive(s: State, e: Event)
    requires OneActive(s.jobs) && KnownIds(s) && FromWorker(e) && !Revives(s, e)
    ensures OneActive(Step(s, e).jobs)
  {
    hide StartJob, PauseJob, ResumeJob, ClaimJob, RecoverJob, WebClaimJob, Claimable, Eligible;
  }

  lemma OthersKeepOneActive(s: State, e: Event)
    requires OneActive(s.jobs) && KnownIds(s) && !FromWorker(e)
    ensures OneActive(Step(s, e).jobs)
  {
    hide BeginJob, CheckpointJob, CleanUpJob, FinishJob, Unfinished;
  }

  lemma RevivalMakesTwo(s: State, e: Event)
    requires OneActive(s.jobs) && Revives(s, e)
    ensures !OneActive(Step(s, e).jobs)
  {
    var id := s.sessions[e.worker].job;
    var i :| i in s.jobs && i != id && Active(s.jobs[i]);
    var jobs := Step(s, e).jobs;
    assert i in jobs && id in jobs && Active(jobs[i]) && Active(jobs[id]);
  }

  // --- two workers on one job ---

  ghost predicate Exclusive(s: State) {
    forall v, w :: v in s.sessions && w in s.sessions && s.sessions[v].job == s.sessions[w].job ==> v == w
  }

  /** A claim of a job that another live session still works on. */
  ghost predicate TakesHeld(s: State, e: Event) {
    (e.Claim? || e.WebClaim?) && e.worker !in s.sessions && Claims(s, e) && Held(s, ClaimedJob(s, e))
  }

  predicate Claims(s: State, e: Event) {
    if e.Claim? then e.worker !in s.dead && e.id in s.jobs && Claimable(s.jobs[e.id], e.worker, s.dead)
    else e.WebClaim? && e.worker in s.picked
  }

  function ClaimedJob(s: State, e: Event): nat
    requires Claims(s, e)
  {
    if e.Claim? then e.id else s.picked[e.worker]
  }

  ghost predicate Held(s: State, id: nat) {
    exists v :: v in s.sessions && s.sessions[v].job == id
  }

  lemma NoTakingKeepsExclusive(s: State, e: Event)
    requires Exclusive(s) && !TakesHeld(s, e)
    ensures Exclusive(Step(s, e))
  {
    hide StartJob, PauseJob, ResumeJob, RecoverJob, BeginJob, FinishJob, CheckpointJob, CleanUpJob;
  }

  lemma TakingSharesJob(s: State, e: Event)
    requires TakesHeld(s, e)
    ensures !Exclusive(Step(s, e))
  {
    var v :| v in s.sessions && s.sessions[v].job == ClaimedJob(s, e);
    var u := Step(s, e);
    assert v in u.sessions && e.worker in u.sessions && u.sessions[v].job == u.sessions[e.worker].job;
  }

  /** Every session is still named as the owner in the row of its job. */
  ghost predicate Named(s: State) {
    forall v :: v in s.sessions ==>
      && v !in s.dead && s.sessions[v].job in s.jobs && s.jobs[s.sessions[v].job].owner == Some(v)
  }

  /** As long as that is so, the owner column tells a claim whether it takes a held job: no desktop claim does. */
  lemma TakesHeldIff(s: State, e: Event)
    requires Named(s) && KnownIds(s)
    ensures TakesHeld(s, e) <==>
      && e.WebClaim? && e.worker !in s.sessions && e.worker in s.picked
      && var id := s.picked[e.worker];
         var owner := s.jobs[id].owner;
         owner.Some? && owner.value in s.sessions && s.sessions[owner.value].job == id
  {
  }

  // --- over runs ---

  ghost predicate NoneRevives(events: seq<Event>, n: nat)
    requires n <= |events|
  {
    forall i :: 0 <= i < n ==> !Revives(At(events, i), events[i])
  }

  ghost predicate NoneTakesHeld(events: seq<Event>, n: nat)
    requires n <= |events|
  {
    forall i :: 0 <= i < n ==> !TakesHeld(At(events, i), events[i])
  }

  lemma {:induction false} OneActiveSoFar(events: seq<Event>, n: nat)
    requires n <= |events| && NoneRevives(events, n)
    ensures OneActive(At(events, n).jobs)
  {
    hide Step, Revives, OneActive, At;
    if n == 0 {
      StartIsSafe(events);
    } else {
      OneActiveSoFar(events, n - 1);
      NextAt(events, n - 1);
      NoRevivalKeepsOneActive(At(events, n - 1), events[n - 1]);
    }
  }

  lemma {:induction false} ExclusiveSoFar(events: seq<Event>, n: nat)
    requires n <= |events| && NoneTakesHeld(events, n)
    ensures Exclusive(At(events, n))
  {
    hide Step, TakesHeld, Exclusive, At;
    if n == 0 {
      StartIsSafe(events);
    } else {
      ExclusiveSoFar(events, n - 1);
      NextAt(events, n - 1);
      NoTakingKeepsExclusive(At(events, n - 1), events[n - 1]);
    }
  }

  lemma StartIsSafe(events: seq<Event>)
    ensures OneActive(At(events, 0).jobs) && Exclusive(At(events, 0))
  {
    assert events[..0] == [];
  }

  /** With both kinds of claims: at most one job is active throughout a run if and only if no worker revives one. */
  lemma OneActiveIff(events: seq<Event>)
    ensures (forall n :: 0 <= n <= |events| ==> OneActive(At(events, n).jobs)) <==> NoneRevives(events, |events|)
  {
    hide Step, Revives, OneActive, At;
    if NoneRevives(events, |events|) {
      forall n | 0 <= n <= |events| ensures OneActive(At(events, n).jobs) {
        OneActiveSoFar(events, n);
      }
    } else {
      var n := FirstRevival(events, |events|);
      OneActiveSoFar(events, n);
      NextAt(events, n);
      RevivalMakesTwo(At(events, n), events[n]);
    }
  }

  lemma {:induction false} FirstRevival(events: seq<Event>, m: nat) returns (n: nat)
    requires m <= |events| && !NoneRevives(events, m)
    ensures n < m && NoneRevives(events, n) && Revives(At(events, n), events[n])
  {
    hide Revives, At;
    if NoneRevives(events, m - 1) {
      n := m - 1;
    } else {
      n := FirstRevival(events, m - 1);
    }
  }

  /** And no two workers ever share a job if and only if no claim takes one that is still held. */
  lemma ExclusiveIff(events: seq<Event>)
    ensures (forall n :: 0 <= n <= |events| ==> Exclusive(At(events, n))) <==> NoneTakesHeld(events, |events|)
  {
    hide Step, TakesHeld, Exclusive, At;
    if NoneTakesHeld(events, |events|) {
      forall n | 0 <= n <= |events| ensures Exclusive(At(events, n)) {
        ExclusiveSoFar(events, n);
      }
    } else {
      var n := FirstTaking(events, |events|);
      NextAt(events, n);
      TakingSharesJob(At(events, n), events[n]);
    }
  }

  lemma {:induction false} FirstTaking(events: seq<Event>, m: nat) returns (n: nat)
    requires m <= |events| && !NoneTakesHeld(events, m)
    ensures n < m && TakesHeld(At(events, n), events[n])
  {
    hide TakesHeld, At;
    if NoneTakesHeld(events, m - 1) {
      n := m - 1;
    } else {
      n := FirstTaking(events, m - 1);
    }
  }

  // --- and it happens ---

  const LOGIN_REVIVED: seq<Event> :=
    [Start(Login, None), WebRead(7, 0, false), WebClaim(7), Pause(0), Start(Inventory, None), Begin(7)]

  const CLAIMED_TWICE: seq<Event> :=
    [Start(Inventory, None), WebRead(7, 0, false), Claim(9, 0), WebClaim(7)]

  function Row(kind: Kind, status: Status, pause: bool, owner: Option<nat>): Job {
    Job(kind, status, Params(pause, 0), owner)
  }

  function OneRow(job: Job, sessions: map<nat, Session>, picked: map<nat, nat>, wanted: set<nat>): State {
    State(map[0 := job], 1, sessions, picked, {}, wanted, {})
  }

  lemma FirstStart(kind: Kind)
    ensures Step(INITIAL, Start(kind, None)) == OneRow(Row(kind, Queued, false, None), map[], map[], {})
  {
    var jobs := StartJob(map[], 0, kind, None);
    assert 0 in jobs && jobs == map[0 := Row(kind, Queued, false, None)] && jobs != map[];
  }

  lemma WebTakes(kind: Kind)
    ensures Step(OneRow(Row(kind, Queued, false, None), map[], map[], {}), WebRead(7, 0, false))
            == OneRow(Row(kind, Queued, false, None), map[], map[7 := 0], {})
    ensures Step(OneRow(Row(kind, Queued, false, None), map[], map[7 := 0], {}), WebClaim(7))
            == OneRow(Row(kind, Queued, false, Some(7)), map[7 := Session(0, None)], map[], {})
  {
  }

  lemma PausedThenStarted()
    ensures Step(OneRow(Row(Login, Queued, false, Some(7)), map[7 := Session(0, None)], map[], {}), Pause(0))
            == OneRow(Row(Login, Paused, true, None), map[7 := Session(0, None)], map[], {0})
    ensures Step(OneRow(Row(Login, Paused, true, None), map[7 := Session(0, None)], map[], {0}), Start(Inventory, None))
            == State(map[0 := Row(Login, Paused, true, None), 1 := Row(Inventory, Queued, false, None)], 2,
                     map[7 := Session(0, None)], map[], {}, {0}, {})
  {
    var jobs := map[0 := Row(Login, Paused, true, None)];
    assert !AnyActive(jobs) && !Unfinished(jobs, Inventory);
    var more := StartJob(jobs, 1, Inventory, None);
    assert 1 in more && more == map[0 := Row(Login, Paused, true, None), 1 := Row(Inventory, Queued, false, None)];
  }

  /** A login that was claimed, then paused, runs all the same beside the inventory started meanwhile. */
  lemma LoginIsRevived()
    ensures !OneActive(Exec(INITIAL, LOGIN_REVIVED).jobs)
  {
    hide Step;
    FirstStart(Login);
    WebTakes(Login);
    PausedThenStarted();
    var e := LOGIN_REVIVED;
    var s := State(map[0 := Row(Login, Paused, true, None), 1 := Row(Inventory, Queued, false, None)], 2,
                   map[7 := Session(0, None)], map[], {}, {0}, {});
    assert At(e, 0) == INITIAL by { assert e[..0] == []; }
    forall n: nat | n < 6 {
      NextAt(e, n);
    }
    assert At(e, 1) == Step(INITIAL, e[0]);
    assert At(e, 2) == Step(At(e, 1), e[1]);
    assert At(e, 3) == Step(At(e, 2), e[2]);
    assert At(e, 4) == Step(At(e, 3), e[3]);
    assert At(e, 5) == s;
    assert At(e, 6) == Step(s, Begin(7));
    assert e[..6] == e;
    TwoActive(s);
  }

  const UNNAMED: seq<Event> :=
    [Start(Login, None), WebRead(7, 0, false), WebClaim(7), Pause(0), Resume(0, None)]

  /**
  But a pause clears the owner while the worker goes on. After a resume status, parameters and owner are
  those of a job that nobody has claimed yet, and a session holds it: they cannot tell the next claim.
  */
  lemma RowsDoNotShowHolder()
    ensures At(UNNAMED, 5).jobs == At(UNNAMED, 1).jobs
    ensures Held(At(UNNAMED, 5), 0) && !Held(At(UNNAMED, 1), 0)
    ensures TakesHeld(At(UNNAMED, 5), Claim(9, 0)) && !TakesHeld(At(UNNAMED, 1), Claim(9, 0))
  {
    hide Step, Held, TakesHeld;
    FirstStart(Login);
    WebTakes(Login);
    PausedThenStarted();
    PausedThenResumed();
    var e := UNNAMED;
    assert At(e, 0) == INITIAL by { assert e[..0] == []; }
    forall n: nat | n < 5 {
      NextAt(e, n);
    }
    assert At(e, 1) == Step(INITIAL, e[0]);
    assert At(e, 2) == Step(At(e, 1), e[1]);
    assert At(e, 3) == Step(At(e, 2), e[2]);
    assert At(e, 4) == Step(At(e, 3), e[3]);
    assert At(e, 5) == Step(At(e, 4), e[4]);
    HeldUnseen();
  }

  lemma PausedThenResumed()
    ensures Step(OneRow(Row(Login, Paused, true, None), map[7 := Session(0, None)], map[], {0}), Resume(0, None))
            == OneRow(Row(Login, Queued, false, None), map[7 := Session(0, None)], map[], {})
  {
    var jobs := map[0 := Row(Login, Paused, true, None)];
    assert !AnyOtherActive(jobs, 0);
    assert ResumeJob(jobs, 0, None) == map[0 := Row(Login, Queued, false, None)];
  }

  lemma HeldUnseen()
    ensures var job := Row(Login, Queued, false, None);
      var s, u := OneRow(job, map[7 := Session(0, None)], map[], {}), OneRow(job, map[], map[], {});
      && Held(s, 0) && !Held(u, 0) && TakesHeld(s, Claim(9, 0)) && !TakesHeld(u, Claim(9, 0))
  {
    var s := OneRow(Row(Login, Queued, false, None), map[7 := Session(0, None)], map[], {});
    assert 7 in s.sessions && s.sessions[7].job == 0;
  }

  lemma TwoActive(s: State)
    requires s.jobs == map[0 := Row(Login, Paused, true, None), 1 := Row(Inventory, Queued, false, None)]
    requires s.sessions == map[7 := Session(0, None)]
    ensures !OneActive(Step(s, Begin(7)).jobs)
  {
    assert 1 in s.jobs && Active(s.jobs[1]);
    var jobs := Step(s, Begin(7)).jobs;
    assert 0 in jobs && 1 in jobs && Active(jobs[0]) && Active(jobs[1]);
  }

  /** A job is claimed by a desktop worker between the read and the write of a web worker's claim: both work on it. */
  lemma JobIsClaimedTwice()
    ensures !Exclusive(Exec(INITIAL, CLAIMED_TWICE))
  {
    hide Step, Exclusive;
    FirstStart(Inventory);
    WebTakes(Inventory);
    var e := CLAIMED_TWICE;
    assert At(e, 0) == INITIAL by { assert e[..0] == []; }
    forall n: nat | n < 4 {
      NextAt(e, n);
    }
    assert At(e, 1) == Step(INITIAL, e[0]);
    assert At(e, 2) == Step(At(e, 1), e[1]);
    var s := OneRow(Row(Inventory, Queued, false, None), map[], map[7 := 0], {});
    assert At(e, 2) == s;
    assert At(e, 3) == Step(s, Claim(9, 0));
    assert At(e, 4) == Step(At(e, 3), WebClaim(7));
    assert e[..4] == e;
    BothClaim(s);
  }

  lemma BothClaim(s: State)
    requires s == OneRow(Row(Inventory, Queued, false, None), map[], map[7 := 0], {})
    ensures !Exclusive(Step(Step(s, Claim(9, 0)), WebClaim(7)))
  {
    var u := Step(Step(s, Claim(9, 0)), WebClaim(7));
    assert 7 in u.sessions && 9 in u.sessions && u.sessions[7].job == u.sessions[9].job;
  }
}
