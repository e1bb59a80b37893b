/**
Which parse product of a content object is in use (src/oa_knowledge/pipeline.py): the bookkeeping of
jobs and artifacts around the parsers, whose results are given.
*/
module ParseArtifacts {
  import opened Wrappers

  datatype Engine = Markitdown | Libreoffice | OtherEngine(name: string)

  datatype Lifecycle = Candidate | Valid | Rejected | Superseded

  /** What identifies a product of a content object: engine, versions, profile and configuration. */
  datatype Identity = Identity(engine: Engine, version: string, profile: string, config: string)

  datatype Artifact = Artifact(content: nat, identity: Identity, job: nat, quality: Option<real>, status: Lifecycle)

  datatype JobStatus = Queued | Completed | Failed

  datatype Job = Job(content: nat, engine: Engine, status: JobStatus)

  datatype Store = Store(artifacts: map<nat, Artifact>, active: map<nat, nat>, jobs: map<nat, Job>)

  datatype Outcome = Outcome(identity: Identity, quality: real)

  // --- invariant ---

  /** The active artifact of a content object is one of its own. */
  ghost predicate Owned(s: Store) {
    forall c :: c in s.active ==> s.active[c] in s.artifacts && s.artifacts[s.active[c]].content == c
  }

  /** A valid artifact is good enough and is the active one of its content object. */
  ghost predicate ValidIsActive(s: Store) {
    forall a :: a in s.artifacts && s.artifacts[a].status == Valid ==> InUse(s, a)
  }

  ghost predicate InUse(s: Store, a: nat)
    requires a in s.artifacts
  {
    && s.artifacts[a].content in s.active && s.active[s.artifacts[a].content] == a
    && s.artifacts[a].quality.Some? && s.artifacts[a].quality.value >= 0.5
  }

  predicate SameProduct(x: Artifact, y: Artifact) {
    x.content == y.content && x.identity == y.identity
  }

  ghost predicate OneEach(s: Store) {
    forall a, b :: a in s.artifacts && b in s.artifacts && SameProduct(s.artifacts[a], s.artifacts[b]) ==> a == b
  }

  ghost predicate Sound(s: Store) {
    Owned(s) && ValidIsActive(s) && OneEach(s)
  }

  lemma AtMostOneValid(s: Store, a: nat, b: nat)
    requires Sound(s) && a in s.artifacts && b in s.artifacts
    requires s.artifacts[a].status == Valid && s.artifacts[b].status == Valid &&
      s.artifacts[a].content == s.artifacts[b].content
    ensures a == b
  {
    assert InUse(s, a) && InUse(s, b);
  }

  // --- queueing again what is completed ---

  /** The product of a completed job was lost or changed: the job is queued again and its artifact given up. */
  function Requeue(s: Store, job: nat, content: nat, artifact: Option<nat>): Store
    requires job in s.jobs
  {
    var jobs := s.jobs[job := s.jobs[job].(status := Queued)];
    if artifact.None? || artifact.value !in s.artifacts then s.(jobs := jobs)
    else
      var a := artifact.value;
      Store(s.artifacts[a := s.artifacts[a].(status := Superseded)],
            if content in s.active && s.active[content] == a then s.active - {content} else s.active,
            jobs)
  }

  // --- the end of a run ---

  /** The row of the product, which an earlier run may have left. */
  ghost predicate IsRow(s: Store, content: nat, identity: Identity, a: nat) {
    a in s.artifacts && s.artifacts[a].content == content && s.artifacts[a].identity == identity
  }

  function Recorded(s: Store, job: nat, a: nat, content: nat, r: Outcome): Store
    requires job in s.jobs
  {
    s.(artifacts := s.artifacts[a := Artifact(content, r.identity, job, Some(r.quality), Candidate)],
       jobs := s.jobs[job := s.jobs[job].(status := Completed)])
  }

  function Score(q: Option<real>): real {
    if q.Some? then q.value else 0.0
  }

  /** Whether the new product takes over from the active one. */
  predicate TakesOver(s: Store, engine: Engine, content: nat, quality: real)
    requires content in s.active ==> s.active[content] in s.artifacts
  {
    && quality >= 0.5
    && (content in s.active ==>
          var current := s.artifacts[s.active[content]];
          (engine == Libreoffice && current.identity.engine == Markitdown) || Score(current.quality) <= quality)
  }

  function Settled(s: Store, engine: Engine, a: nat, content: nat, quality: real): Store
    requires a in s.artifacts && (content in s.active ==> s.active[content] in s.artifacts)
  {
    if TakesOver(s, engine, content, quality) then
      var artifacts := if content in s.active
        then s.artifacts[s.active[content] := s.artifacts[s.active[content]].(status := Superseded)] else s.artifacts;
      s.(artifacts := artifacts[a := artifacts[a].(status := Valid)], active := s.active[content := a])
    else s.(artifacts := s.artifacts[a := s.artifacts[a].(status := Rejected)])
  }

  function Finished(s: Store, job: nat, a: nat, content: nat, r: Outcome): Store
    requires job in s.jobs && Owned(s)
  {
    Settled(Recorded(s, job, a, content, r), s.jobs[job].engine, a, content, r.quality)
  }

  /** The row to use: the one that has the identity already, or a new one. */
  ghost predicate RowFor(s: Store, content: nat, identity: Identity, a: nat) {
    IsRow(s, content, identity, a) || (a !in s.artifacts && forall b :: !IsRow(s, content, identity, b))
  }

  // --- what the steps keep ---

  lemma RequeueKeepsSound(s: Store, job: nat, content: nat, artifact: Option<nat>)
    requires Sound(s) && job in s.jobs
    ensures Sound(Requeue(s, job, content, artifact))
  {
  }

  lemma RecordKeeps(s: Store, job: nat, a: nat, content: nat, r: Outcome)
    requires Sound(s) && job in s.jobs && RowFor(s, content, r.identity, a)
    ensures Sound(Recorded(s, job, a, content, r))
  {
    var u := Recorded(s, job, a, content, r);
    forall b | b in u.artifacts && u.artifacts[b].status == Valid ensures InUse(u, b) {
      assert s.artifacts[b].status == Valid && InUse(s, b);
    }
    forall b, c | b in u.artifacts && c in u.artifacts && SameProduct(u.artifacts[b], u.artifacts[c])
      ensures b == c
    {
      assert b != a ==> (u.artifacts[b] == s.artifacts[b] && (IsRow(s, content, r.identity, b) ==> b == a));
      assert c != a ==> (u.artifacts[c] == s.artifacts[c] && (IsRow(s, content, r.identity, c) ==> c == a));
    }
  }

  lemma SettleKeeps(s: Store, engine: Engine, a: nat, content: nat, quality: real)
    requires Sound(s) && a in s.artifacts && s.artifacts[a].content == content &&
      s.artifacts[a].quality == Some(quality)
    ensures Sound(Settled(s, engine, a, content, quality))
  {
    SettleKeepsRows(s, engine, a, content, quality);
    SameRowsOneEach(s, Settled(s, engine, a, content, quality));
    hide OneEach;
    SettleKeepsOwned(s, engine, a, content, quality);
    SettleKeepsValid(s, engine, a, content, quality);
  }

  lemma SettleKeepsOwned(s: Store, engine: Engine, a: nat, content: nat, quality: real)
    requires Owned(s) && a in s.artifacts && s.artifacts[a].content == content
    ensures Owned(Settled(s, engine, a, content, quality))
  {
  }

  lemma SettleKeepsValid(s: Store, engine: Engine, a: nat, content: nat, quality: real)
    requires Owned(s) && ValidIsActive(s) && a in s.artifacts && s.artifacts[a].content == content &&
      s.artifacts[a].quality == Some(quality)
    ensures ValidIsActive(Settled(s, engine, a, content, quality))
  {
  }

  /** Only the lifecycle of a row changes. */
  ghost predicate SameRows(s: Store, u: Store) {
    && u.artifacts.Keys == s.artifacts.Keys
    && forall b :: b in s.artifacts ==> u.artifacts[b] == s.artifacts[b].(status := u.artifacts[b].status)
  }

  lemma SettleKeepsRows(s: Store, engine: Engine, a: nat, content: nat, quality: real)
    requires Owned(s) && a in s.artifacts
    ensures SameRows(s, Settled(s, engine, a, content, quality))
  {
  }

  lemma SameRowsOneEach(s: Store, u: Store)
    requires OneEach(s) && SameRows(s, u)
    ensures OneEach(u)
  {
  }

  /** Every finished run leaves at most the active artifact of each content object valid. */
  lemma FinishKeepsSound(s: Store, job: nat, a: nat, content: nat, r: Outcome)
    requires Sound(s) && job in s.jobs && RowFor(s, content, r.identity, a)
    ensures Sound(Finished(s, job, a, content, r))
  {
    RecordKeeps(s, job, a, content, r);
    hide Sound;
    SettleKeeps(Recorded(s, job, a, content, r), s.jobs[job].engine, a, content, r.quality);
  }

  /** The content object has an active artifact, and it is valid. */
  predicate ActiveIsValid(s: Store, content: nat) {
    content in s.active && s.active[content] in s.artifacts && s.artifacts[s.active[content]].status == Valid
  }

  /**
  An active valid artifact is followed by an active valid artifact unless the very same product was
  parsed again with a quality below one half: then it is rejected but stays active.
  */
  lemma ActiveStaysValidIff(s: Store, job: nat, a: nat, content: nat, r: Outcome)
    requires Sound(s) && job in s.jobs && RowFor(s, content, r.identity, a) && ActiveIsValid(s, content)
    ensures ActiveIsValid(Finished(s, job, a, content, r), content) <==>
      !(IsRow(s, content, r.identity, s.active[content]) && r.quality < 0.5)
  {
  }

  /**
  A product takes over only if it is no worse, or comes from Libreoffice after Markitdown; either way it is good
  enough.
  */
  lemma TakeOverMeans(s: Store, job: nat, a: nat, content: nat, r: Outcome)
    requires Sound(s) && job in s.jobs && RowFor(s, content, r.identity, a) && ActiveIsValid(s, content)
    ensures var v := Finished(s, job, a, content, r);
      && content in v.active
      && (v.active[content] == s.active[content] || v.active[content] == a)
      && (v.active[content] != s.active[content] ==>
            (&& r.quality >= 0.5 && v.artifacts[a].status == Valid &&
              v.artifacts[s.active[content]].status == Superseded
             && (s.jobs[job].engine == Libreoffice || Score(s.artifacts[s.active[content]].quality) <= r.quality)))
  {
  }

  /** The product in use is a Markitdown one, and Libreoffice, which reads office files better, has made the new one. */
  predicate BetterEngine(s: Store, job: nat, content: nat)
    requires job in s.jobs && content in s.active && s.active[content] in s.artifacts
  {
    s.jobs[job].engine == Libreoffice && s.artifacts[s.active[content]].identity.engine == Markitdown
  }

  /** Rows but `a` are as they were, and `out` is superseded. */
  ghost predicate OthersAfter(s: Store, v: Store, a: nat, out: Option<nat>) {
    forall b :: b in s.artifacts && b != a ==>
      b in v.artifacts && v.artifacts[b] == if out == Some(b) then s.artifacts[b].(status := Superseded)
        else s.artifacts[b]
  }

  /**
  A finished product comes into use if and only if it is good enough, and no worse than the product in use or
  made by the better engine. It is valid then and the other one superseded; otherwise it is rejected and
  what is in use stays. No other row changes, and the job is completed.
  */
  lemma ComesIntoUseIff(s: Store, job: nat, a: nat, content: nat, r: Outcome)
    requires Sound(s) && job in s.jobs && RowFor(s, content, r.identity, a)
    ensures var v := Finished(s, job, a, content, r);
      && a in v.artifacts && v.artifacts[a].(status := Candidate) ==
        Artifact(content, r.identity, job, Some(r.quality), Candidate)
      && v.jobs == s.jobs[job := s.jobs[job].(status := Completed)]
      && (v.artifacts[a].status == Valid <==>
        && r.quality >= 0.5
        && (content in s.active && s.active[content] != a ==>
              || Score(s.artifacts[s.active[content]].quality) <= r.quality || BetterEngine(s, job, content)))
      && (if v.artifacts[a].status == Valid then v.active == s.active[content := a]
          else v.artifacts[a].status == Rejected && v.active == s.active)
      && OthersAfter(s, v, a, if v.artifacts[a].status == Valid && content in s.active then Some(s.active[content])
        else None)
  {
  }

  // --- runs ---

  datatype Event =
    | RequeueEvent(job: nat, content: nat, artifact: Option<nat>)
    | FinishEvent(job: nat, row: nat, content: nat, outcome: Outcome)
    | StatusEvent(job: nat, status: JobStatus)

  ghost predicate Enabled(s: Store, e: Event) {
    e.job in s.jobs && (e.FinishEvent? ==> Owned(s) && RowFor(s, e.content, e.outcome.identity, e.row))
  }

  ghost function Step(s: Store, e: Event): Store
    requires Enabled(s, e)
  {
    match e
    case RequeueEvent(job, content, artifact) => Requeue(s, job, content, artifact)
    case FinishEvent(job, row, content, outcome) => Finished(s, job, row, content, outcome)
    case StatusEvent(job, status) => s.(jobs := s.jobs[job := s.jobs[job].(status := status)])
  }

  ghost predicate IsRun(states: seq<Store>, events: seq<Event>) {
    && |states| == |events| + 1
    && forall i :: 0 <= i < |events| ==> Enabled(states[i], events[i]) && states[i + 1] == Step(states[i], events[i])
  }

  /** Over any run, a valid artifact is the active one of its content object. */
  lemma {:induction false} AlwaysSound(states: seq<Store>, events: seq<Event>, n: nat)
    requires IsRun(states, events) && n <= |events| && Sound(states[0])
    ensures Sound(states[n])
  {
    if n > 0 {
      AlwaysSound(states, events, n - 1);
      var s, e := states[n - 1], events[n - 1];
      assert Enabled(s, e);
      match e
      case RequeueEvent(job, content, artifact) => RequeueKeepsSound(s, job, content, artifact);
      case FinishEvent(job, row, content, outcome) => FinishKeepsSound(s, job, row, content, outcome);
      case StatusEvent(job, status) =>
        assert forall a :: a in s.artifacts && s.artifacts[a].status == Valid ==> InUse(s, a);
        StatusKeepsSound(s, job, status);
    }
  }

  lemma StatusKeepsSound(s: Store, job: nat, status: JobStatus)
    requires Sound(s) && job in s.jobs
    ensures Sound(s.(jobs := s.jobs[job := s.jobs[job].(status := status)]))
  {
  }

  // --- the pipeline in place ---

  class Pipeline {
    var artifacts: map<nat, Artifact>
    var active: map<nat, nat>
    var jobs: map<nat, Job>

    constructor (s: Store)
      ensures State() == s
    {
      artifacts, active, jobs := s.artifacts, s.active, s.jobs;
    }

    function State(): Store
      reads this
    {
      Store(artifacts, active, jobs)
    }

    /** The row that already has the identity, or the given new one. */
    method FindRow(content: nat, identity: Identity, spare: nat) returns (a: nat)
      requires spare !in artifacts
      ensures RowFor(State(), content, identity, a)
      ensures a in artifacts || a == spare
    {
      var rows := set b | b in artifacts && artifacts[b].content == content && artifacts[b].identity == identity;
      if rows != {} {
        a :| a in rows;
        assert IsRow(State(), content, identity, a);
      } else {
        a := spare;
        assert forall b :: IsRow(State(), content, identity, b) ==> b in rows;
      }
    }

    /** The last transaction of a run. */
    method FinishRun(job: nat, content: nat, r: Outcome, spare: nat) returns (a: nat)
      requires Sound(State()) && job in jobs && spare !in artifacts
      modifies this
      ensures RowFor(old(State()), content, r.identity, a) && old(Owned(State()))
      ensures State() == Finished(old(State()), job, a, content, r)
      ensures Sound(State())
    {
      var engine := jobs[job].engine;
      a := FindRow(content, r.identity, spare);
      FinishKeepsSound(State(), job, a, content, r);
      jobs := jobs[job := jobs[job].(status := Completed)];
      artifacts := artifacts[a := Artifact(content, r.identity, job, Some(r.quality), Candidate)];
      var takes := r.quality >= 0.5;
      if content in active {
        var current := artifacts[active[content]];
        var preferred := engine == Libreoffice && current.identity.engine == Markitdown;
        takes := takes && (preferred || Score(current.quality) <= r.quality);
      }
      if takes {
        if content in active {
          artifacts := artifacts[active[content] := artifacts[active[content]].(status := Superseded)];
        }
        artifacts := artifacts[a := artifacts[a].(status := Valid)];
        active := active[content := a];
      } else {
        artifacts := artifacts[a := artifacts[a].(status := Rejected)];
      }
    }

    /** Queueing a completed job again because its product is gone. */
    method RequeueLost(job: nat, content: nat, artifact: Option<nat>)
      requires Sound(State()) && job in jobs
      modifies this
      ensures State() == Requeue(old(State()), job, content, artifact)
      ensures Sound(State())
      ensures jobs == old(jobs)[job := old(jobs)[job].(status := Queued)]
      ensures artifact.Some? && artifact.value in artifacts ==>
        artifacts[artifact.value].status == Superseded && !(content in active && active[content] == artifact.value)
      ensures artifacts.Keys == old(artifacts).Keys && forall b :: b in artifacts && artifact != Some(b) ==>
        artifacts[b] == old(artifacts)[b]
      ensures forall c :: c in old(active) && artifact != Some(old(active)[c]) ==>
        c in active && active[c] == old(active)[c]
    {
      RequeueKeepsSound(State(), job, content, artifact);
      jobs := jobs[job := jobs[job].(status := Queued)];
      if artifact.Some? && artifact.value in artifacts {
        var a := artifact.value;
        artifacts := artifacts[a := artifacts[a].(status := Superseded)];
        if content in active && active[content] == a {
          active := active - {content};
        }
      }
    }
  }
}
