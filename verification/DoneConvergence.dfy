/**
The convergence planner (src/oa_knowledge/done_convergence.py): what it decides for each manifest
row from a snapshot, and what its actions do to the task table.

Idempotency keys are values, one constructor per kind of key, because the texts built for
different items differ. Delivery facts and classifications are given.
*/
module DoneConvergence {
  import opened Wrappers

  datatype Phase = Download | Markdown

  datatype Stage =
    | CaptureAndArchive | ArchiveVerify
    | AttachmentInventory | Parse | SourcePublish | Classify | IndexPublish
    | OtherStage

  datatype TaskStatus = Queued | Running | Completed | Failed | OtherStatus

  datatype IdemKey = DownloadKey(item: string) | MarkdownKey(item: string, source: string) | OtherKey(text: string)

  datatype Task = Task(
    id: nat, key: string, stage: Stage, status: TaskStatus, recoverable: bool, error: Option<string>,
    attempts: nat, idem: IdemKey, created: int)

  datatype Manifest = Manifest(key: string, processing: string, excluded: bool, noAttachment: bool,
    relpath: Option<string>)

  datatype Classification = Classified | NeedsReview | OtherClassification

  /** The tables the planner reads and writes. */
  datatype Tables = Tables(manifests: seq<Manifest>, tasks: seq<Task>)

  /** What else it consults: archived items with their directory, delivered items, classifications. */
  datatype Facts = Facts(items: map<string, Option<string>>, complete: set<string>, classes: map<string,
    Classification>)

  predicate InPhase(s: Stage, p: Phase) {
    match p
    case Download => s in {CaptureAndArchive, ArchiveVerify}
    case Markdown => s in {AttachmentInventory, Parse, SourcePublish, Classify, IndexPublish}
  }

  predicate Active(t: Task) {
    t.status in {Queued, Running}
  }

  predicate Skipped(m: Manifest) {
    m.processing == "skipped" || m.excluded
  }

  predicate HasPath(r: Option<string>) {
    r.Some? && r.value != ""
  }

  predicate ArchiveReady(f: Facts, m: Manifest) {
    (m.processing == "no_attachment" && m.noAttachment) ||
      (m.processing == "downloaded" && m.key in f.items && HasPath(f.items[m.key]))
  }

  function PhaseOf(f: Facts, m: Manifest): Phase {
    if ArchiveReady(f, m) then Markdown else Download
  }

  predicate Delivered(f: Facts, m: Manifest) {
    PhaseOf(f, m) == Markdown && m.key in f.complete && m.key in f.items
  }

  predicate LegacyRetryable(error: Option<string>) {
    error in {Some("DAILY_DELIVERY_PARTIAL"), Some("DAILY_DELIVERY_FAILED"), Some("DAILY_DELIVERY_ERROR")}
  }

  // --- looking tasks up ---

  predicate Later(a: Task, b: Task) {
    a.created > b.created || (a.created == b.created && a.id > b.id)
  }

  predicate Fits(t: Task, key: string, p: Phase) {
    t.key == key && InPhase(t.stage, p)
  }

  /** The newest task of the item in the phase. */
  function Newest(tasks: seq<Task>, key: string, p: Phase): (r: Option<Task>)
    ensures r.Some? ==> r.value in tasks && Fits(r.value, key, p)
  {
    if tasks == [] then None
    else
      var before := Newest(tasks[..|tasks| - 1], key, p);
      var last := tasks[|tasks| - 1];
      if Fits(last, key, p) && (before.None? || Later(last, before.value)) then Some(last) else before
  }

  function ByIdem(tasks: seq<Task>, idem: IdemKey): (r: Option<Task>)
    ensures r.Some? ==> r.value in tasks && r.value.idem == idem
    ensures r.None? ==> forall t :: t in tasks ==> t.idem != idem
  {
    if tasks == [] then None
    else if tasks[|tasks| - 1].idem == idem then Some(tasks[|tasks| - 1])
    else ByIdem(tasks[..|tasks| - 1], idem)
  }

  function ById(tasks: seq<Task>, id: nat): (r: Option<Task>)
    ensures r.Some? ==> r.value in tasks && r.value.id == id
    ensures r.None? ==> forall t :: t in tasks ==> t.id != id
  {
    if tasks == [] then None
    else if tasks[|tasks| - 1].id == id then Some(tasks[|tasks| - 1])
    else ById(tasks[..|tasks| - 1], id)
  }

  function ByKey(manifests: seq<Manifest>, key: string): (r: Option<Manifest>)
    ensures r.Some? ==> r.value in manifests && r.value.key == key
    ensures r.None? ==> forall m :: m in manifests ==> m.key != key
  {
    if manifests == [] then None
    else if manifests[|manifests| - 1].key == key then Some(manifests[|manifests| - 1])
    else ByKey(manifests[..|manifests| - 1], key)
  }

  // --- the decision for one row ---

  datatype Action =
    | Requeue(phase: Phase, key: string, taskId: nat)
    | Create(phase: Phase, key: string, stage: Stage, idem: IdemKey)

  datatype Decision = Exclude | Leave | Attend | Act(action: Action)

  function SourcePath(f: Facts, m: Manifest): string {
    if m.key in f.items && HasPath(f.items[m.key]) then f.items[m.key].value
    else if HasPath(m.relpath) then m.relpath.value
    else "no-attachment"
  }

  function ConvergenceKey(f: Facts, m: Manifest, p: Phase): IdemKey {
    match p
    case Download => DownloadKey(m.key)
    case Markdown => MarkdownKey(m.key, SourcePath(f, m))
  }

  function FirstStage(p: Phase): Stage {
    match p case Download => CaptureAndArchive case Markdown => AttachmentInventory
  }

  /** No task of the phase decides: look at the task that an earlier convergence may have made. */
  function DecideByKey(f: Facts, tasks: seq<Task>, m: Manifest, p: Phase): Decision {
    var idem := ConvergenceKey(f, m, p);
    match ByIdem(tasks, idem)
    case Some(t) =>
      if t.status != Failed then Leave
      else if t.recoverable then Act(Requeue(p, m.key, t.id))
      else Attend
    case None => Act(Create(p, m.key, FirstStage(p), idem))
  }

  function ClassOf(f: Facts, key: string): Option<Classification> {
    if key in f.classes then Some(f.classes[key]) else None
  }

  function Decide(f: Facts, tasks: seq<Task>, m: Manifest): Decision {
    if Skipped(m) then Exclude
    else if Delivered(f, m) then Leave
    else
      var p := PhaseOf(f, m);
      match Newest(tasks, m.key, p)
      case None => DecideByKey(f, tasks, m, p)
      case Some(t) =>
        if Active(t) then Leave
        else if p == Markdown && t.stage == Classify && ClassOf(f, m.key) == Some(NeedsReview) then Attend
        else if p == Markdown && t.stage == Classify && ClassOf(f, m.key) == Some(Classified) &&
          t.status in {Completed, Failed} then
          Act(Requeue(p, m.key, t.id))
        else if t.status == Failed then
          if t.recoverable || LegacyRetryable(t.error) then Act(Requeue(p, m.key, t.id)) else Attend
        else DecideByKey(f, tasks, m, p)
  }

  // --- applying one action ---

  datatype Effect = Dropped | Reset(before: Task) | Inserted(task: Task)

  function Requeued(t: Task): Task {
    t.(status := Queued, recoverable := true, attempts := 0, error := None)
  }

  function RequeueById(tasks: seq<Task>, id: nat): (r: seq<Task>)
    ensures |r| == |tasks|
    ensures forall i :: 0 <= i < |tasks| ==> r[i] == if tasks[i].id == id then Requeued(tasks[i]) else tasks[i]
  {
    if tasks == [] then []
    else
      var last := tasks[|tasks| - 1];
      RequeueById(tasks[..|tasks| - 1], id) + [if last.id == id then Requeued(last) else last]
  }

  function NextId(tasks: seq<Task>): (n: nat)
    ensures forall t :: t in tasks ==> t.id < n
  {
    if tasks == [] then 1
    else
      var n := NextId(tasks[..|tasks| - 1]);
      if tasks[|tasks| - 1].id < n then n else tasks[|tasks| - 1].id + 1
  }

  function NewTask(tasks: seq<Task>, key: string, stage: Stage, idem: IdemKey, now: int): Task {
    Task(NextId(tasks), key, stage, Queued, true, None, 0, idem, now)
  }

  /** One action inside its write transaction, checked again against the tables of that moment. */
  function Apply(t: Tables, a: Action, now: int): (Tables, Effect) {
    var m := ByKey(t.manifests, a.key);
    if m.None? || Skipped(m.value) then (t, Dropped)
    else match a
      case Requeue(_, _, id) =>
        (match ById(t.tasks, id)
         case None => (t, Dropped)
         case Some(task) => if Active(task) then (t, Dropped) else (t.(tasks := RequeueById(t.tasks, id)), Reset(task)))
      case Create(_, key, stage, idem) =>
        if ByIdem(t.tasks, idem).Some? then (t, Dropped)
        else
          var task := NewTask(t.tasks, key, stage, idem, now);
          (t.(tasks := t.tasks + [task]), Inserted(task))
  }
}
