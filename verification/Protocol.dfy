/**
 * Any number of store_bundle runs against one create-only object store, as a labelled transition system.
 * A behaviour is a sequence of events; an event that is not enabled changes nothing, so every sequence counts.
 *
 * What is assumed of the store is in the guards:
 *   - objects are never overwritten or deleted;
 *   - 200 and 204 mean that this very request created the object;
 *   - 412 means that the key is occupied and not by this request, which is then dead;
 *   - no response, or 500, 502, 503, 504, leaves the request pending: it may have been applied, may be applied
 *     at any later time, or may be lost;
 *   - any other status means that this request was not and will not be applied;
 *   - HEAD reports the object at the key, but may also fail, or say that nothing is there when something is.
 */
module Protocol {
  import opened Basics
  import opened Bronze
  import opened ObjectKeys
  import opened PutMachine

  /** SHA-256, the encodings and the key layout are arbitrary functions here: nothing is assumed of them
      except where a lemma names it. */
  datatype Config = Config(
    sha: Bytes -> string,
    encode: Manifest -> Bytes,
    line: Evidence -> Bytes,
    keys: (Artifact, string) -> Option<Keys>,
    attempts: nat,
    maxBytes: nat,
    bucket: string)

  type Slots = n: nat | n <= 3
  type Slot = n: nat | n < 3

  const ARTIFACT: Slot := 0
  const EVIDENCE: Slot := 1
  const MARKER: Slot := 2

  datatype RequestId = RequestId(run: nat, slot: Slot, attempt: nat)

  datatype Origin = Outsider | Sent(id: RequestId)

  /** A stored object with the size and hash its writer declared in its metadata, if any. */
  datatype Object = Object(body: Bytes, declaredSize: Option<int>, declaredSha: Option<string>, origin: Origin)

  /** A PUT with If-None-Match: *; its declared length is the length of its body. */
  datatype Request = Request(id: RequestId, key: string, body: Bytes, sha: string)

  function ObjectOf(r: Request): Object { Object(r.body, Some(|r.body|), Some(r.sha), Sent(r.id)) }

  /** What a run is to store: the artifact's metadata, its staged bytes, and the bundle's contract messages. */
  datatype Job = Job(artifact: Artifact, prefix: string, keys: Keys, bytes: Bytes, messages: seq<Message>)

  datatype Staged = Staged(payload: Bytes, total: nat, counts: Counts)

  datatype BundleError = AlreadyPresent | Collision | StoreFailure | TooLarge | Aborted

  /** Failed remembers how many of the three PUT calls had begun and how many had succeeded. */
  datatype Phase =
    | Checking(probe: Slot)
    | Putting(slot: Slot, put: PutPhase)
    | Staging
    | Done
    | Failed(begun: Slots, finished: Slots, error: BundleError)

  /** All that determines what a run writes; the evidence joins once it is staged. */
  datatype Plan = Plan(job: Job, evidence: Option<Staged>)

  datatype Writer = Writer(plan: Plan, phase: Phase)

  datatype System = System(objects: map<string, Object>, pending: set<Request>, writers: map<nat, Writer>)

  const EMPTY := System(map[], {}, map[])

  datatype HeadAnswer = Seen | Missing | Broken

  datatype Event =
    | Start(run: nat, job: Job)
    | Head(run: nat, key: string, answer: HeadAnswer)
    | Send(run: nat)
    | Respond(run: nat, response: Response)
    | StageEvidence(run: nat, staged: Option<Staged>)
    | Crash(run: nat)
    | Deliver(request: Request)
    | Lose(request: Request)
    | Intrude(key: string, stored: Object)  // some other program creates an object

  // ---- what a run writes ----

  function Uri(cfg: Config, key: string): string { "s3://" + cfg.bucket + "/" + key }

  function KeyOf(job: Job, slot: Slot): string {
    if slot == ARTIFACT then job.keys.artifact else if slot == EVIDENCE then job.keys.evidence else job.keys.completion
  }

  function StoredArtifact(cfg: Config, p: Plan): StoredObject {
    StoredObject(Uri(cfg, p.job.keys.artifact), |p.job.bytes|, cfg.sha(p.job.bytes))
  }

  function StagedOf(p: Plan): Staged { if p.evidence.Some? then p.evidence.value else Staged([], 0, NO_COUNTS) }

  function StoredEvidence(cfg: Config, p: Plan): StoredObject {
    var payload := StagedOf(p).payload;
    StoredObject(Uri(cfg, p.job.keys.evidence), |payload|, cfg.sha(payload))
  }

  function ManifestOf(cfg: Config, p: Plan): Manifest {
    var a := p.job.artifact;
    Manifest(a.source, a.runId, a.retrievedAt.text, a.sourceUrl, a.contractVersion,
      StoredArtifact(cfg, p), StoredEvidence(cfg, p), StagedOf(p).total, StagedOf(p).counts, p.job.messages)
  }

  function ReceiptOf(cfg: Config, p: Plan): Receipt {
    Receipt(p.job.artifact.source, p.job.artifact.runId, StoredArtifact(cfg, p), StoredEvidence(cfg, p),
      Uri(cfg, p.job.keys.completion))
  }

  function PayloadOf(cfg: Config, p: Plan, slot: Slot): Bytes {
    if slot == ARTIFACT then p.job.bytes
    else if slot == EVIDENCE then StagedOf(p).payload
    else cfg.encode(ManifestOf(cfg, p))
  }

  function RequestOf(cfg: Config, w: nat, p: Plan, slot: Slot, attempt: nat): Request {
    var body := PayloadOf(cfg, p, slot);
    Request(RequestId(w, slot, attempt), KeyOf(p.job, slot), body, cfg.sha(body))
  }

  // ---- transitions ----

  predicate JobOk(cfg: Config, job: Job) {
    && cfg.keys(job.artifact, job.prefix) == Some(job.keys)
    && |job.bytes| <= cfg.maxBytes
    && (job.artifact.expectedSha256.Some? ==> cfg.sha(job.bytes) == job.artifact.expectedSha256.value)
  }

  function Begin(cfg: Config, wr: Writer, slot: Slot): Writer {
    var fits := |PayloadOf(cfg, wr.plan, slot)| <= cfg.maxBytes;
    wr.(phase := if fits then Putting(slot, Ready(0, false)) else Failed(slot, slot, TooLarge))
  }

  function Settle(cfg: Config, wr: Writer, slot: Slot, step: PutStep): Writer {
    match step
    case Continue(put) => wr.(phase := Putting(slot, put))
    case Stored =>
      if slot == ARTIFACT then wr.(phase := Staging)
      else if slot == EVIDENCE then Begin(cfg, wr, MARKER)
      else wr.(phase := Done)
    case Collided => wr.(phase := Failed(slot + 1, slot, Collision))
    case GaveUp(_) => wr.(phase := Failed(slot + 1, slot, StoreFailure))
  }

  function Compare(o: Object, body: Bytes, sha: string): Reconciliation {
    if |o.body| == |body| && o.declaredSize == Some(|body|) && o.declaredSha == Some(sha) then Match else Conflict
  }

  /** The run is about to look at this key: to probe it, or to reconcile the object there. */
  predicate Asks(wr: Writer, key: string) {
    match wr.phase
    case Checking(probe) => key == KeyOf(wr.plan.job, probe)
    case Putting(slot, put) => put.Reconciling? && key == KeyOf(wr.plan.job, slot)
    case _ => false
  }

  function StepHead(cfg: Config, s: System, wr: Writer, answer: HeadAnswer): Writer {
    match wr.phase
    case Checking(probe) =>
      if answer.Broken? then wr.(phase := Failed(0, 0, StoreFailure))
      else if answer.Missing? then (if probe < 2 then wr.(phase := Checking(probe + 1)) else Begin(cfg, wr, ARTIFACT))
      else if KeyOf(wr.plan.job, probe) in s.objects then wr.(phase := Failed(0, 0, AlreadyPresent))
      else wr
    case Putting(slot, Reconciling(attempt, _)) =>
      var key, body := KeyOf(wr.plan.job, slot), PayloadOf(cfg, wr.plan, slot);
      if answer.Broken? then Settle(cfg, wr, slot, AfterHead(cfg.attempts, attempt, Unreadable))
      else if answer.Missing? then Settle(cfg, wr, slot, AfterHead(cfg.attempts, attempt, Absent))
      else if key in s.objects then
        Settle(cfg, wr, slot, AfterHead(cfg.attempts, attempt, Compare(s.objects[key], body, cfg.sha(body))))
      else wr
    case _ => wr
  }

  predicate CreatedBy(s: System, r: Request) { r.key in s.objects && s.objects[r.key].origin == Sent(r.id) }

  /** The guards on responses: what the store may truthfully say of a request. */
  predicate MayRespond(s: System, r: Request, response: Response) {
    if response.MeansCreated() then CreatedBy(s, r)
    else if response.MeansTaken() then r.key in s.objects && !CreatedBy(s, r)
    else response.MeansDoubt() || !CreatedBy(s, r)
  }

  function StepRespond(cfg: Config, s: System, w: nat, wr: Writer, response: Response): System {
    if !(wr.phase.Putting? && wr.phase.put.Waiting?) then s
    else
      var slot, put := wr.phase.slot, wr.phase.put;
      var r := RequestOf(cfg, w, wr.plan, slot, put.attempt);
      if !MayRespond(s, r, response) then s
      else
        s.(pending := if response.MeansDoubt() then s.pending else s.pending - {r},
           writers := s.writers[w :=
             Settle(cfg, wr, slot, AfterResponse(cfg.attempts, put.attempt, put.ambiguous, response))])
  }

  function StepSend(cfg: Config, s: System, w: nat, wr: Writer): System {
    if !(wr.phase.Putting? && wr.phase.put.Ready?) then s
    else
      var slot, put := wr.phase.slot, wr.phase.put;
      s.(pending := s.pending + {RequestOf(cfg, w, wr.plan, slot, put.attempt)},
         writers := s.writers[w := wr.(phase := Putting(slot, Waiting(put.attempt, put.ambiguous)))])
  }

  function StepStage(cfg: Config, wr: Writer, staged: Option<Staged>): Writer {
    if !wr.phase.Staging? then wr
    else if staged.None? then wr.(phase := Failed(1, 1, Aborted))
    else Begin(cfg, wr.(plan := wr.plan.(evidence := staged)), EVIDENCE)
  }

  function StepCrash(wr: Writer): Writer {
    if wr.phase.Done? || wr.phase.Failed? then wr else wr.(phase := Failed(Begun(wr), Finished(wr), Aborted))
  }

  function StepDeliver(s: System, r: Request): System {
    if r !in s.pending then s
    else
      s.(pending := s.pending - {r},
         objects := if r.key in s.objects then s.objects else s.objects[r.key := ObjectOf(r)])
  }

  function Step(cfg: Config, s: System, e: Event): System {
    match e
    case Start(w, job) =>
      if w in s.writers || !JobOk(cfg, job) then s
      else s.(writers := s.writers[w := Writer(Plan(job, None), Checking(0))])
    case Head(w, key, answer) =>
      if w !in s.writers || !Asks(s.writers[w], key) then s
      else s.(writers := s.writers[w := StepHead(cfg, s, s.writers[w], answer)])
    case Send(w) => if w !in s.writers then s else StepSend(cfg, s, w, s.writers[w])
    case Respond(w, response) => if w !in s.writers then s else StepRespond(cfg, s, w, s.writers[w], response)
    case StageEvidence(w, staged) =>
      if w !in s.writers then s else s.(writers := s.writers[w := StepStage(cfg, s.writers[w], staged)])
    case Crash(w) => if w !in s.writers then s else s.(writers := s.writers[w := StepCrash(s.writers[w])])
    case Deliver(r) => StepDeliver(s, r)
    case Lose(r) => s.(pending := s.pending - {r})
    case Intrude(key, o) => if key in s.objects then s else s.(objects := s.objects[key := o.(origin := Outsider)])
  }

  function Run(cfg: Config, s: System, events: seq<Event>): System {
    if events == [] then s else Step(cfg, Run(cfg, s, events[..|events| - 1]), events[|events| - 1])
  }

  /** The event is a step of this run; all others are the store's, the network's or another program's. */
  predicate IsBy(e: Event, w: nat) {
    (e.Start? || e.Head? || e.Send? || e.Respond? || e.StageEvidence? || e.Crash?) && e.run == w
  }

  // ---- how far a run has come ----

  /** How many of its PUT calls a run has begun. */
  function Begun(wr: Writer): Slots {
    match wr.phase
    case Checking(_) => 0
    case Putting(slot, _) => slot + 1
    case Staging => 1
    case Done => 3
    case Failed(begun, _, _) => begun
  }

  /** How many of its PUT calls have succeeded. */
  function Finished(wr: Writer): Slots {
    match wr.phase
    case Checking(_) => 0
    case Putting(slot, _) => slot
    case Staging => 1
    case Done => 3
    case Failed(_, finished, _) => finished
  }

  /** How many attempts of the call in progress have been sent. */
  function SentAttempts(put: PutPhase): nat { if put.Ready? then put.attempt else put.attempt + 1 }

  predicate Issued(cfg: Config, wr: Writer, slot: Slot, attempt: nat) {
    && slot < Begun(wr)
    && attempt < cfg.attempts
    && (wr.phase.Putting? && slot == wr.phase.slot ==> attempt < SentAttempts(wr.phase.put))
  }
}
