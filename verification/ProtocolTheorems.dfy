/** What holds of every behaviour of any number of concurrent store_bundle runs. */
module ProtocolTheorems {
  import opened Basics
  import opened Bronze
  import opened ObjectKeys
  import opened PutMachine
  import opened Protocol
  import opened ProtocolInvariant

  /** The state after any events from an empty store. Objects of other programs enter by Intrude events. */
  function Reached(cfg: Config, events: seq<Event>): System { Run(cfg, EMPTY, events) }

  lemma ReachedInvariant(cfg: Config, events: seq<Event>)
    requires cfg.attempts > 0
    ensures Invariant(cfg, Reached(cfg, events))
  {
    RunKeeps(cfg, EMPTY, events);
  }

  lemma {:induction false} RunAppend(cfg: Config, s: System, before: seq<Event>, later: seq<Event>)
    ensures Run(cfg, s, before + later) == Run(cfg, Run(cfg, s, before), later)
  {
    if later == [] {
      assert before + later == before;
    } else {
      var init := later[..|later| - 1];
      RunAppend(cfg, s, before, init);
      assert (before + later)[..|before + later| - 1] == before + init;
    }
  }

  // ---- what never changes ----

  /** A run keeps its job, does not go back, stages evidence once, and stops for good. */
  ghost predicate Follows(wr: Writer, next: Writer) {
    && next.plan.job == wr.plan.job
    && Begun(wr) <= Begun(next)
    && Finished(wr) <= Finished(next)
    && (Begun(wr) >= 2 ==> next.plan.evidence == wr.plan.evidence)
    && (wr.phase.Done? || wr.phase.Failed? ==> next == wr)
  }

  ghost predicate Grows(s: System, t: System) {
    && (forall k :: k in s.objects ==> k in t.objects && t.objects[k] == s.objects[k])
    && (forall w :: w in s.writers ==> w in t.writers && Follows(s.writers[w], t.writers[w]))
  }

  lemma StepGrows(cfg: Config, s: System, e: Event)
    ensures Grows(s, Step(cfg, s, e))
  {
    match e
    case Head(w, _, answer) => if w in s.writers { HeadSucceeds(cfg, s, s.writers[w], answer); }
    case Respond(w, response) => if w in s.writers { RespondGrows(cfg, s, w, response); }
    case StageEvidence(w, staged) => if w in s.writers { StageSucceeds(cfg, s.writers[w], staged); }
    case Crash(w) => if w in s.writers { assert Follows(s.writers[w], StepCrash(s.writers[w])); }
    case _ =>
  }

  lemma StageSucceeds(cfg: Config, wr: Writer, staged: Option<Staged>)
    ensures Follows(wr, StepStage(cfg, wr, staged))
  {
  }

  lemma HeadSucceeds(cfg: Config, s: System, wr: Writer, answer: HeadAnswer)
    ensures Follows(wr, StepHead(cfg, s, wr, answer))
  {
  }

  lemma RespondGrows(cfg: Config, s: System, w: nat, response: Response)
    requires w in s.writers
    ensures Grows(s, StepRespond(cfg, s, w, s.writers[w], response))
  {
  }

  lemma {:induction false} RunGrows(cfg: Config, s: System, events: seq<Event>)
    ensures Grows(s, Run(cfg, s, events))
  {
    if events != [] {
      var t := Run(cfg, s, events[..|events| - 1]);
      RunGrows(cfg, s, events[..|events| - 1]);
      StepGrows(cfg, t, events[|events| - 1]);
      GrowsTransitive(s, t, Run(cfg, s, events));
    }
  }

  lemma GrowsTransitive(s: System, t: System, u: System)
    requires Grows(s, t) && Grows(t, u)
    ensures Grows(s, u)
  {
  }

  /** Keys are laid out by BuildKeys. */
  ghost predicate StandardKeys(cfg: Config) {
    forall a, p :: cfg.keys(a, p) == BuildKeys(a, p)
  }

  ghost predicate JobsOk(cfg: Config, s: System) {
    forall w :: w in s.writers ==> JobOk(cfg, s.writers[w].plan.job)
  }

  lemma {:induction false} ReachedJobsOk(cfg: Config, events: seq<Event>)
    ensures JobsOk(cfg, Reached(cfg, events))
  {
    if events != [] {
      var t := Reached(cfg, events[..|events| - 1]);
      ReachedJobsOk(cfg, events[..|events| - 1]);
      StepGrows(cfg, t, events[|events| - 1]);
      assert forall w :: w in Reached(cfg, events).writers && w !in t.writers ==> events[|events| - 1].Start?;
    }
  }

  ghost predicate InjectiveHash(cfg: Config) {
    forall a, b :: cfg.sha(a) == cfg.sha(b) ==> a == b
  }

  ghost predicate InjectiveManifests(cfg: Config) {
    forall m, n :: cfg.encode(m) == cfg.encode(n) ==> m == n
  }

  // ---- truthful metadata ----

  /** Whatever any attempt of any run creates carries the length and the hash of its own bytes. */
  lemma TruthfulMetadata(cfg: Config, events: seq<Event>, key: string)
    requires cfg.attempts > 0
    requires key in Reached(cfg, events).objects && Reached(cfg, events).objects[key].origin.Sent?
    ensures var o := Reached(cfg, events).objects[key];
      && o.declaredSize == Some(|o.body|) && o.declaredSha == Some(cfg.sha(o.body))
      && o.origin.id.attempt < cfg.attempts
  {
    ReachedInvariant(cfg, events);
    assert GenuineObject(cfg, Reached(cfg, events), key);
  }

  /** All that was ever in flight or stored for one PUT call of a run, at whatever times, has the same key and
      bytes. That each attempt sends them is the precondition under which SendOnce may be called. */
  lemma AttemptsSendTheSameBytes(cfg: Config, events: seq<Event>, later: seq<Event>, r: Request, key: string)
    requires cfg.attempts > 0 && r in Reached(cfg, events).pending
    requires key in Reached(cfg, events + later).objects
    requires var o := Reached(cfg, events + later).objects[key];
      o.origin.Sent? && o.origin.id.run == r.id.run && o.origin.id.slot == r.id.slot
    ensures key == r.key && Reached(cfg, events + later).objects[key].body == r.body
  {
    var s, t := Reached(cfg, events), Reached(cfg, events + later);
    ReachedInvariant(cfg, events);
    ReachedInvariant(cfg, events + later);
    RunAppend(cfg, EMPTY, events, later);
    RunGrows(cfg, s, later);
    assert GenuineRequest(cfg, s, r) && GenuineObject(cfg, t, key);
    PayloadFixed(cfg, s.writers[r.id.run], t.writers[r.id.run], r.id.slot);
  }

  lemma PayloadFixed(cfg: Config, wr: Writer, next: Writer, slot: Slot)
    requires Follows(wr, next) && slot < Begun(wr)
    ensures PayloadOf(cfg, next.plan, slot) == PayloadOf(cfg, wr.plan, slot)
    ensures KeyOf(next.plan.job, slot) == KeyOf(wr.plan.job, slot)
  {
  }

  /** A run that has failed never has a request in flight, or an object, for a PUT call that it had not begun. */
  lemma NothingBeyondFailure(cfg: Config, events: seq<Event>, later: seq<Event>, w: nat)
    requires cfg.attempts > 0 && w in Reached(cfg, events).writers && Reached(cfg, events).writers[w].phase.Failed?
    ensures var t, begun := Reached(cfg, events + later), Reached(cfg, events).writers[w].phase.begun;
      && (forall r :: r in t.pending && r.id.run == w ==> r.id.slot < begun)
      && (forall k :: k in t.objects && t.objects[k].origin.Sent? && t.objects[k].origin.id.run == w ==>
            t.objects[k].origin.id.slot < begun)
  {
    var t := Reached(cfg, events + later);
    RunAppend(cfg, EMPTY, events, later);
    RunGrows(cfg, Reached(cfg, events), later);
    ReachedInvariant(cfg, events + later);
    forall r | r in t.pending && r.id.run == w ensures Issued(cfg, t.writers[w], r.id.slot, r.id.attempt) {
      assert GenuineRequest(cfg, t, r);
    }
    forall k | k in t.objects && t.objects[k].origin.Sent? && t.objects[k].origin.id.run == w
      ensures Issued(cfg, t.writers[w], t.objects[k].origin.id.slot, t.objects[k].origin.id.attempt)
    {
      assert GenuineObject(cfg, t, k);
    }
  }

  // ---- success is sound and permanent ----

  /** Once a PUT call of a run has returned normally, its key holds an object of the intended length, declared
      length and hash, then and after any further events. */
  lemma SuccessIsForever(cfg: Config, events: seq<Event>, later: seq<Event>, w: nat, slot: Slot)
    requires cfg.attempts > 0 && w in Reached(cfg, events).writers
    requires slot < Finished(Reached(cfg, events).writers[w])
    ensures HoldsSlot(cfg, Reached(cfg, events + later), Reached(cfg, events).writers[w].plan, slot)
  {
    ReachedInvariant(cfg, events);
    var s := Reached(cfg, events);
    assert HoldsSlot(cfg, s, s.writers[w].plan, slot);
    RunAppend(cfg, EMPTY, events, later);
    RunGrows(cfg, s, later);
  }

  // ---- no false collision ----

  /** A run that stopped on a collision never created the object it collided with, and never will. */
  lemma CollisionsAreGenuine(cfg: Config, events: seq<Event>, later: seq<Event>, w: nat)
    requires cfg.attempts > 0 && w in Reached(cfg, events).writers
    requires Reached(cfg, events).writers[w].phase.Failed? && Reached(cfg, events).writers[w].phase.error.Collision?
    ensures var wr := Reached(cfg, events).writers[w];
      && wr.phase.begun > 0
      && var slot: Slot := wr.phase.begun - 1;
         TakenByAnother(Reached(cfg, events + later), KeyOf(wr.plan.job, slot), w, slot)
  {
    ReachedInvariant(cfg, events);
    var s := Reached(cfg, events);
    assert WriterInvariant(cfg, s, w, s.writers[w]);
    RunAppend(cfg, EMPTY, events, later);
    RunGrows(cfg, s, later);
  }

  // ---- the marker is a commit record ----

  /** The object a manifest names is in the store, in the given directory, as the manifest describes it. */
  ghost predicate Present(cfg: Config, s: System, directory: string, o: StoredObject) {
    exists k :: o.uri == Uri(cfg, k) && Dirname(k) == directory && Holds(s.objects, k, o.size, o.sha256)
  }

  /** Only a marker PUT writes under the marker's name. */
  lemma MarkerName(cfg: Config, job: Job, slot: Slot)
    requires StandardKeys(cfg) && JobOk(cfg, job) && Basename(KeyOf(job, slot)) == "_SUCCESS.json"
    ensures slot == MARKER
  {
    OneMarkerKey(job.artifact, job.prefix);
  }

  lemma {:induction false} MarkerSlot(cfg: Config, events: seq<Event>, key: string)
    requires cfg.attempts > 0 && StandardKeys(cfg)
    requires key in Reached(cfg, events).objects && Reached(cfg, events).objects[key].origin.Sent?
    requires Basename(key) == "_SUCCESS.json"
    ensures var s := Reached(cfg, events);
      var id := s.objects[key].origin.id;
      && id.run in s.writers && id.slot == MARKER && Finished(s.writers[id.run]) >= 2
      && key == s.writers[id.run].plan.job.keys.completion
      && s.objects[key].body == cfg.encode(ManifestOf(cfg, s.writers[id.run].plan))
  {
    ReachedInvariant(cfg, events);
    ReachedJobsOk(cfg, events);
    ReachedInOrder(cfg, events);
    var s := Reached(cfg, events);
    assert GenuineObject(cfg, s, key);
    var id := s.objects[key].origin.id;
    MarkerName(cfg, s.writers[id.run].plan.job, id.slot);
    assert WriterInOrder(s.writers[id.run]);
  }

  predicate WriterInOrder(wr: Writer) {
    && Begun(wr) <= Finished(wr) + 1
    && (wr.phase.Failed? && wr.phase.error.StoreFailure? && wr.phase.begun > 0 ==>
          wr.phase.begun == wr.phase.finished + 1)
  }

  ghost predicate InOrder(s: System) {
    forall w :: w in s.writers ==> WriterInOrder(s.writers[w])
  }

  /** A PUT call begins only after the calls before it have succeeded. */
  lemma {:induction false} ReachedInOrder(cfg: Config, events: seq<Event>)
    ensures InOrder(Reached(cfg, events))
  {
    if events != [] {
      ReachedInOrder(cfg, events[..|events| - 1]);
      StepInOrder(cfg, Reached(cfg, events[..|events| - 1]), events[|events| - 1]);
    }
  }

  lemma SettleInOrder(cfg: Config, wr: Writer, slot: Slot, step: PutStep)
    ensures WriterInOrder(Settle(cfg, wr, slot, step))
  {
  }

  lemma HeadInOrder(cfg: Config, s: System, wr: Writer, answer: HeadAnswer)
    requires WriterInOrder(wr)
    ensures WriterInOrder(StepHead(cfg, s, wr, answer))
  {
  }

  lemma RespondInOrder(cfg: Config, s: System, w: nat, response: Response)
    requires InOrder(s) && w in s.writers
    ensures InOrder(StepRespond(cfg, s, w, s.writers[w], response))
  {
    var wr := s.writers[w];
    if wr.phase.Putting? && wr.phase.put.Waiting? {
      var put := wr.phase.put;
      SettleInOrder(cfg, wr, wr.phase.slot, AfterResponse(cfg.attempts, put.attempt, put.ambiguous, response));
    }
  }

  lemma StepInOrder(cfg: Config, s: System, e: Event)
    requires InOrder(s)
    ensures InOrder(Step(cfg, s, e))
  {
    match e
    case Head(w, _, answer) => if w in s.writers { HeadInOrder(cfg, s, s.writers[w], answer); }
    case Respond(w, response) => if w in s.writers { RespondInOrder(cfg, s, w, response); }
    case _ =>
  }

  // ---- nothing is sent before all three keys were reported absent ----

  /** Before the run had begun any PUT call, a HEAD of its own on this key found nothing. */
  ghost predicate ReportedAbsent(cfg: Config, events: seq<Event>, w: nat, key: string) {
    exists i :: 0 <= i < |events| && events[i] == Head(w, key, Missing) && NotBegun(Reached(cfg, events[..i]), w)
  }

  predicate NotBegun(s: System, w: nat) { w in s.writers && Begun(s.writers[w]) == 0 }

  lemma StillReported(cfg: Config, events: seq<Event>, e: Event, w: nat, key: string)
    requires ReportedAbsent(cfg, events, w, key)
    ensures ReportedAbsent(cfg, events + [e], w, key)
  {
    var i :| 0 <= i < |events| && events[i] == Head(w, key, Missing) && NotBegun(Reached(cfg, events[..i]), w);
    assert (events + [e])[i] == events[i] && (events + [e])[..i] == events[..i];
  }

  /** How many of the keys have been reported absent. */
  function Probed(wr: Writer): nat {
    if wr.phase.Checking? then wr.phase.probe else if Begun(wr) > 0 then 3 else 0
  }

  lemma ProbedStep(cfg: Config, s: System, e: Event, w: nat)
    requires w in Step(cfg, s, e).writers
    ensures var n := Probed(Step(cfg, s, e).writers[w]);
      n > 0 ==> (w in s.writers && n <= Probed(s.writers[w]) + 1
        && (n > Probed(s.writers[w]) ==>
              NotBegun(s, w) && e == Head(w, KeyOf(s.writers[w].plan.job, n - 1), Missing)))
  {
    if !IsBy(e, w) {
      OthersKeepTheRun(cfg, s, e, w);
    }
  }

  lemma {:induction false} ProbesReported(cfg: Config, events: seq<Event>, w: nat, slot: Slot)
    requires w in Reached(cfg, events).writers && slot < Probed(Reached(cfg, events).writers[w])
    ensures ReportedAbsent(cfg, events, w, KeyOf(Reached(cfg, events).writers[w].plan.job, slot))
  {
    var init, e := events[..|events| - 1], events[|events| - 1];
    var s := Reached(cfg, init);
    assert events == init + [e];
    ProbedStep(cfg, s, e, w);
    StepGrows(cfg, s, e);
    var key := KeyOf(s.writers[w].plan.job, slot);
    if slot < Probed(s.writers[w]) {
      ProbesReported(cfg, init, w, slot);
      StillReported(cfg, init, e, w, key);
    } else {
      assert events[|init|] == Head(w, key, Missing) && events[..|init|] == init;
    }
  }

  /** A run that has begun a PUT call had been told by HEADs on all three of its keys that nothing is there. */
  lemma AllKeysProbedFirst(cfg: Config, events: seq<Event>, w: nat)
    requires w in Reached(cfg, events).writers && Begun(Reached(cfg, events).writers[w]) > 0
    ensures var keys := Reached(cfg, events).writers[w].plan.job.keys;
      && ReportedAbsent(cfg, events, w, keys.artifact)
      && ReportedAbsent(cfg, events, w, keys.evidence)
      && ReportedAbsent(cfg, events, w, keys.completion)
  {
    ProbesReported(cfg, events, w, ARTIFACT);
    ProbesReported(cfg, events, w, EVIDENCE);
    ProbesReported(cfg, events, w, MARKER);
  }

  /** A run that sees an object at a key it probes stops there and then, for good, and never sends anything. */
  lemma SeenStops(cfg: Config, events: seq<Event>, later: seq<Event>, w: nat, key: string)
    requires cfg.attempts > 0 && w in Reached(cfg, events).writers && Reached(cfg, events).writers[w].phase.Checking?
    requires Asks(Reached(cfg, events).writers[w], key) && key in Reached(cfg, events).objects
    ensures var t := Reached(cfg, events + [Head(w, key, Seen)] + later);
      && w in t.writers && t.writers[w].phase == Failed(0, 0, AlreadyPresent)
      && (forall r :: r in t.pending ==> r.id.run != w)
      && (forall k :: k in t.objects && t.objects[k].origin.Sent? ==> t.objects[k].origin.id.run != w)
  {
    var seen := events + [Head(w, key, Seen)];
    assert seen[..|events|] == events;
    RunAppend(cfg, EMPTY, seen, later);
    RunGrows(cfg, Reached(cfg, seen), later);
    NothingBeyondFailure(cfg, seen, later, w);
  }

  /**
   * In every reachable state, whatever failed, raced or is still in flight: the bytes of a _SUCCESS.json written
   * by a run encode a manifest, and the artifact and the evidence that it names are in the store beside the
   * marker, with exactly the sizes and hashes that it lists.
   */
  lemma {:induction false} CommitMarkerSafety(cfg: Config, events: seq<Event>, key: string)
    requires cfg.attempts > 0 && StandardKeys(cfg) && InjectiveManifests(cfg)
    requires key in Reached(cfg, events).objects && Reached(cfg, events).objects[key].origin.Sent?
    requires Basename(key) == "_SUCCESS.json"
    ensures var s := Reached(cfg, events);
      && (exists m :: cfg.encode(m) == s.objects[key].body)
      && forall m :: cfg.encode(m) == s.objects[key].body ==>
           Present(cfg, s, Dirname(key), m.artifact) && Present(cfg, s, Dirname(key), m.evidence)
  {
    var s := Reached(cfg, events);
    MarkerSlot(cfg, events, key);
    ReachedInvariant(cfg, events);
    ReachedJobsOk(cfg, events);
    var wr := s.writers[s.objects[key].origin.id.run];
    assert WriterInvariant(cfg, s, s.objects[key].origin.id.run, wr);
    assert HoldsSlot(cfg, s, wr.plan, ARTIFACT) && HoldsSlot(cfg, s, wr.plan, EVIDENCE);
    OneMarkerKey(wr.plan.job.artifact, wr.plan.job.prefix);
    var m := ManifestOf(cfg, wr.plan);
    assert m.artifact.uri == Uri(cfg, wr.plan.job.keys.artifact);
    assert m.evidence.uri == Uri(cfg, wr.plan.job.keys.evidence);
    assert Present(cfg, s, Dirname(key), m.artifact) && Present(cfg, s, Dirname(key), m.evidence);
  }

  // ---- agreement ----

  /** What a run that has succeeded left behind, and under which keys. */
  lemma DoneHolds(cfg: Config, events: seq<Event>, w: nat)
    requires cfg.attempts > 0 && StandardKeys(cfg)
    requires w in Reached(cfg, events).writers && Reached(cfg, events).writers[w].phase.Done?
    ensures var s, p := Reached(cfg, events), Reached(cfg, events).writers[w].plan;
      && HoldsSlot(cfg, s, p, ARTIFACT) && HoldsSlot(cfg, s, p, EVIDENCE) && HoldsSlot(cfg, s, p, MARKER)
      && BuildKeys(p.job.artifact, p.job.prefix) == Some(p.job.keys)
  {
    ReachedInvariant(cfg, events);
    ReachedJobsOk(cfg, events);
    assert WriterInvariant(cfg, Reached(cfg, events), w, Reached(cfg, events).writers[w]);
  }

  /** Two successful runs with the same keys return the same receipt, however each of them came to succeed. */
  lemma Agreement(cfg: Config, events: seq<Event>, v: nat, w: nat)
    requires cfg.attempts > 0 && StandardKeys(cfg)
    requires v in Reached(cfg, events).writers && w in Reached(cfg, events).writers
    requires Reached(cfg, events).writers[v].phase.Done? && Reached(cfg, events).writers[w].phase.Done?
    requires Reached(cfg, events).writers[v].plan.job.keys == Reached(cfg, events).writers[w].plan.job.keys
    ensures ReceiptOf(cfg, Reached(cfg, events).writers[v].plan) == ReceiptOf(cfg, Reached(cfg, events).writers[w].plan)
  {
    var x, y := Reached(cfg, events).writers[v], Reached(cfg, events).writers[w];
    DoneHolds(cfg, events, v);
    DoneHolds(cfg, events, w);
    KeysNeverCoincide(x.plan.job.artifact, x.plan.job.prefix, y.plan.job.artifact, y.plan.job.prefix);
  }

  /**
   * With a hash that has no collisions, it is enough that the runs share the evidence and marker keys: they then
   * committed the same manifest, the same bytes and the same extension. Runs with different artifact bytes or
   * different extensions cannot both succeed.
   */
  lemma AgreementByHash(cfg: Config, events: seq<Event>, v: nat, w: nat)
    requires cfg.attempts > 0 && StandardKeys(cfg) && InjectiveHash(cfg) && InjectiveManifests(cfg)
    requires v in Reached(cfg, events).writers && w in Reached(cfg, events).writers
    requires Reached(cfg, events).writers[v].phase.Done? && Reached(cfg, events).writers[w].phase.Done?
    requires var k, l := Reached(cfg, events).writers[v].plan.job.keys, Reached(cfg, events).writers[w].plan.job.keys;
      k.evidence == l.evidence && k.completion == l.completion
    ensures var x, y := Reached(cfg, events).writers[v], Reached(cfg, events).writers[w];
      && ManifestOf(cfg, x.plan) == ManifestOf(cfg, y.plan)
      && ReceiptOf(cfg, x.plan) == ReceiptOf(cfg, y.plan)
      && x.plan.job.bytes == y.plan.job.bytes
      && x.plan.job.artifact.extension == y.plan.job.artifact.extension
      && StagedOf(x.plan) == StagedOf(y.plan)
  {
    var x, y := Reached(cfg, events).writers[v], Reached(cfg, events).writers[w];
    DoneHolds(cfg, events, v);
    DoneHolds(cfg, events, w);
    assert cfg.encode(ManifestOf(cfg, x.plan)) == cfg.encode(ManifestOf(cfg, y.plan));
    var m, n := ManifestOf(cfg, x.plan), ManifestOf(cfg, y.plan);
    assert m.artifact == n.artifact && m.evidence == n.evidence;
    UriInjective(cfg, x.plan.job.keys.artifact, y.plan.job.keys.artifact);
    KeysNeverCoincide(x.plan.job.artifact, x.plan.job.prefix, y.plan.job.artifact, y.plan.job.prefix);
  }

  lemma UriInjective(cfg: Config, k: string, l: string)
    ensures Uri(cfg, k) == Uri(cfg, l) <==> k == l
  {
    var head := "s3://" + cfg.bucket + "/";
    if Uri(cfg, k) == Uri(cfg, l) {
      assert (head + k)[|head|..] == k && (head + l)[|head|..] == l;
    }
  }

  // ---- the attempt bound ----

  predicate InCall(s: System, w: nat, slot: Slot) {
    w in s.writers && s.writers[w].phase.Putting? && s.writers[w].phase.slot == slot
  }

  /** The event sends a PUT of the run's call. */
  predicate Sends(s: System, e: Event, w: nat, slot: Slot) {
    e == Send(w) && InCall(s, w, slot) && s.writers[w].phase.put.Ready?
  }

  /** The event is a HEAD that reconciles the run's call. */
  predicate Reconciles(s: System, e: Event, w: nat, slot: Slot) {
    && e.Head? && e.run == w && InCall(s, w, slot) && s.writers[w].phase.put.Reconciling?
    && e.key == KeyOf(s.writers[w].plan.job, slot) && (e.answer.Seen? ==> e.key in s.objects)
  }

  function PutsSent(cfg: Config, events: seq<Event>, w: nat, slot: Slot): nat {
    if events == [] then 0
    else
      var init, e := events[..|events| - 1], events[|events| - 1];
      PutsSent(cfg, init, w, slot) + if Sends(Reached(cfg, init), e, w, slot) then 1 else 0
  }

  function HeadsSent(cfg: Config, events: seq<Event>, w: nat, slot: Slot): nat {
    if events == [] then 0
    else
      var init, e := events[..|events| - 1], events[|events| - 1];
      HeadsSent(cfg, init, w, slot) + if Reconciles(Reached(cfg, init), e, w, slot) then 1 else 0
  }

  function PutBound(cfg: Config, wr: Writer, slot: Slot): nat {
    if slot >= Begun(wr) then 0
    else if wr.phase.Putting? && wr.phase.slot == slot then SentAttempts(wr.phase.put)
    else cfg.attempts
  }

  function HeadBound(cfg: Config, wr: Writer, slot: Slot): nat {
    if slot >= Begun(wr) then 0
    else if wr.phase.Putting? && wr.phase.slot == slot then wr.phase.put.attempt
    else cfg.attempts
  }

  lemma OthersKeepTheRun(cfg: Config, s: System, e: Event, w: nat)
    requires !IsBy(e, w)
    ensures w in s.writers <==> w in Step(cfg, s, e).writers
    ensures w in s.writers ==> Step(cfg, s, e).writers[w] == s.writers[w]
  {
  }

  lemma SettleBounds(cfg: Config, wr: Writer, slot: Slot, step: PutStep, k: Slot)
    requires wr.phase.Putting? && wr.phase.slot == slot && !wr.phase.put.Ready? && wr.phase.put.attempt < cfg.attempts
    requires step.Continue? ==>
      SentAttempts(step.phase) > wr.phase.put.attempt && step.phase.attempt >= wr.phase.put.attempt
    ensures PutBound(cfg, wr, k) <= PutBound(cfg, Settle(cfg, wr, slot, step), k)
    ensures HeadBound(cfg, wr, k) <= HeadBound(cfg, Settle(cfg, wr, slot, step), k)
    ensures (k == slot && (step.Continue? ==> step.phase.attempt > wr.phase.put.attempt))
      ==> HeadBound(cfg, wr, k) + 1 <= HeadBound(cfg, Settle(cfg, wr, slot, step), k)
  {
  }

  lemma BoundsStep(cfg: Config, s: System, e: Event, w: nat, k: Slot)
    requires cfg.attempts > 0 && Invariant(cfg, s) && w in s.writers
    ensures w in Step(cfg, s, e).writers
    ensures var wr, next := s.writers[w], Step(cfg, s, e).writers[w];
      && PutBound(cfg, wr, k) + (if Sends(s, e, w, k) then 1 else 0) <= PutBound(cfg, next, k)
      && HeadBound(cfg, wr, k) + (if Reconciles(s, e, w, k) then 1 else 0) <= HeadBound(cfg, next, k)
  {
    var wr := s.writers[w];
    assert WriterInvariant(cfg, s, w, wr);
    if !IsBy(e, w) {
      OthersKeepTheRun(cfg, s, e, w);
    } else {
      match e
      case Head(_, key, answer) => if Asks(wr, key) { HeadBounds(cfg, s, w, key, answer, k); }
      case Respond(_, response) => RespondBounds(cfg, s, w, response, k);
      case _ =>
    }
  }

  lemma HeadBounds(cfg: Config, s: System, w: nat, key: string, answer: HeadAnswer, k: Slot)
    requires w in s.writers && (s.writers[w].phase.Putting? ==> s.writers[w].phase.put.attempt < cfg.attempts)
    ensures var wr, next := s.writers[w], StepHead(cfg, s, s.writers[w], answer);
      && PutBound(cfg, wr, k) <= PutBound(cfg, next, k)
      && HeadBound(cfg, wr, k) + (if Reconciles(s, Head(w, key, answer), w, k) then 1 else 0) <= HeadBound(cfg, next, k)
  {
    var wr := s.writers[w];
    if wr.phase.Putting? && wr.phase.put.Reconciling? {
      var slot, attempt := wr.phase.slot, wr.phase.put.attempt;
      var taken, body := KeyOf(wr.plan.job, slot), PayloadOf(cfg, wr.plan, slot);
      var found := if answer.Broken? then Unreadable
        else if answer.Missing? then Absent
        else if taken in s.objects then Compare(s.objects[taken], body, cfg.sha(body)) else Match;
      SettleBounds(cfg, wr, slot, AfterHead(cfg.attempts, attempt, found), k);
    }
  }

  lemma RespondBounds(cfg: Config, s: System, w: nat, response: Response, k: Slot)
    requires w in s.writers && (s.writers[w].phase.Putting? ==> s.writers[w].phase.put.attempt < cfg.attempts)
    ensures var t := StepRespond(cfg, s, w, s.writers[w], response);
      && w in t.writers
      && PutBound(cfg, s.writers[w], k) <= PutBound(cfg, t.writers[w], k)
      && HeadBound(cfg, s.writers[w], k) <= HeadBound(cfg, t.writers[w], k)
  {
    var wr := s.writers[w];
    if wr.phase.Putting? && wr.phase.put.Waiting? {
      var put := wr.phase.put;
      SettleBounds(cfg, wr, wr.phase.slot, AfterResponse(cfg.attempts, put.attempt, put.ambiguous, response), k);
    }
  }

  /** In every behaviour each PUT call sends at most the allowed number of PUTs and of HEADs. */
  lemma {:induction false} AttemptsAreBounded(cfg: Config, events: seq<Event>, w: nat, slot: Slot)
    requires cfg.attempts > 0
    ensures PutsSent(cfg, events, w, slot) <= cfg.attempts && HeadsSent(cfg, events, w, slot) <= cfg.attempts
    ensures var s := Reached(cfg, events);
      if w in s.writers
      then PutsSent(cfg, events, w, slot) <= PutBound(cfg, s.writers[w], slot)
        && HeadsSent(cfg, events, w, slot) <= HeadBound(cfg, s.writers[w], slot)
      else PutsSent(cfg, events, w, slot) == HeadsSent(cfg, events, w, slot) == 0
  {
    var s := Reached(cfg, events);
    ReachedInvariant(cfg, events);
    assert w in s.writers ==> WriterInvariant(cfg, s, w, s.writers[w]);
    if events != [] {
      var init, e := events[..|events| - 1], events[|events| - 1];
      AttemptsAreBounded(cfg, init, w, slot);
      ReachedInvariant(cfg, init);
      if w in Reached(cfg, init).writers {
        BoundsStep(cfg, Reached(cfg, init), e, w, slot);
      }
    }
  }
}
