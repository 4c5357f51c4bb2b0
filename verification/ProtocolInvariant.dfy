/** The invariant that every event keeps. */
module ProtocolInvariant {
  import opened Basics
  import opened PutMachine
  import opened Protocol

  /** An object of this length, with this declared length and hash, is at the key. */
  ghost predicate Holds(objects: map<string, Object>, key: string, length: nat, sha: string) {
    && key in objects
    && |objects[key].body| == length
    && objects[key].declaredSize == Some(length)
    && objects[key].declaredSha == Some(sha)
  }

  ghost predicate HoldsSlot(cfg: Config, s: System, p: Plan, slot: Slot) {
    var body := PayloadOf(cfg, p, slot);
    Holds(s.objects, KeyOf(p.job, slot), |body|, cfg.sha(body))
  }

  /** The request has not been applied and will not be. */
  ghost predicate NeverApplied(s: System, id: RequestId) {
    && (forall r :: r in s.pending ==> r.id != id)
    && (forall k :: k in s.objects ==> s.objects[k].origin != Sent(id))
  }

  /** Requests come from the runs, as the runs issue them. */
  ghost predicate GenuineRequest(cfg: Config, s: System, r: Request) {
    var id := r.id;
    && id.run in s.writers
    && Issued(cfg, s.writers[id.run], id.slot, id.attempt)
    && r == RequestOf(cfg, id.run, s.writers[id.run].plan, id.slot, id.attempt)
  }

  ghost predicate GenuineObject(cfg: Config, s: System, key: string)
    requires key in s.objects && s.objects[key].origin.Sent?
  {
    var id := s.objects[key].origin.id;
    && id.run in s.writers
    && Issued(cfg, s.writers[id.run], id.slot, id.attempt)
    && var r := RequestOf(cfg, id.run, s.writers[id.run].plan, id.slot, id.attempt);
       key == r.key && s.objects[key] == ObjectOf(r)
  }

  /** The key is taken, and not by a request of this call. */
  ghost predicate TakenByAnother(s: System, key: string, w: nat, slot: Slot) {
    && key in s.objects
    && (s.objects[key].origin.Sent? ==> s.objects[key].origin.id.run != w || s.objects[key].origin.id.slot != slot)
  }

  ghost predicate PutInvariant(cfg: Config, s: System, w: nat, slot: Slot, put: PutPhase) {
    && put.attempt < cfg.attempts
    // while no attempt has been ambiguous, no earlier attempt has been or will be applied
    && (!put.ambiguous ==> forall a: nat :: a < put.attempt ==> NeverApplied(s, RequestId(w, slot, a)))
  }

  ghost predicate WriterInvariant(cfg: Config, s: System, w: nat, wr: Writer) {
    && (Begun(wr) >= 2 ==> wr.plan.evidence.Some?)
    && Finished(wr) <= Begun(wr)
    && (forall slot: Slot :: slot < Finished(wr) ==> HoldsSlot(cfg, s, wr.plan, slot))
    && (wr.phase.Putting? ==>
          && PutInvariant(cfg, s, w, wr.phase.slot, wr.phase.put)
          && |PayloadOf(cfg, wr.plan, wr.phase.slot)| <= cfg.maxBytes)
    && (wr.phase.Failed? && wr.phase.error.Collision? ==>
          wr.phase.begun > 0 && TakenByAnother(s, KeyOf(wr.plan.job, wr.phase.begun - 1), w, wr.phase.begun - 1))
  }

  ghost predicate Invariant(cfg: Config, s: System) {
    && (forall r :: r in s.pending ==> GenuineRequest(cfg, s, r))
    && (forall k :: k in s.objects && s.objects[k].origin.Sent? ==> GenuineObject(cfg, s, k))
    && (forall w :: w in s.writers ==> WriterInvariant(cfg, s, w, s.writers[w]))
  }

  // ---- two ways for a step to keep it ----

  /** What a run has already issued stays as it was. */
  ghost predicate Advances(cfg: Config, wr: Writer, next: Writer) {
    && wr.plan.job == next.plan.job
    && (wr.plan.evidence == next.plan.evidence || Begun(wr) <= 1)
    && (forall slot: Slot, a: nat :: Issued(cfg, wr, slot, a) ==> Issued(cfg, next, slot, a))
  }

  lemma IssuedUnchanged(cfg: Config, w: nat, wr: Writer, next: Writer, slot: Slot, a: nat)
    requires Advances(cfg, wr, next) && Issued(cfg, wr, slot, a)
    ensures Issued(cfg, next, slot, a) && RequestOf(cfg, w, wr.plan, slot, a) == RequestOf(cfg, w, next.plan, slot, a)
  {
  }

  /** A run moves: it may send one request that it has issued; nothing is stored. */
  lemma WriterMoves(cfg: Config, s: System, w: nat, next: Writer, pending: set<Request>, added: set<Request>)
    requires Invariant(cfg, s) && w in s.writers && Advances(cfg, s.writers[w], next)
    requires pending <= s.pending + added
    requires forall r :: r in added ==>
      r.id.run == w && GenuineRequest(cfg, s.(pending := pending, writers := s.writers[w := next]), r)
    requires WriterInvariant(cfg, s.(pending := pending, writers := s.writers[w := next]), w, next)
    ensures Invariant(cfg, s.(pending := pending, writers := s.writers[w := next]))
  {
    var t := s.(pending := pending, writers := s.writers[w := next]);
    forall r | r in t.pending ensures GenuineRequest(cfg, t, r) {
      if r !in added {
        RequestStaysGenuine(cfg, s, t, w, r);
      }
    }
    forall k | k in t.objects && t.objects[k].origin.Sent? ensures GenuineObject(cfg, t, k) {
      ObjectStaysGenuine(cfg, s, t, w, k);
    }
    forall v | v in t.writers && v != w ensures WriterInvariant(cfg, t, v, t.writers[v]) {
      StaysForOthers(cfg, s, t, v, s.writers[v]);
    }
  }

  lemma RequestStaysGenuine(cfg: Config, s: System, t: System, w: nat, r: Request)
    requires GenuineRequest(cfg, s, r) && w in s.writers && w in t.writers && Advances(cfg, s.writers[w], t.writers[w])
    requires t.writers == s.writers[w := t.writers[w]]
    ensures GenuineRequest(cfg, t, r)
  {
    if r.id.run == w {
      IssuedUnchanged(cfg, w, s.writers[w], t.writers[w], r.id.slot, r.id.attempt);
    }
  }

  lemma ObjectStaysGenuine(cfg: Config, s: System, t: System, w: nat, k: string)
    requires k in s.objects && s.objects[k].origin.Sent? && GenuineObject(cfg, s, k)
    requires w in s.writers && w in t.writers && Advances(cfg, s.writers[w], t.writers[w])
    requires t.writers == s.writers[w := t.writers[w]] && t.objects == s.objects
    ensures GenuineObject(cfg, t, k)
  {
    var id := s.objects[k].origin.id;
    if id.run == w {
      IssuedUnchanged(cfg, w, s.writers[w], t.writers[w], id.slot, id.attempt);
    }
  }

  /** Another run's part survives when nothing of it is sent and the store only grows by what was pending. */
  lemma StaysForOthers(cfg: Config, s: System, t: System, v: nat, wr: Writer)
    requires WriterInvariant(cfg, s, v, wr)
    requires forall k :: k in s.objects ==> k in t.objects && t.objects[k] == s.objects[k]
    requires forall r :: r in t.pending && r.id.run == v ==> r in s.pending
    requires forall k :: k in t.objects && k !in s.objects && t.objects[k].origin.Sent? ==>
      exists r :: r in s.pending && r.id == t.objects[k].origin.id
    ensures WriterInvariant(cfg, t, v, wr)
  {
    forall slot: Slot | slot < Finished(wr) ensures HoldsSlot(cfg, t, wr.plan, slot) {
      assert HoldsSlot(cfg, s, wr.plan, slot);
    }
    if wr.phase.Putting? && !wr.phase.put.ambiguous {
      forall a: nat | a < wr.phase.put.attempt ensures NeverApplied(t, RequestId(v, wr.phase.slot, a)) {
        assert NeverApplied(s, RequestId(v, wr.phase.slot, a));
      }
    }
  }

  /** The store or the network moves: pending requests vanish, and at most one object appears. */
  lemma StoreMoves(cfg: Config, s: System, t: System)
    requires Invariant(cfg, s) && t.writers == s.writers && t.pending <= s.pending
    requires forall k :: k in s.objects ==> k in t.objects && t.objects[k] == s.objects[k]
    requires forall k :: k in t.objects && k !in s.objects && t.objects[k].origin.Sent? ==>
      exists r :: r in s.pending && r.key == k && t.objects[k] == ObjectOf(r)
    ensures Invariant(cfg, t)
  {
    forall k | k in t.objects && t.objects[k].origin.Sent? ensures GenuineObject(cfg, t, k) {
      if k in s.objects {
        assert GenuineObject(cfg, s, k);
      } else {
        var r :| r in s.pending && r.key == k && t.objects[k] == ObjectOf(r);
        assert GenuineRequest(cfg, s, r);
      }
    }
    forall r | r in t.pending ensures GenuineRequest(cfg, t, r) {
      assert GenuineRequest(cfg, s, r);
    }
    forall v | v in t.writers ensures WriterInvariant(cfg, t, v, t.writers[v]) {
      StaysForOthers(cfg, s, t, v, s.writers[v]);
    }
  }

  /** A run moves without sending anything. */
  lemma WriterSteps(cfg: Config, s: System, w: nat, next: Writer)
    requires Invariant(cfg, s) && w in s.writers
    requires Advances(cfg, s.writers[w], next) && WriterInvariant(cfg, s, w, next)
    ensures Invariant(cfg, s.(writers := s.writers[w := next]))
  {
    var t := s.(writers := s.writers[w := next]);
    StaysForOthers(cfg, s, t, w, next);
    assert t == s.(pending := s.pending, writers := s.writers[w := next]);
    WriterMoves(cfg, s, w, next, s.pending, {});
  }

  // ---- one lemma per kind of event ----

  lemma StartKeeps(cfg: Config, s: System, w: nat, job: Job)
    requires Invariant(cfg, s) && w !in s.writers
    ensures Invariant(cfg, s.(writers := s.writers[w := Writer(Plan(job, None), Checking(0))]))
  {
    var t := s.(writers := s.writers[w := Writer(Plan(job, None), Checking(0))]);
    forall r | r in t.pending ensures GenuineRequest(cfg, t, r) {
      assert GenuineRequest(cfg, s, r);
    }
    forall k | k in t.objects && t.objects[k].origin.Sent? ensures GenuineObject(cfg, t, k) {
      assert GenuineObject(cfg, s, k);
    }
    forall v | v in t.writers && v != w ensures WriterInvariant(cfg, t, v, t.writers[v]) {
      StaysForOthers(cfg, s, t, v, s.writers[v]);
    }
  }

  /** The next PUT call may begin once the calls before it have succeeded. */
  lemma BeginKeeps(cfg: Config, s: System, w: nat, wr: Writer, slot: Slot)
    requires cfg.attempts > 0 && (slot > 0 ==> wr.plan.evidence.Some?)
    requires forall before: Slot :: before < slot ==> HoldsSlot(cfg, s, wr.plan, before)
    ensures WriterInvariant(cfg, s, w, Begin(cfg, wr, slot))
  {
    var next := Begin(cfg, wr, slot);
    forall before: Slot | before < Finished(next) ensures HoldsSlot(cfg, s, next.plan, before) {
      assert HoldsSlot(cfg, s, wr.plan, before);
    }
  }

  ghost predicate StepJustified(cfg: Config, s: System, w: nat, wr: Writer, slot: Slot, attempt: nat, step: PutStep) {
    match step
    case Continue(put) => SentAttempts(put) > attempt && PutInvariant(cfg, s, w, slot, put)
    case Stored => HoldsSlot(cfg, s, wr.plan, slot)
    case Collided => TakenByAnother(s, KeyOf(wr.plan.job, slot), w, slot)
    case GaveUp(_) => true
  }

  lemma SettleKeeps(cfg: Config, s: System, w: nat, slot: Slot, step: PutStep)
    requires cfg.attempts > 0 && Invariant(cfg, s) && w in s.writers
    requires s.writers[w].phase.Putting? && s.writers[w].phase.slot == slot && !s.writers[w].phase.put.Ready?
    requires StepJustified(cfg, s, w, s.writers[w], slot, s.writers[w].phase.put.attempt, step)
    ensures Invariant(cfg, s.(writers := s.writers[w := Settle(cfg, s.writers[w], slot, step)]))
  {
    var wr := s.writers[w];
    var next := Settle(cfg, wr, slot, step);
    forall before: Slot | before < Finished(next) ensures HoldsSlot(cfg, s, next.plan, before) {
      assert HoldsSlot(cfg, s, wr.plan, before);
    }
    if step.Stored? && slot == EVIDENCE {
      forall before: Slot | before < MARKER ensures HoldsSlot(cfg, s, wr.plan, before) {
        assert before < slot ==> HoldsSlot(cfg, s, wr.plan, before);
      }
      BeginKeeps(cfg, s, w, wr, MARKER);
    }
    WriterSteps(cfg, s, w, next);
  }

  lemma CreatedMeansStored(cfg: Config, s: System, w: nat, wr: Writer, slot: Slot, attempt: nat)
    requires Invariant(cfg, s) && w in s.writers && wr == s.writers[w]
    requires CreatedBy(s, RequestOf(cfg, w, wr.plan, slot, attempt))
    ensures HoldsSlot(cfg, s, wr.plan, slot)
  {
    assert GenuineObject(cfg, s, KeyOf(wr.plan.job, slot));
  }

  lemma RefusedMeansTaken(cfg: Config, s: System, w: nat, wr: Writer, slot: Slot, attempt: nat)
    requires Invariant(cfg, s) && w in s.writers && wr == s.writers[w]
    requires wr.phase == Putting(slot, Waiting(attempt, false))
    requires KeyOf(wr.plan.job, slot) in s.objects && !CreatedBy(s, RequestOf(cfg, w, wr.plan, slot, attempt))
    ensures TakenByAnother(s, KeyOf(wr.plan.job, slot), w, slot)
  {
    var key := KeyOf(wr.plan.job, slot);
    assert PutInvariant(cfg, s, w, slot, Waiting(attempt, false));
    assert s.objects[key].origin.Sent? ==> GenuineObject(cfg, s, key);
  }

  lemma RefusedForGood(cfg: Config, s: System, w: nat, wr: Writer, slot: Slot, attempt: nat)
    requires Invariant(cfg, s) && w in s.writers && wr == s.writers[w]
    requires !CreatedBy(s, RequestOf(cfg, w, wr.plan, slot, attempt))
    ensures var pending := s.pending - {RequestOf(cfg, w, wr.plan, slot, attempt)};
      NeverApplied(s.(pending := pending), RequestId(w, slot, attempt))
  {
    var r := RequestOf(cfg, w, wr.plan, slot, attempt);
    forall q | q in s.pending - {r} ensures q.id != r.id {
      assert GenuineRequest(cfg, s, q);
    }
    forall k | k in s.objects ensures s.objects[k].origin != Sent(r.id) {
      if s.objects[k].origin.Sent? {
        assert GenuineObject(cfg, s, k);
      }
    }
  }

  lemma RespondKeeps(cfg: Config, s: System, w: nat, response: Response)
    requires cfg.attempts > 0 && Invariant(cfg, s) && w in s.writers
    ensures Invariant(cfg, StepRespond(cfg, s, w, s.writers[w], response))
  {
    var wr := s.writers[w];
    if wr.phase.Putting? && wr.phase.put.Waiting? {
      var slot, put := wr.phase.slot, wr.phase.put;
      var r := RequestOf(cfg, w, wr.plan, slot, put.attempt);
      if MayRespond(s, r, response) {
        var u := s.(pending := if response.MeansDoubt() then s.pending else s.pending - {r});
        StoreMoves(cfg, s, u);
        var step := AfterResponse(cfg.attempts, put.attempt, put.ambiguous, response);
        if step.Stored? {
          CreatedMeansStored(cfg, u, w, wr, slot, put.attempt);
        } else if step.Collided? {
          RefusedMeansTaken(cfg, u, w, wr, slot, put.attempt);
        } else if step.Continue? && step.phase.Ready? {
          RefusedForGood(cfg, s, w, wr, slot, put.attempt);
          assert NeverApplied(u, RequestId(w, slot, put.attempt));
        }
        SettleKeeps(cfg, u, w, slot, step);
        assert StepRespond(cfg, s, w, wr, response) == u.(writers := u.writers[w := Settle(cfg, wr, slot, step)]);
      }
    }
  }

  lemma MismatchMeansTaken(cfg: Config, s: System, w: nat, wr: Writer, slot: Slot)
    requires Invariant(cfg, s) && w in s.writers && wr == s.writers[w]
    requires KeyOf(wr.plan.job, slot) in s.objects
    requires var body := PayloadOf(cfg, wr.plan, slot);
      Compare(s.objects[KeyOf(wr.plan.job, slot)], body, cfg.sha(body)) == Conflict
    ensures TakenByAnother(s, KeyOf(wr.plan.job, slot), w, slot)
  {
    var key := KeyOf(wr.plan.job, slot);
    if s.objects[key].origin.Sent? {
      assert GenuineObject(cfg, s, key);
    }
  }

  lemma HeadKeeps(cfg: Config, s: System, w: nat, answer: HeadAnswer)
    requires cfg.attempts > 0 && Invariant(cfg, s) && w in s.writers
    ensures Invariant(cfg, s.(writers := s.writers[w := StepHead(cfg, s, s.writers[w], answer)]))
  {
    var wr := s.writers[w];
    var next := StepHead(cfg, s, wr, answer);
    if wr.phase.Checking? {
      if answer.Missing? && wr.phase.probe == 2 {
        BeginKeeps(cfg, s, w, wr, ARTIFACT);
      }
      WriterSteps(cfg, s, w, next);
    } else if wr.phase.Putting? && wr.phase.put.Reconciling? {
      var slot, attempt := wr.phase.slot, wr.phase.put.attempt;
      var key, body := KeyOf(wr.plan.job, slot), PayloadOf(cfg, wr.plan, slot);
      if answer.Broken? {
        SettleKeeps(cfg, s, w, slot, AfterHead(cfg.attempts, attempt, Unreadable));
      } else if answer.Missing? {
        SettleKeeps(cfg, s, w, slot, AfterHead(cfg.attempts, attempt, Absent));
      } else if key in s.objects {
        var found := Compare(s.objects[key], body, cfg.sha(body));
        if found == Conflict {
          MismatchMeansTaken(cfg, s, w, wr, slot);
        }
        SettleKeeps(cfg, s, w, slot, AfterHead(cfg.attempts, attempt, found));
      } else {
        assert s.writers[w := next] == s.writers;
      }
    } else {
      assert s.writers[w := next] == s.writers;
    }
  }

  lemma SendKeeps(cfg: Config, s: System, w: nat)
    requires Invariant(cfg, s) && w in s.writers
    ensures Invariant(cfg, StepSend(cfg, s, w, s.writers[w]))
  {
    var wr := s.writers[w];
    if wr.phase.Putting? && wr.phase.put.Ready? {
      var slot, put := wr.phase.slot, wr.phase.put;
      var r := RequestOf(cfg, w, wr.plan, slot, put.attempt);
      var next := wr.(phase := Putting(slot, Waiting(put.attempt, put.ambiguous)));
      var t := s.(pending := s.pending + {r}, writers := s.writers[w := next]);
      forall before: Slot | before < Finished(next) ensures HoldsSlot(cfg, t, next.plan, before) {
        assert HoldsSlot(cfg, s, wr.plan, before);
      }
      if !put.ambiguous {
        forall a: nat | a < put.attempt ensures NeverApplied(t, RequestId(w, slot, a)) {
          assert NeverApplied(s, RequestId(w, slot, a));
        }
      }
      WriterMoves(cfg, s, w, next, s.pending + {r}, {r});
    }
  }

  lemma StageKeeps(cfg: Config, s: System, w: nat, staged: Option<Staged>)
    requires cfg.attempts > 0 && Invariant(cfg, s) && w in s.writers
    ensures Invariant(cfg, s.(writers := s.writers[w := StepStage(cfg, s.writers[w], staged)]))
  {
    var wr := s.writers[w];
    var next := StepStage(cfg, wr, staged);
    if wr.phase.Staging? {
      assert HoldsSlot(cfg, s, wr.plan, ARTIFACT);
      if staged.Some? {
        assert HoldsSlot(cfg, s, wr.plan.(evidence := staged), ARTIFACT);
        BeginKeeps(cfg, s, w, wr.(plan := wr.plan.(evidence := staged)), EVIDENCE);
      }
      WriterSteps(cfg, s, w, next);
    } else {
      assert s.writers[w := next] == s.writers;
    }
  }

  lemma CrashKeeps(cfg: Config, s: System, w: nat)
    requires Invariant(cfg, s) && w in s.writers
    ensures Invariant(cfg, s.(writers := s.writers[w := StepCrash(s.writers[w])]))
  {
    var wr := s.writers[w];
    var next := StepCrash(wr);
    forall before: Slot | before < Finished(next) ensures HoldsSlot(cfg, s, next.plan, before) {
      assert HoldsSlot(cfg, s, wr.plan, before);
    }
    WriterSteps(cfg, s, w, next);
  }

  /** Every event keeps the invariant. */
  lemma StepKeeps(cfg: Config, s: System, e: Event)
    requires cfg.attempts > 0 && Invariant(cfg, s)
    ensures Invariant(cfg, Step(cfg, s, e))
  {
    match e
    case Start(w, job) => if w !in s.writers && JobOk(cfg, job) { StartKeeps(cfg, s, w, job); }
    case Head(w, _, answer) => if w in s.writers { HeadKeeps(cfg, s, w, answer); }
    case Send(w) => if w in s.writers { SendKeeps(cfg, s, w); }
    case Respond(w, response) => if w in s.writers { RespondKeeps(cfg, s, w, response); }
    case StageEvidence(w, staged) => if w in s.writers { StageKeeps(cfg, s, w, staged); }
    case Crash(w) => if w in s.writers { CrashKeeps(cfg, s, w); }
    case Deliver(r) => StoreMoves(cfg, s, Step(cfg, s, e));
    case Lose(r) => StoreMoves(cfg, s, Step(cfg, s, e));
    case Intrude(key, o) => StoreMoves(cfg, s, Step(cfg, s, e));
  }

  /** Every reachable state satisfies the invariant. */
  lemma {:induction false} RunKeeps(cfg: Config, s: System, events: seq<Event>)
    requires cfg.attempts > 0 && Invariant(cfg, s)
    ensures Invariant(cfg, Run(cfg, s, events))
  {
    if events != [] {
      RunKeeps(cfg, s, events[..|events| - 1]);
      StepKeeps(cfg, Run(cfg, s, events[..|events| - 1]), events[|events| - 1]);
    }
  }
}
