/**
 * What a run was answered in one of its PUT calls, read off a behaviour; and that every call in every behaviour
 * stands where these answers alone put it.
 */
module CallLog {
  import opened Basics
  import opened PutMachine
  import opened Protocol
  import opened ProtocolInvariant
  import opened ProtocolTheorems

  /** The event is the response to the run's PUT in this call. */
  predicate Answers(cfg: Config, s: System, e: Event, w: nat, slot: Slot) {
    && e.Respond? && e.run == w && InCall(s, w, slot) && s.writers[w].phase.put.Waiting?
    && MayRespond(s, RequestOf(cfg, w, s.writers[w].plan, slot, s.writers[w].phase.put.attempt), e.response)
  }

  /** What a HEAD tells the call about the object at its key. */
  function Finding(cfg: Config, s: System, w: nat, slot: Slot, answer: HeadAnswer): Reconciliation
    requires w in s.writers && (answer.Seen? ==> KeyOf(s.writers[w].plan.job, slot) in s.objects)
  {
    var body := PayloadOf(cfg, s.writers[w].plan, slot);
    match answer
    case Broken => Unreadable
    case Missing => Absent
    case Seen => Compare(s.objects[KeyOf(s.writers[w].plan.job, slot)], body, cfg.sha(body))
  }

  /** The finding is a match exactly when HEAD shows an object of the intended length with exactly the intended
      declarations, and a conflict exactly when it shows any other; it is never lost. */
  lemma FindingMeaning(cfg: Config, s: System, w: nat, slot: Slot, answer: HeadAnswer)
    requires w in s.writers && (answer.Seen? ==> KeyOf(s.writers[w].plan.job, slot) in s.objects)
    ensures var found := Finding(cfg, s, w, slot, answer);
      && (found.Absent? <==> answer.Missing?) && (found.Unreadable? <==> answer.Broken?)
      && (answer.Seen? ==> (found.Match? <==> HoldsSlot(cfg, s, s.writers[w].plan, slot)))
      && (answer.Seen? ==> (found.Conflict? <==> !HoldsSlot(cfg, s, s.writers[w].plan, slot)))
  {
  }

  function Noted(cfg: Config, s: System, log: seq<Exchange>, e: Event, w: nat, slot: Slot): seq<Exchange> {
    if Answers(cfg, s, e, w, slot) then log + [Exchange(e.response, None)]
    else if Reconciles(s, e, w, slot) && log != [] then
      log[..|log| - 1] + [Exchange(log[|log| - 1].response, Some(Finding(cfg, s, w, slot, e.answer)))]
    else log
  }

  /** The exchanges of the run's call, one for each attempt that was answered. */
  function LogOf(cfg: Config, events: seq<Event>, w: nat, slot: Slot): seq<Exchange> {
    if events == [] then []
    else
      var init := events[..|events| - 1];
      Noted(cfg, Reached(cfg, init), LogOf(cfg, init, w, slot), events[|events| - 1], w, slot)
  }

  lemma {:induction false} LogSnoc(cfg: Config, events: seq<Event>, e: Event, w: nat, slot: Slot)
    ensures Reached(cfg, events + [e]) == Step(cfg, Reached(cfg, events), e)
    ensures LogOf(cfg, events + [e], w, slot)
         == Noted(cfg, Reached(cfg, events), LogOf(cfg, events, w, slot), e, w, slot)
  {
    assert (events + [e])[..|events|] == events;
  }

  /** The run stands where the machine stands after the exchanges. */
  ghost predicate Obeys(attempts: nat, wr: Writer, slot: Slot, log: seq<Exchange>) {
    var step := Play(attempts, log);
    if slot >= Begun(wr) then log == []
    else if slot < Finished(wr) then step.Stored?
    else
      match wr.phase
      case Putting(_, put) => InStep(attempts, put, log)
      case Failed(_, _, error) =>
        && (error.Collision? <==> step.Collided?)
        && (error.StoreFailure? <==> step.GaveUp?)
        && (step.GaveUp? ==> step.attempts == |log|)
        && (error.Aborted? <==> step.Continue?)
      case _ => true
  }

  /** What Obeys says while the call is under way, and how it goes on. */
  ghost predicate InStep(attempts: nat, put: PutPhase, log: seq<Exchange>) {
    && Play(attempts, log) == Continue(if put.Waiting? then Ready(put.attempt, put.ambiguous) else put)
    && |log| == put.attempt + if put.Reconciling? then 1 else 0
  }

  lemma {:induction false} SettleObeys(cfg: Config, wr: Writer, slot: Slot, step: PutStep, log: seq<Exchange>)
    requires wr.phase.Putting? && wr.phase.slot == slot && Play(cfg.attempts, log) == step
    requires step.Continue? ==> InStep(cfg.attempts, step.phase, log)
    requires step.GaveUp? ==> step.attempts == |log|
    ensures Obeys(cfg.attempts, Settle(cfg, wr, slot, step), slot, log)
  {
  }

  lemma OtherSlotsObey(cfg: Config, wr: Writer, slot: Slot, step: PutStep, other: Slot, log: seq<Exchange>)
    requires wr.phase.Putting? && wr.phase.slot == slot && other != slot && Obeys(cfg.attempts, wr, other, log)
    ensures Obeys(cfg.attempts, Settle(cfg, wr, slot, step), other, log)
  {
  }

  lemma RespondObeys(cfg: Config, s: System, w: nat, response: Response, slot: Slot, log: seq<Exchange>)
    requires w in s.writers && Obeys(cfg.attempts, s.writers[w], slot, log)
    ensures var t := StepRespond(cfg, s, w, s.writers[w], response);
      w in t.writers && Obeys(cfg.attempts, t.writers[w], slot, Noted(cfg, s, log, Respond(w, response), w, slot))
  {
    var wr := s.writers[w];
    if wr.phase.Putting? && wr.phase.put.Waiting? {
      var put := wr.phase.put;
      var step := AfterResponse(cfg.attempts, put.attempt, put.ambiguous, response);
      if wr.phase.slot != slot {
        OtherSlotsObey(cfg, wr, wr.phase.slot, step, slot, log);
      } else if Answers(cfg, s, Respond(w, response), w, slot) {
        var x := Exchange(response, None);
        assert InStep(cfg.attempts, put, log);
        PlaySnoc(cfg.attempts, log, x);
        SettleObeys(cfg, wr, slot, step, log + [x]);
      }
    }
  }

  lemma HeadObeys(cfg: Config, s: System, w: nat, key: string, answer: HeadAnswer, slot: Slot, log: seq<Exchange>)
    requires cfg.attempts > 0 && w in s.writers && Asks(s.writers[w], key)
    requires Obeys(cfg.attempts, s.writers[w], slot, log)
    ensures var next := StepHead(cfg, s, s.writers[w], answer);
      Obeys(cfg.attempts, next, slot, Noted(cfg, s, log, Head(w, key, answer), w, slot))
  {
    var wr := s.writers[w];
    if wr.phase.Putting? && wr.phase.put.Reconciling? && Reconciles(s, Head(w, key, answer), w, wr.phase.slot) {
      var found := Finding(cfg, s, w, wr.phase.slot, answer);
      var step := AfterHead(cfg.attempts, wr.phase.put.attempt, found);
      assert StepHead(cfg, s, wr, answer) == Settle(cfg, wr, wr.phase.slot, step);
      if wr.phase.slot != slot {
        OtherSlotsObey(cfg, wr, wr.phase.slot, step, slot, log);
      } else {
        assert InStep(cfg.attempts, wr.phase.put, log);
        PlayLooked(cfg.attempts, log, found);
        SettleObeys(cfg, wr, slot, step, Noted(cfg, s, log, Head(w, key, answer), w, slot));
      }
    }
  }

  lemma StepObeys(cfg: Config, s: System, e: Event, w: nat, slot: Slot, log: seq<Exchange>)
    requires cfg.attempts > 0
    requires if w in s.writers then Obeys(cfg.attempts, s.writers[w], slot, log) else log == []
    ensures var t, next := Step(cfg, s, e), Noted(cfg, s, log, e, w, slot);
      if w in t.writers then Obeys(cfg.attempts, t.writers[w], slot, next) else next == []
  {
    if !IsBy(e, w) {
      OthersKeepTheRun(cfg, s, e, w);
    } else if w in s.writers {
      match e
      case Head(_, key, answer) =>
        if Asks(s.writers[w], key) { HeadObeys(cfg, s, w, key, answer, slot, log); }
      case Respond(_, response) => RespondObeys(cfg, s, w, response, slot, log);
      case _ =>
    }
  }

  /** In every behaviour each PUT call of each run stands where PutMachine.Play stands on the answers it was given:
      it is under way, has succeeded, has collided or has given up exactly when Play has. */
  lemma {:induction false} CallsObey(cfg: Config, events: seq<Event>, w: nat, slot: Slot)
    requires cfg.attempts > 0
    ensures var s, log := Reached(cfg, events), LogOf(cfg, events, w, slot);
      if w in s.writers then Obeys(cfg.attempts, s.writers[w], slot, log) else log == []
  {
    if events != [] {
      var init := events[..|events| - 1];
      CallsObey(cfg, init, w, slot);
      StepObeys(cfg, Reached(cfg, init), events[|events| - 1], w, slot, LogOf(cfg, init, w, slot));
    }
  }

  /** Only an answer makes the record longer. */
  lemma {:induction false} LogLength(cfg: Config, events: seq<Event>, e: Event, w: nat, slot: Slot)
    ensures |LogOf(cfg, events + [e], w, slot)|
         == |LogOf(cfg, events, w, slot)| + if Answers(cfg, Reached(cfg, events), e, w, slot) then 1 else 0
  {
    LogSnoc(cfg, events, e, w, slot);
  }

  lemma NotedIsRecord(log: seq<Exchange>, next: seq<Exchange>)
    requires IsRecord(log) && |log| <= |next| <= |log| + 1
    requires forall j :: 0 <= j < |log| ==> next[j].response == log[j].response
    requires forall j :: 0 <= j < |next| && next[j].found.Some? && (j < |log| ==> log[j].found.None?) ==> Looks(next, j)
    ensures IsRecord(next)
  {
    forall k | 0 <= k < |next| && next[k].found.Some? ensures Looks(next, k) {
      if k < |log| && log[k].found.Some? {
        LooksByResponses(log, next, k);
      }
    }
  }

  /** The run is looking at the key, so it had reason to. */
  lemma LookingMeansLooks(attempts: nat, put: PutPhase, log: seq<Exchange>)
    requires attempts > 0 && put.Reconciling? && InStep(attempts, put, log)
    ensures log != [] && Looks(log, |log| - 1) && log[|log| - 1].found.None?
  {
    PlayStands(attempts, log, |log|);
    assert log[..|log|] == log;
  }

  /** What is read off a behaviour is a record: HEADs only where the call looks. */
  lemma {:induction false} LogIsRecord(cfg: Config, events: seq<Event>, w: nat, slot: Slot)
    requires cfg.attempts > 0
    ensures IsRecord(LogOf(cfg, events, w, slot))
  {
    if events != [] {
      var init, e := events[..|events| - 1], events[|events| - 1];
      var s, log := Reached(cfg, init), LogOf(cfg, init, w, slot);
      LogIsRecord(cfg, init, w, slot);
      CallsObey(cfg, init, w, slot);
      var next := Noted(cfg, s, log, e, w, slot);
      if Reconciles(s, e, w, slot) {
        LookingMeansLooks(cfg.attempts, s.writers[w].phase.put, log);
        LooksByResponses(log, next, |log| - 1);
      }
      NotedIsRecord(log, next);
    }
  }
}
