/**
 * A run that failed may all the same have committed, or commit later: its last PUT may have been ambiguous.
 * This module says exactly when.
 */
module ProtocolFailures {
  import opened Basics
  import opened ObjectKeys
  import opened PutMachine
  import opened Protocol
  import opened ProtocolInvariant
  import opened ProtocolTheorems
  import opened CallLog

  /** A marker created by a request of this run is in the store. */
  ghost predicate Committed(s: System, w: nat) {
    exists k :: k in s.objects && CreatedByMarkerPut(s.objects[k], w)
  }

  predicate CreatedByMarkerPut(o: Object, w: nat) {
    o.origin.Sent? && o.origin.id.run == w && o.origin.id.slot == MARKER
  }

  /** A marker PUT of this run is still in flight, and nothing is in its way. */
  ghost predicate MayStillCommit(s: System, w: nat) {
    exists r :: r in s.pending && r.id.run == w && r.id.slot == MARKER && r.key !in s.objects
  }

  ghost predicate HasFailed(s: System, w: nat) { w in s.writers && s.writers[w].phase.Failed? }

  lemma StaysUncommittedStep(cfg: Config, s: System, e: Event, w: nat)
    requires HasFailed(s, w) && !Committed(s, w) && !MayStillCommit(s, w)
    ensures HasFailed(Step(cfg, s, e), w) && !Committed(Step(cfg, s, e), w) && !MayStillCommit(Step(cfg, s, e), w)
  {
    var t := Step(cfg, s, e);
    StepGrows(cfg, s, e);
    forall r | r in t.pending && r.id.run == w && r.id.slot == MARKER ensures r.key in t.objects {
      assert r in s.pending;
    }
    forall k | k in t.objects ensures !CreatedByMarkerPut(t.objects[k], w) {
      if k in s.objects {
        assert !CreatedByMarkerPut(s.objects[k], w);
      } else if e.Deliver? && e.request in s.pending {
        assert t.objects[k] == ObjectOf(e.request);
      }
    }
  }

  lemma {:induction false} StaysUncommitted(cfg: Config, s: System, later: seq<Event>, w: nat)
    requires HasFailed(s, w) && !Committed(s, w) && !MayStillCommit(s, w)
    ensures HasFailed(Run(cfg, s, later), w) && !Committed(Run(cfg, s, later), w)
    ensures !MayStillCommit(Run(cfg, s, later), w)
  {
    if later != [] {
      StaysUncommitted(cfg, s, later[..|later| - 1], w);
      StaysUncommittedStep(cfg, Run(cfg, s, later[..|later| - 1]), later[|later| - 1], w);
    }
  }

  /** A failed run will be found committed in some future if and only if its marker is there already, or a marker
      PUT of it is still in flight towards a free key. */
  lemma FailedRunsCommitExactlyWhen(cfg: Config, events: seq<Event>, w: nat)
    requires HasFailed(Reached(cfg, events), w)
    ensures (exists later :: Committed(Reached(cfg, events + later), w))
       <==> Committed(Reached(cfg, events), w) || MayStillCommit(Reached(cfg, events), w)
  {
    var s := Reached(cfg, events);
    if Committed(s, w) {
      assert events + [] == events;
      assert Committed(Reached(cfg, events + []), w);
    } else if MayStillCommit(s, w) {
      var r :| r in s.pending && r.id.run == w && r.id.slot == MARKER && r.key !in s.objects;
      var later := [Deliver(r)];
      RunAppend(cfg, EMPTY, events, later);
      assert later[..0] == [] && Run(cfg, s, later) == Step(cfg, s, Deliver(r));
      var t := Step(cfg, s, Deliver(r));
      assert r.key in t.objects && CreatedByMarkerPut(t.objects[r.key], w);
      assert Committed(Reached(cfg, events + later), w);
    } else {
      forall later ensures !Committed(Reached(cfg, events + later), w) {
        RunAppend(cfg, EMPTY, events, later);
        StaysUncommitted(cfg, s, later, w);
      }
    }
  }

  // ---- the same in terms of what the run was answered ----

  /** The run's marker call was made and given up. */
  predicate GaveUpMarker(wr: Writer) { wr.phase.Failed? && wr.phase.begun == 3 && wr.phase.error.StoreFailure? }

  /** A definite answer that is not 200 or 204, to a call without doubt: none of its attempts was or will be applied. */
  lemma DefiniteAnswer(cfg: Config, s: System, w: nat, response: Response)
    requires cfg.attempts > 0 && Invariant(cfg, s) && w in s.writers
    requires s.writers[w].phase.Putting? && s.writers[w].phase.slot == MARKER
    requires s.writers[w].phase.put.Waiting? && !s.writers[w].phase.put.ambiguous
    requires !response.MeansDoubt() && !response.MeansCreated()
    requires MayRespond(s, RequestOf(cfg, w, s.writers[w].plan, MARKER, s.writers[w].phase.put.attempt), response)
    ensures var t := StepRespond(cfg, s, w, s.writers[w], response); !Committed(t, w) && !MayStillCommit(t, w)
  {
    var wr := s.writers[w];
    var k := wr.phase.put.attempt;
    var t := StepRespond(cfg, s, w, wr, response);
    assert WriterInvariant(cfg, s, w, wr);
    RefusedForGood(cfg, s, w, wr, MARKER, k);
    assert forall a: nat :: a < k ==> NeverApplied(s, RequestId(w, MARKER, a));
    forall r | r in t.pending ensures !(r.id.run == w && r.id.slot == MARKER) {
      assert GenuineRequest(cfg, s, r);
    }
    forall key | key in t.objects ensures !CreatedByMarkerPut(t.objects[key], w) {
      assert s.objects[key].origin.Sent? ==> GenuineObject(cfg, s, key);
    }
  }

  lemma NotedKeepsDoubt(cfg: Config, s: System, log: seq<Exchange>, e: Event, w: nat, slot: Slot)
    requires HasDoubt(log)
    ensures HasDoubt(Noted(cfg, s, log, e, w, slot))
  {
    var j :| 0 <= j < |log| && log[j].response.MeansDoubt();
    assert Noted(cfg, s, log, e, w, slot)[j].response == log[j].response;
  }

  lemma {:induction false} NoDoubtNoCommit(cfg: Config, events: seq<Event>, w: nat)
    requires cfg.attempts > 0 && w in Reached(cfg, events).writers && GaveUpMarker(Reached(cfg, events).writers[w])
    requires !HasDoubt(LogOf(cfg, events, w, MARKER))
    ensures !Committed(Reached(cfg, events), w) && !MayStillCommit(Reached(cfg, events), w)
  {
    var init, e := events[..|events| - 1], events[|events| - 1];
    var s, log := Reached(cfg, init), LogOf(cfg, init, w, MARKER);
    if HasDoubt(log) {
      NotedKeepsDoubt(cfg, s, log, e, w, MARKER);
    }
    if HasFailed(s, w) {
      FailedStaysPut(cfg, s, e, w);
      NoDoubtNoCommit(cfg, init, w);
      StaysUncommittedStep(cfg, s, e, w);
    } else {
      FailsFromWithin(cfg, s, e, w);
      LastAnswer(cfg, init, e, w);
    }
  }

  lemma FailedStaysPut(cfg: Config, s: System, e: Event, w: nat)
    requires HasFailed(s, w)
    ensures w in Step(cfg, s, e).writers && Step(cfg, s, e).writers[w] == s.writers[w]
  {
    StepGrows(cfg, s, e);
  }

  lemma FailsFromWithin(cfg: Config, s: System, e: Event, w: nat)
    requires HasFailed(Step(cfg, s, e), w)
    ensures w in s.writers
  {
    if !IsBy(e, w) {
      OthersKeepTheRun(cfg, s, e, w);
    }
  }

  /** A marker call that is not looking at the key can only be given up by an answer. */
  lemma GivenUpByAnswer(cfg: Config, s: System, e: Event, w: nat)
    requires w in s.writers && !HasFailed(s, w) && WriterInOrder(s.writers[w])
    requires InCall(s, w, MARKER) ==> !s.writers[w].phase.put.Reconciling?
    requires w in Step(cfg, s, e).writers && GaveUpMarker(Step(cfg, s, e).writers[w])
    ensures e.Respond? && e.run == w && Answers(cfg, s, e, w, MARKER) && !e.response.MeansCreated()
    ensures Step(cfg, s, e) == StepRespond(cfg, s, w, s.writers[w], e.response)
  {
    if !IsBy(e, w) {
      OthersKeepTheRun(cfg, s, e, w);
    }
  }

  /** The step in which a call without doubt is given up. */
  lemma {:induction false} LastAnswer(cfg: Config, init: seq<Event>, e: Event, w: nat)
    requires cfg.attempts > 0 && w in Reached(cfg, init).writers && !HasFailed(Reached(cfg, init), w)
    requires !HasDoubt(LogOf(cfg, init, w, MARKER))
    requires var t := Step(cfg, Reached(cfg, init), e); w in t.writers && GaveUpMarker(t.writers[w])
    requires !HasDoubt(Noted(cfg, Reached(cfg, init), LogOf(cfg, init, w, MARKER), e, w, MARKER))
    ensures var t := Step(cfg, Reached(cfg, init), e); !Committed(t, w) && !MayStillCommit(t, w)
  {
    var s, log := Reached(cfg, init), LogOf(cfg, init, w, MARKER);
    ReachedInvariant(cfg, init);
    ReachedInOrder(cfg, init);
    CallsObey(cfg, init, w, MARKER);
    NoDoubtNoLook(cfg.attempts, log);
    assert InCall(s, w, MARKER) ==> InStep(cfg.attempts, s.writers[w].phase.put, log);
    GivenUpByAnswer(cfg, s, e, w);
    assert (log + [Exchange(e.response, None)])[|log|].response == e.response;
    DefiniteAnswer(cfg, s, w, e.response);
  }

  /** What the caller can see: a run that failed before its marker PUT began, or because that PUT collided, or
      without an ambiguous answer to it, has no marker of its own, now or ever. */
  lemma {:induction false} VisibleFailuresStayUncommitted(cfg: Config, events: seq<Event>, later: seq<Event>, w: nat)
    requires cfg.attempts > 0 && HasFailed(Reached(cfg, events), w)
    requires var wr := Reached(cfg, events).writers[w];
      || wr.phase.begun < 3 || wr.phase.error.Collision?
      || (wr.phase.error.StoreFailure? && !HasDoubt(LogOf(cfg, events, w, MARKER)))
    ensures !Committed(Reached(cfg, events + later), w)
  {
    var s := Reached(cfg, events);
    RunAppend(cfg, EMPTY, events, later);
    if GaveUpMarker(s.writers[w]) {
      NoDoubtNoCommit(cfg, events, w);
      StaysUncommitted(cfg, s, later, w);
    } else {
      RunGrows(cfg, s, later);
      ReachedInvariant(cfg, events + later);
      var t := Reached(cfg, events + later);
      assert WriterInvariant(cfg, t, w, t.writers[w]);
      assert forall k :: k in t.objects && t.objects[k].origin.Sent? ==> GenuineObject(cfg, t, k);
    }
  }

  // ---- every doubtful record can have left a marker ----

  /** A job and its evidence, each of whose three objects fits and has a key of its own. */
  predicate Fits(cfg: Config, p: Plan) {
    && JobOk(cfg, p.job) && p.evidence.Some?
    && p.job.keys.artifact != p.job.keys.evidence && p.job.keys.artifact != p.job.keys.completion
    && p.job.keys.evidence != p.job.keys.completion
    && forall slot: Slot :: |PayloadOf(cfg, p, slot)| <= cfg.maxBytes
  }

  lemma ThenStep(cfg: Config, events: seq<Event>, e: Event)
    ensures Reached(cfg, events + [e]) == Step(cfg, Reached(cfg, events), e)
  {
    assert (events + [e])[..|events|] == events;
  }

  /** One whole PUT that is applied at once and answered by 200. */
  lemma PutApplied(cfg: Config, events: seq<Event>, w: nat, slot: Slot) returns (longer: seq<Event>)
    requires cfg.attempts > 0 && w in Reached(cfg, events).writers
    requires Reached(cfg, events).writers[w].phase == Putting(slot, Ready(0, false))
    requires KeyOf(Reached(cfg, events).writers[w].plan.job, slot) !in Reached(cfg, events).objects
    ensures var wr := Reached(cfg, events).writers[w];
      var r := RequestOf(cfg, w, wr.plan, slot, 0);
      && Reached(cfg, longer).objects == Reached(cfg, events).objects[r.key := ObjectOf(r)]
      && w in Reached(cfg, longer).writers
      && Reached(cfg, longer).writers[w] == Settle(cfg, wr, slot, Stored)
  {
    var s := Reached(cfg, events);
    var wr := s.writers[w];
    var r := RequestOf(cfg, w, wr.plan, slot, 0);
    var s1 := Step(cfg, s, Send(w));
    ThenStep(cfg, events, Send(w));
    assert s1.writers[w] == wr.(phase := Putting(slot, Waiting(0, false)));
    var s2 := Step(cfg, s1, Deliver(r));
    ThenStep(cfg, events + [Send(w)], Deliver(r));
    assert CreatedBy(s2, r) && RequestOf(cfg, w, s2.writers[w].plan, slot, 0) == r;
    longer := events + [Send(w)] + [Deliver(r)] + [Respond(w, Status(200))];
    ThenStep(cfg, events + [Send(w)] + [Deliver(r)], Respond(w, Status(200)));
  }

  lemma ProbesMissing(cfg: Config, w: nat, job: Job) returns (events: seq<Event>)
    requires JobOk(cfg, job)
    ensures var s := Reached(cfg, events);
      && s.objects == map[] && w in s.writers
      && s.writers[w] == Writer(Plan(job, None), Putting(ARTIFACT, Ready(0, false)))
  {
    var k := job.keys;
    events := [Start(w, job)] + [Head(w, k.artifact, Missing)] + [Head(w, k.evidence, Missing)]
      + [Head(w, k.completion, Missing)];
    assert [] + [Start(w, job)] == [Start(w, job)];
    ThenStep(cfg, [], Start(w, job));
    ThenStep(cfg, [Start(w, job)], Head(w, k.artifact, Missing));
    ThenStep(cfg, [Start(w, job)] + [Head(w, k.artifact, Missing)], Head(w, k.evidence, Missing));
    ThenStep(cfg, [Start(w, job)] + [Head(w, k.artifact, Missing)] + [Head(w, k.evidence, Missing)],
      Head(w, k.completion, Missing));
  }

  lemma EvidenceStaged(cfg: Config, events: seq<Event>, w: nat, p: Plan) returns (longer: seq<Event>)
    requires Fits(cfg, p) && w in Reached(cfg, events).writers
    requires Reached(cfg, events).writers[w] == Writer(Plan(p.job, None), Staging)
    ensures Reached(cfg, longer).objects == Reached(cfg, events).objects && w in Reached(cfg, longer).writers
    ensures Reached(cfg, longer).writers[w] == Writer(p, Putting(EVIDENCE, Ready(0, false)))
  {
    longer := events + [StageEvidence(w, p.evidence)];
    ThenStep(cfg, events, StageEvidence(w, p.evidence));
    assert |PayloadOf(cfg, p, EVIDENCE)| <= cfg.maxBytes;
  }

  /** The marker's key as the run's own doubtful attempts left it: taken by one of the first k, or free. */
  ghost predicate MarkerKey(s: System, p: Plan, w: nat, taken: bool, k: nat) {
    var key := KeyOf(p.job, MARKER);
    if taken then key in s.objects && CreatedByMarkerPut(s.objects[key], w) && s.objects[key].origin.id.attempt < k
    else key !in s.objects
  }

  /** The run is about to make the next attempt of its marker PUT, after these exchanges. */
  ghost predicate AtMarker(cfg: Config, events: seq<Event>, w: nat, p: Plan, log: seq<Exchange>, doubt: bool) {
    var s := Reached(cfg, events);
    && w in s.writers && s.writers[w] == Writer(p, Putting(MARKER, Ready(|log|, doubt)))
    && LogOf(cfg, events, w, MARKER) == log
    && MarkerKey(s, p, w, doubt, |log|)
  }

  lemma MarkerReached(cfg: Config, w: nat, p: Plan) returns (events: seq<Event>)
    requires cfg.attempts > 0 && Fits(cfg, p)
    ensures AtMarker(cfg, events, w, p, [], false)
  {
    var probed := ProbesMissing(cfg, w, p.job);
    assert |PayloadOf(cfg, p, MARKER)| <= cfg.maxBytes;
    var stored := PutApplied(cfg, probed, w, ARTIFACT);
    var staged := EvidenceStaged(cfg, stored, w, p);
    events := PutApplied(cfg, staged, w, EVIDENCE);
    CallsObey(cfg, events, w, MARKER);
  }

  /** The attempt is sent; if it is the first to be doubtful it is also applied. */
  lemma AttemptSent(cfg: Config, events: seq<Event>, w: nat, p: Plan, log: seq<Exchange>, doubt: bool, applied: bool)
    returns (longer: seq<Event>)
    requires AtMarker(cfg, events, w, p, log, doubt) && !(doubt && applied)
    ensures var s := Reached(cfg, longer);
      && w in s.writers && s.writers[w] == Writer(p, Putting(MARKER, Waiting(|log|, doubt)))
      && LogOf(cfg, longer, w, MARKER) == log
      && MarkerKey(s, p, w, doubt || applied, |log| + 1)
      && (!applied ==> !CreatedBy(s, RequestOf(cfg, w, p, MARKER, |log|)))
  {
    var r := RequestOf(cfg, w, p, MARKER, |log|);
    longer := events + [Send(w)];
    LogSnoc(cfg, events, Send(w), w, MARKER);
    if applied {
      LogSnoc(cfg, longer, Deliver(r), w, MARKER);
      longer := longer + [Deliver(r)];
    }
  }

  lemma AttemptAnswered(cfg: Config, events: seq<Event>, w: nat, p: Plan, log: seq<Exchange>, doubt: bool,
                        response: Response)
    returns (longer: seq<Event>)
    requires w in Reached(cfg, events).writers && LogOf(cfg, events, w, MARKER) == log
    requires Reached(cfg, events).writers[w] == Writer(p, Putting(MARKER, Waiting(|log|, doubt)))
    requires MayRespond(Reached(cfg, events), RequestOf(cfg, w, p, MARKER, |log|), response)
    ensures var s := Reached(cfg, longer);
      && w in s.writers && s.objects == Reached(cfg, events).objects
      && s.writers[w] == Settle(cfg, Writer(p, Staging), MARKER, AfterResponse(cfg.attempts, |log|, doubt, response))
      && LogOf(cfg, longer, w, MARKER) == log + [Exchange(response, None)]
  {
    longer := events + [Respond(w, response)];
    LogSnoc(cfg, events, Respond(w, response), w, MARKER);
  }

  lemma ReplaceLast(log: seq<Exchange>, x: Exchange, y: Exchange)
    ensures (log + [x])[..|log + [x]| - 1] + [y] == log + [y]
  {
  }

  /** A HEAD that fails, or says that nothing is there. */
  lemma AttemptLooked(cfg: Config, events: seq<Event>, w: nat, p: Plan, log: seq<Exchange>, x: Exchange, doubt: bool)
    returns (longer: seq<Event>)
    requires w in Reached(cfg, events).writers
    requires LogOf(cfg, events, w, MARKER) == log + [Exchange(x.response, None)]
    requires Reached(cfg, events).writers[w] == Writer(p, Putting(MARKER, Reconciling(|log|, doubt)))
    requires x.found in {Some(Absent), Some(Unreadable)}
    ensures var s := Reached(cfg, longer);
      && w in s.writers && s.objects == Reached(cfg, events).objects
      && s.writers[w] == Settle(cfg, Writer(p, Staging), MARKER, AfterHead(cfg.attempts, |log|, x.found.value))
      && LogOf(cfg, longer, w, MARKER) == log + [x]
  {
    var answer := if x.found == Some(Absent) then Missing else Broken;
    var e := Head(w, KeyOf(p.job, MARKER), answer);
    longer := events + [e];
    LogSnoc(cfg, events, e, w, MARKER);
    MarkerLooked(cfg, Reached(cfg, events), w, p, log, x, doubt, answer);
  }

  lemma MarkerLooked(cfg: Config, s: System, w: nat, p: Plan, log: seq<Exchange>, x: Exchange, doubt: bool,
                     answer: HeadAnswer)
    requires w in s.writers && s.writers[w] == Writer(p, Putting(MARKER, Reconciling(|log|, doubt)))
    requires answer in {Missing, Broken} && x.found == Some(if answer.Missing? then Absent else Unreadable)
    ensures var e := Head(w, KeyOf(p.job, MARKER), answer);
      var next := Settle(cfg, Writer(p, Staging), MARKER, AfterHead(cfg.attempts, |log|, x.found.value));
      && Step(cfg, s, e) == s.(writers := s.writers[w := next])
      && Noted(cfg, s, log + [Exchange(x.response, None)], e, w, MARKER) == log + [x]
  {
    ReplaceLast(log, Exchange(x.response, None), x);
  }

  /** An answer that neither creates the object nor refuses it for good, with the HEAD it calls for. */
  predicate Leaves(x: Exchange, doubt: bool) {
    && !x.response.MeansCreated() && (x.response.MeansTaken() ==> doubt)
    && (if x.response.MeansDoubt() || x.response.MeansTaken() then x.found in {Some(Absent), Some(Unreadable)}
        else x.found.None?)
  }

  lemma MayLeave(cfg: Config, s: System, w: nat, p: Plan, k: nat, doubt: bool, x: Exchange)
    requires MarkerKey(s, p, w, doubt || x.response.MeansDoubt(), k + 1) && Leaves(x, doubt)
    requires doubt || !x.response.MeansDoubt() ==> !CreatedBy(s, RequestOf(cfg, w, p, MARKER, k))
    ensures MayRespond(s, RequestOf(cfg, w, p, MARKER, k), x.response)
  {
  }

  lemma AttemptMade(cfg: Config, events: seq<Event>, w: nat, p: Plan, log: seq<Exchange>, doubt: bool, x: Exchange)
    returns (longer: seq<Event>)
    requires AtMarker(cfg, events, w, p, log, doubt) && Leaves(x, doubt)
    ensures var s := Reached(cfg, longer);
      && w in s.writers
      && s.writers[w] == Settle(cfg, Writer(p, Staging), MARKER, AfterResponse(cfg.attempts, |log|, doubt, x.response))
      && LogOf(cfg, longer, w, MARKER) == log + [Exchange(x.response, None)]
      && MarkerKey(s, p, w, doubt || x.response.MeansDoubt(), |log| + 1)
  {
    var sent := AttemptSent(cfg, events, w, p, log, doubt, x.response.MeansDoubt() && !doubt);
    MayLeave(cfg, Reached(cfg, sent), w, p, |log|, doubt, x);
    longer := AttemptAnswered(cfg, sent, w, p, log, doubt, x.response);
  }

  lemma SameObjects(s: System, t: System, p: Plan, w: nat, taken: bool, k: nat)
    requires s.objects == t.objects && MarkerKey(s, p, w, taken, k)
    ensures MarkerKey(t, p, w, taken, k)
  {
  }

  lemma AttemptHappens(cfg: Config, events: seq<Event>, w: nat, p: Plan, log: seq<Exchange>, doubt: bool, x: Exchange)
    returns (longer: seq<Event>)
    requires AtMarker(cfg, events, w, p, log, doubt) && Leaves(x, doubt)
    ensures var s := Reached(cfg, longer);
      && w in s.writers
      && s.writers[w] == Settle(cfg, Writer(p, Staging), MARKER, AfterExchange(cfg.attempts, |log|, doubt, x))
      && LogOf(cfg, longer, w, MARKER) == log + [x]
      && MarkerKey(s, p, w, doubt || x.response.MeansDoubt(), |log| + 1)
  {
    longer := AttemptMade(cfg, events, w, p, log, doubt, x);
    if x.found.Some? {
      var made := Reached(cfg, longer);
      longer := AttemptLooked(cfg, longer, w, p, log, x, doubt);
      SameObjects(made, Reached(cfg, longer), p, w, doubt || x.response.MeansDoubt(), |log| + 1);
    }
  }

  /** A record of a call that gave up leaves the call open until its last attempt. */
  lemma {:induction false} OpenUntilLast(attempts: nat, log: seq<Exchange>, n: nat)
    requires attempts > 0 && n < |log| && IsRecord(log) && Play(attempts, log) == GaveUp(|log|)
    ensures Play(attempts, log[..n]) == Continue(Ready(n, DoubtBefore(log, n))) && Leaves(log[n], DoubtBefore(log, n))
  {
    CallMeaning(attempts, log);
    PlayStands(attempts, log, n);
    assert forall k :: 0 <= k < n ==> Inconclusive(log, k);
    assert n < |log| - 1 ==> Inconclusive(log, n);
    assert Fails(attempts, log, |log| - 1);
  }

  lemma OneAnswerMore(log: seq<Exchange>, n: nat)
    requires n < |log|
    ensures log[..n + 1] == log[..n] + [log[n]]
    ensures DoubtBefore(log, n + 1) == (DoubtBefore(log, n) || log[n].response.MeansDoubt())
  {
  }

  lemma {:induction false} RecordGrows(cfg: Config, events: seq<Event>, w: nat, p: Plan, log: seq<Exchange>, n: nat)
    returns (longer: seq<Event>)
    requires cfg.attempts > 0 && n + 1 < |log| && IsRecord(log) && Play(cfg.attempts, log) == GaveUp(|log|)
    requires AtMarker(cfg, events, w, p, log[..n], DoubtBefore(log, n))
    ensures AtMarker(cfg, longer, w, p, log[..n + 1], DoubtBefore(log, n + 1))
  {
    OpenUntilLast(cfg.attempts, log, n);
    OpenUntilLast(cfg.attempts, log, n + 1);
    OneAnswerMore(log, n);
    PlaySnoc(cfg.attempts, log[..n], log[n]);
    longer := AttemptHappens(cfg, events, w, p, log[..n], DoubtBefore(log, n), log[n]);
  }

  /** The run may have been given the first n answers. */
  lemma {:induction false} RecordHappens(cfg: Config, w: nat, p: Plan, log: seq<Exchange>, n: nat)
    returns (events: seq<Event>)
    requires cfg.attempts > 0 && Fits(cfg, p)
    requires n < |log| && IsRecord(log) && Play(cfg.attempts, log) == GaveUp(|log|)
    ensures AtMarker(cfg, events, w, p, log[..n], DoubtBefore(log, n))
  {
    if n == 0 {
      events := MarkerReached(cfg, w, p);
    } else {
      var before := RecordHappens(cfg, w, p, log, n - 1);
      events := RecordGrows(cfg, before, w, p, log, n - 1);
    }
  }

  /** The run has failed: its marker call gave up after exactly these answers. */
  ghost predicate FailedAfter(cfg: Config, events: seq<Event>, w: nat, p: Plan, log: seq<Exchange>) {
    var s := Reached(cfg, events);
    && w in s.writers && s.writers[w] == Writer(p, Failed(3, 2, StoreFailure))
    && LogOf(cfg, events, w, MARKER) == log
  }

  /** The last answer of a record on which the call gives up. */
  lemma RecordEnds(cfg: Config, events: seq<Event>, w: nat, p: Plan, log: seq<Exchange>) returns (longer: seq<Event>)
    requires cfg.attempts > 0 && log != [] && IsRecord(log) && Play(cfg.attempts, log) == GaveUp(|log|)
    requires AtMarker(cfg, events, w, p, log[..|log| - 1], DoubtBefore(log, |log| - 1))
    ensures FailedAfter(cfg, longer, w, p, log)
    ensures MarkerKey(Reached(cfg, longer), p, w, HasDoubt(log), |log|)
  {
    var n := |log| - 1;
    OpenUntilLast(cfg.attempts, log, n);
    OneAnswerMore(log, n);
    assert log[..n + 1] == log;
    PlaySnoc(cfg.attempts, log[..n], log[n]);
    longer := AttemptHappens(cfg, events, w, p, log[..n], DoubtBefore(log, n), log[n]);
  }

  lemma {:induction false} DoubtfulFailure(cfg: Config, w: nat, p: Plan, log: seq<Exchange>)
    returns (events: seq<Event>)
    requires cfg.attempts > 0 && Fits(cfg, p)
    requires log != [] && IsRecord(log) && Play(cfg.attempts, log) == GaveUp(|log|)
    ensures FailedAfter(cfg, events, w, p, log)
    ensures HasDoubt(log) ==> Committed(Reached(cfg, events), w)
  {
    var before := RecordHappens(cfg, w, p, log, |log| - 1);
    events := RecordEnds(cfg, before, w, p, log);
  }

  /**
   * For every job and every record of answers on which the marker call gives up: a run that failed after exactly
   * these answers can be found committed, then or later, if and only if one of the answers was ambiguous.
   */
  lemma {:induction false} FailureMayCommitExactlyAfterDoubt(cfg: Config, w: nat, p: Plan, log: seq<Exchange>)
    requires cfg.attempts > 0 && Fits(cfg, p)
    requires log != [] && IsRecord(log) && Play(cfg.attempts, log) == GaveUp(|log|)
    ensures exists events :: FailedAfter(cfg, events, w, p, log)
    ensures (exists events, later :: FailedAfter(cfg, events, w, p, log) && Committed(Reached(cfg, events + later), w))
       <==> HasDoubt(log)
  {
    var example := DoubtfulFailure(cfg, w, p, log);
    if HasDoubt(log) {
      assert example + [] == example;
      assert Committed(Reached(cfg, example + []), w);
    }
    forall events, later | FailedAfter(cfg, events, w, p, log) && Committed(Reached(cfg, events + later), w)
      ensures HasDoubt(log)
    {
      if !HasDoubt(log) {
        VisibleFailuresStayUncommitted(cfg, events, later, w);
      }
    }
  }

  // ---- every run whose marker PUT was given up is of this kind ----

  ghost predicate BegunFits(cfg: Config, wr: Writer) {
    forall slot: Slot :: slot < Begun(wr) ==> |PayloadOf(cfg, wr.plan, slot)| <= cfg.maxBytes
  }

  ghost predicate AllFit(cfg: Config, s: System) {
    forall w :: w in s.writers ==> BegunFits(cfg, s.writers[w])
  }

  lemma SettleFits(cfg: Config, wr: Writer, slot: Slot, step: PutStep)
    requires wr.phase.Putting? && wr.phase.slot == slot && BegunFits(cfg, wr)
    ensures BegunFits(cfg, Settle(cfg, wr, slot, step))
  {
  }

  lemma StageFits(cfg: Config, wr: Writer, staged: Option<Staged>)
    requires BegunFits(cfg, wr)
    ensures BegunFits(cfg, StepStage(cfg, wr, staged))
  {
    assert wr.phase.Staging? ==> |PayloadOf(cfg, wr.plan, ARTIFACT)| <= cfg.maxBytes;
  }

  lemma HeadFits(cfg: Config, s: System, wr: Writer, answer: HeadAnswer)
    requires BegunFits(cfg, wr)
    ensures BegunFits(cfg, StepHead(cfg, s, wr, answer))
  {
    if wr.phase.Putting? {
      forall step ensures BegunFits(cfg, Settle(cfg, wr, wr.phase.slot, step)) {
        SettleFits(cfg, wr, wr.phase.slot, step);
      }
    }
  }

  lemma RespondFits(cfg: Config, s: System, w: nat, response: Response)
    requires AllFit(cfg, s) && w in s.writers
    ensures AllFit(cfg, StepRespond(cfg, s, w, s.writers[w], response))
  {
    var wr := s.writers[w];
    if wr.phase.Putting? && wr.phase.put.Waiting? {
      var put := wr.phase.put;
      SettleFits(cfg, wr, wr.phase.slot, AfterResponse(cfg.attempts, put.attempt, put.ambiguous, response));
    }
  }

  lemma CrashFits(cfg: Config, wr: Writer)
    requires BegunFits(cfg, wr)
    ensures BegunFits(cfg, StepCrash(wr))
  {
  }

  lemma StepFits(cfg: Config, s: System, e: Event)
    requires AllFit(cfg, s)
    ensures AllFit(cfg, Step(cfg, s, e))
  {
    match e
    case Head(w, _, answer) => if w in s.writers { HeadFits(cfg, s, s.writers[w], answer); }
    case Respond(w, response) => if w in s.writers { RespondFits(cfg, s, w, response); }
    case StageEvidence(w, staged) => if w in s.writers { StageFits(cfg, s.writers[w], staged); }
    case Crash(w) => if w in s.writers { CrashFits(cfg, s.writers[w]); }
    case _ =>
  }

  /** A PUT call begins only with a payload that fits. */
  lemma {:induction false} ReachedFits(cfg: Config, events: seq<Event>)
    ensures AllFit(cfg, Reached(cfg, events))
  {
    if events != [] {
      ReachedFits(cfg, events[..|events| - 1]);
      StepFits(cfg, Reached(cfg, events[..|events| - 1]), events[|events| - 1]);
    }
  }

  lemma GivenUpFits(cfg: Config, events: seq<Event>, w: nat)
    requires cfg.attempts > 0 && StandardKeys(cfg)
    requires w in Reached(cfg, events).writers && GaveUpMarker(Reached(cfg, events).writers[w])
    ensures Fits(cfg, Reached(cfg, events).writers[w].plan)
  {
    var p := Reached(cfg, events).writers[w].plan;
    ReachedInvariant(cfg, events);
    ReachedJobsOk(cfg, events);
    ReachedFits(cfg, events);
    assert WriterInvariant(cfg, Reached(cfg, events), w, Reached(cfg, events).writers[w]);
    assert BegunFits(cfg, Reached(cfg, events).writers[w]);
    KeysNeverCoincide(p.job.artifact, p.job.prefix, p.job.artifact, p.job.prefix);
  }

  lemma {:induction false} GivenUpLog(cfg: Config, events: seq<Event>, w: nat)
    requires cfg.attempts > 0
    requires w in Reached(cfg, events).writers && GaveUpMarker(Reached(cfg, events).writers[w])
    ensures var log := LogOf(cfg, events, w, MARKER);
      log != [] && IsRecord(log) && Play(cfg.attempts, log) == GaveUp(|log|)
  {
    CallsObey(cfg, events, w, MARKER);
    LogIsRecord(cfg, events, w, MARKER);
    CallMeaning(cfg.attempts, LogOf(cfg, events, w, MARKER));
    ReachedInOrder(cfg, events);
    assert WriterInOrder(Reached(cfg, events).writers[w]);
  }

  /**
   * For every run, in every behaviour, whose marker PUT was given up: among the behaviours that give a run of the
   * same plan the same answers, one ends with its marker in place if and only if one of the answers was ambiguous.
   */
  lemma {:induction false} GivenUpRunMayBeCommittedExactlyAfterDoubt(cfg: Config, events: seq<Event>, w: nat)
    requires cfg.attempts > 0 && StandardKeys(cfg)
    requires w in Reached(cfg, events).writers && GaveUpMarker(Reached(cfg, events).writers[w])
    ensures var p, log := Reached(cfg, events).writers[w].plan, LogOf(cfg, events, w, MARKER);
      (exists others, later :: FailedAfter(cfg, others, w, p, log) && Committed(Reached(cfg, others + later), w))
        <==> HasDoubt(log)
  {
    var p, log := Reached(cfg, events).writers[w].plan, LogOf(cfg, events, w, MARKER);
    GivenUpFits(cfg, events, w);
    GivenUpLog(cfg, events, w);
    FailureMayCommitExactlyAfterDoubt(cfg, w, p, log);
  }

  /** The shortest such record: one PUT without a response, and a HEAD that fails. So for every job within the
      ceiling there is a behaviour that ends in an error although the marker is in place. */
  lemma FailedRunMayBeCommitted(cfg: Config, w: nat, p: Plan)
    requires cfg.attempts > 0 && Fits(cfg, p)
    ensures exists events :: HasFailed(Reached(cfg, events), w) && Committed(Reached(cfg, events), w)
  {
    var log := [Exchange(NoResponse, Some(Unreadable))];
    assert log[..0] == [] && log[0].response.MeansDoubt();
    var events := DoubtfulFailure(cfg, w, p, log);
    assert HasFailed(Reached(cfg, events), w) && Committed(Reached(cfg, events), w);
  }
}
