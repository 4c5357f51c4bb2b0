/** put_object_if_absent: create an object once, whatever the transport loses on the way. */
module ConditionalClient {
  import opened Basics
  import opened PutMachine
  import opened Protocol
  import opened ProtocolInvariant
  import opened ProtocolTheorems
  import opened CallLog
  import opened ObjectClient

  /** Return, ConditionalObjectExistsError, ConditionalPutError, SinglePutSizeLimitError. */
  datatype PutOutcome = Succeeded | ObjectExists | PutFailed(attempts: nat) | SizeLimit

  /** A run that has moved on from a PUT call has its object in the store. */
  lemma StoredMeansHolds(cfg: Config, events: seq<Event>, w: nat, wr: Writer, slot: Slot)
    requires cfg.attempts > 0 && w in Reached(cfg, events).writers
    requires Reached(cfg, events).writers[w] == Settle(cfg, wr, slot, Stored)
    ensures HoldsSlot(cfg, Reached(cfg, events), wr.plan, slot)
  {
    ReachedInvariant(cfg, events);
    var s := Reached(cfg, events);
    assert WriterInvariant(cfg, s, w, s.writers[w]);
    assert HoldsSlot(cfg, s, s.writers[w].plan, slot);
  }

  lemma CollidedMeansTaken(cfg: Config, events: seq<Event>, w: nat, wr: Writer, slot: Slot)
    requires cfg.attempts > 0 && w in Reached(cfg, events).writers
    requires Reached(cfg, events).writers[w] == Settle(cfg, wr, slot, Collided)
    ensures TakenByAnother(Reached(cfg, events), KeyOf(wr.plan.job, slot), w, slot)
  {
    ReachedInvariant(cfg, events);
    assert WriterInvariant(cfg, Reached(cfg, events), w, Reached(cfg, events).writers[w]);
  }

  function StepOf(outcome: PutOutcome): PutStep
    requires !outcome.SizeLimit?
  {
    match outcome case Succeeded => Stored case ObjectExists => Collided case PutFailed(n) => GaveUp(n)
  }

  /** What the end of a call tells its caller about the store. */
  ghost predicate Delivered(cfg: Config, s: System, w: nat, wr: Writer, slot: Slot, outcome: PutOutcome) {
    && w in s.writers
    && !outcome.SizeLimit?
    && s.writers[w] == Settle(cfg, wr, slot, StepOf(outcome))
    && (outcome.Succeeded? ==> HoldsSlot(cfg, s, wr.plan, slot))
    && (outcome.ObjectExists? ==> TakenByAnother(s, KeyOf(wr.plan.job, slot), w, slot))
    && (outcome.PutFailed? ==> 1 <= outcome.attempts <= cfg.attempts)
  }

  lemma OutcomeDelivered(cfg: Config, events: seq<Event>, w: nat, wr: Writer, slot: Slot, outcome: PutOutcome)
    requires cfg.attempts > 0 && w in Reached(cfg, events).writers && !outcome.SizeLimit?
    requires Reached(cfg, events).writers[w] == Settle(cfg, wr, slot, StepOf(outcome))
    requires outcome.PutFailed? ==> 1 <= outcome.attempts <= cfg.attempts
    ensures Delivered(cfg, Reached(cfg, events), w, wr, slot, outcome)
  {
    if outcome.Succeeded? {
      StoredMeansHolds(cfg, events, w, wr, slot);
    } else if outcome.ObjectExists? {
      CollidedMeansTaken(cfg, events, w, wr, slot);
    }
  }

  lemma {:induction false} OutcomePlayed(cfg: Config, events: seq<Event>, w: nat, wr: Writer, slot: Slot,
                                         outcome: PutOutcome)
    requires cfg.attempts > 0 && w in Reached(cfg, events).writers && !outcome.SizeLimit?
    requires wr.phase.Putting? && Reached(cfg, events).writers[w] == Settle(cfg, wr, slot, StepOf(outcome))
    requires outcome.PutFailed? ==> outcome.attempts == |LogOf(cfg, events, w, slot)|
    ensures StepOf(outcome) == Play(cfg.attempts, LogOf(cfg, events, w, slot))
  {
    CallsObey(cfg, events, w, slot);
  }

  /** The call ended with this outcome in this attempt. */
  ghost predicate IsEnd(cfg: Config, now: Writer, wr: Writer, attempt: nat, outcome: PutOutcome)
    requires wr.phase.Putting?
  {
    && !outcome.SizeLimit? && (outcome.PutFailed? ==> outcome.attempts == attempt + 1)
    && now == Settle(cfg, wr, wr.phase.slot, StepOf(outcome))
  }

  /** The call goes on with one more attempt. */
  ghost predicate IsNext(cfg: Config, now: Writer, wr: Writer, attempt: nat, doubt: bool)
    requires wr.phase.Putting?
  {
    attempt + 1 < cfg.attempts && now == wr.(phase := Putting(wr.phase.slot, Ready(attempt + 1, doubt)))
  }

  class MinioConditionalObjectClient {
    const store: ObjectStore

    constructor (store: ObjectStore)
      ensures this.store == store
    {
      this.store := store;
    }

    /** HEAD, compared with what this call means to create. */
    method ReconcileObject(w: nat, key: string, length: nat, sha: string) returns (found: Reconciliation)
      requires store.Valid() && w in store.now.writers
      requires store.now.writers[w].phase.Putting? && store.now.writers[w].phase.put.Reconciling?
      requires key == KeyOf(store.now.writers[w].plan.job, store.now.writers[w].phase.slot)
      requires length == |PayloadOf(store.cfg, store.now.writers[w].plan, store.now.writers[w].phase.slot)|
      requires sha == store.cfg.sha(PayloadOf(store.cfg, store.now.writers[w].plan, store.now.writers[w].phase.slot))
      modifies store
      ensures store.Valid() && old(store.events) <= store.events && w in store.now.writers
      ensures var wr := old(store.now.writers[w]);
        var step := AfterHead(store.cfg.attempts, wr.phase.put.attempt, found);
        store.now.writers[w] == Settle(store.cfg, wr, wr.phase.slot, step)
      ensures forall slot: Slot :: store.Answered(w, slot) == old(store.Answered(w, slot))
    {
      var metadata := store.StatObject(w, key);
      match metadata {
        case NoSuchObject => found := Absent;
        case StatError => found := Unreadable;
        case Metadata(size, declaredSize, declaredSha) =>
          if size == length && declaredSize == Some(length) && declaredSha == Some(sha) {
            found := Match;
          } else {
            found := Conflict;
          }
      }
    }

    /** After an attempt in doubt: the key is looked at, and the call is over, or goes on. */
    method AfterDoubt(w: nat, key: string, length: nat, sha: string, ghost wr: Writer, attempt: nat, ghost doubt: bool)
      returns (over: Option<PutOutcome>)
      requires store.Valid() && w in store.now.writers && wr.phase.Putting? && attempt < store.cfg.attempts
      requires store.now.writers[w] == wr.(phase := Putting(wr.phase.slot, Reconciling(attempt, doubt)))
      requires key == KeyOf(wr.plan.job, wr.phase.slot)
      requires length == |PayloadOf(store.cfg, wr.plan, wr.phase.slot)|
      requires sha == store.cfg.sha(PayloadOf(store.cfg, wr.plan, wr.phase.slot))
      modifies store
      ensures store.Valid() && old(store.events) <= store.events && w in store.now.writers
      ensures store.Answered(w, wr.phase.slot) == old(store.Answered(w, wr.phase.slot))
      ensures over.Some? ==> IsEnd(store.cfg, store.now.writers[w], wr, attempt, over.value)
      ensures over.None? ==> IsNext(store.cfg, store.now.writers[w], wr, attempt, true)
    {
      var found := ReconcileObject(w, key, length, sha);
      if found.Match? {
        return Some(Succeeded);
      }
      if found.Conflict? {
        return Some(ObjectExists);
      }
      if found.Unreadable? || attempt + 1 >= store.cfg.attempts {
        return Some(PutFailed(attempt + 1));
      }
      return None;
    }

    /** One attempt, with the HEAD it may call for: the call is over, or goes on with this doubt. */
    method Attempt(w: nat, key: string, data: ByteStream, startPosition: nat, length: nat, sha: string,
                   ghost wr: Writer, attempt: nat, doubt: bool)
      returns (over: Option<PutOutcome>, hadAmbiguousAttempt: bool)
      requires store.Valid() && data.Valid() && w in store.now.writers
      requires wr.phase.Putting? && attempt < store.cfg.attempts
      requires store.now.writers[w] == wr.(phase := Putting(wr.phase.slot, Ready(attempt, doubt)))
      requires startPosition <= |data.content| && length == |data.content| - startPosition
      requires Request(RequestId(w, wr.phase.slot, attempt), key, data.content[startPosition..], sha)
            == RequestOf(store.cfg, w, wr.plan, wr.phase.slot, attempt)
      modifies store, data`position
      ensures store.Valid() && data.Valid() && old(store.events) <= store.events && w in store.now.writers
      ensures store.Answered(w, wr.phase.slot) == old(store.Answered(w, wr.phase.slot)) + 1
      ensures over.Some? ==> IsEnd(store.cfg, store.now.writers[w], wr, attempt, over.value)
      ensures over.None? ==> IsNext(store.cfg, store.now.writers[w], wr, attempt, hadAmbiguousAttempt)
    {
      data.Seek(startPosition);
      var response := store.SendOnce(w, key, data, length, sha);
      if response.Created() {
        return Some(Succeeded), doubt;
      }
      if response.Refused() && !doubt {
        return Some(ObjectExists), doubt;
      }
      if response.Refused() || response.Ambiguous() {
        over := AfterDoubt(w, key, length, sha, wr, attempt, doubt);
        return over, true;
      }
      if response.code !in RETRYABLE_STATUS_CODES || attempt + 1 >= store.cfg.attempts {
        return Some(PutFailed(attempt + 1)), doubt;
      }
      return None, doubt;
    }

    /** The attempt loop, from the position where the stream stands. */
    method MakeAttempts(w: nat, key: string, data: ByteStream, length: nat, sha: string, ghost wr: Writer)
      returns (outcome: PutOutcome)
      requires store.Valid() && data.Valid() && w in store.now.writers && store.now.writers[w] == wr
      requires wr.phase.Putting? && wr.phase.put == Ready(0, false) && length == |data.content| - data.position
      requires Request(RequestId(w, wr.phase.slot, 0), key, data.content[data.position..], sha)
            == RequestOf(store.cfg, w, wr.plan, wr.phase.slot, 0)
      modifies store, data`position
      ensures store.Valid() && data.Valid() && old(store.events) <= store.events && w in store.now.writers
      ensures !outcome.SizeLimit? && store.now.writers[w] == Settle(store.cfg, wr, wr.phase.slot, StepOf(outcome))
      ensures outcome.PutFailed? ==>
        1 <= outcome.attempts <= store.cfg.attempts && outcome.attempts == store.Answered(w, wr.phase.slot)
    {
      var startPosition := data.Tell();
      var hadAmbiguousAttempt := false;
      var attempt := 0;
      outcome := Succeeded;  // what falling off the end of the loop would mean
      CallsObey(store.cfg, store.events, w, wr.phase.slot);
      while attempt < store.cfg.attempts
        invariant attempt < store.cfg.attempts
        invariant store.Valid() && data.Valid() && old(store.events) <= store.events && w in store.now.writers
        invariant store.now.writers[w] == wr.(phase := Putting(wr.phase.slot, Ready(attempt, hadAmbiguousAttempt)))
        invariant store.Answered(w, wr.phase.slot) == attempt
        decreases store.cfg.attempts - attempt
      {
        var over;
        over, hadAmbiguousAttempt :=
          Attempt(w, key, data, startPosition, length, sha, wr, attempt, hadAmbiguousAttempt);
        if over.Some? {
          outcome := over.value;
          break;
        }
        attempt := attempt + 1;
      }
    }

    /**
     * Run `w` is at the start of one of its PUT calls. The call returns normally only if the object is in the
     * store as intended, and reports a collision only if the object there is not of its own making. Each attempt
     * sends the stream from where it stood at the start.
     */
    method PutObjectIfAbsent(w: nat, key: string, data: ByteStream, length: nat, sha: string)
      returns (outcome: PutOutcome)
      requires store.Valid() && data.Valid() && w in store.now.writers
      requires store.now.writers[w].phase.Putting? && store.now.writers[w].phase.put == Ready(0, false)
      requires var wr := store.now.writers[w];
        Request(RequestId(w, wr.phase.slot, 0), key, data.content[data.position..], sha)
          == RequestOf(store.cfg, w, wr.plan, wr.phase.slot, 0)
      requires length == |data.content| - data.position
      modifies store, data`position
      ensures store.Valid() && data.Valid() && old(store.events) <= store.events
      ensures outcome.SizeLimit? <==> length > store.cfg.maxBytes
      ensures outcome.SizeLimit? ==> store.now == old(store.now) && store.events == old(store.events)
      ensures !outcome.SizeLimit? ==>
        Delivered(store.cfg, store.now, w, old(store.now.writers[w]), old(store.now.writers[w]).phase.slot, outcome)
      // the outcome is what the answers of this call amount to
      ensures !outcome.SizeLimit? ==>
        var log := LogOf(store.cfg, store.events, w, old(store.now.writers[w]).phase.slot);
        StepOf(outcome) == Play(store.cfg.attempts, log)
    {
      if length > store.cfg.maxBytes {
        return SizeLimit;
      }
      ghost var wr := store.now.writers[w];
      outcome := MakeAttempts(w, key, data, length, sha, wr);
      OutcomeDelivered(store.cfg, store.events, w, wr, wr.phase.slot, outcome);
      OutcomePlayed(store.cfg, store.events, w, wr, wr.phase.slot, outcome);
    }
  }
}
