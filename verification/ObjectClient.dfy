/**
 * The conditional object client, step by step against the shared store. Every call of the store is one or more
 * events of the transition system, with arbitrarily many events of others in between.
 */
module ObjectClient {
  import opened Basics
  import opened PutMachine
  import opened Protocol
  import opened ProtocolTheorems
  import opened CallLog

  /** A seekable binary stream. */
  class ByteStream {
    var content: Bytes
    var position: nat

    constructor (content: Bytes)
      ensures this.content == content && position == 0
    {
      this.content := content;
      position := 0;
    }

    ghost predicate Valid() reads this { position <= |content| }

    /** write() at the end of the stream. */
    method Append(b: Bytes)
      requires position == |content|
      modifies this
      ensures content == old(content) + b && position == |content|
    {
      content := content + b;
      position := |content|;
    }

    method Tell() returns (p: nat)
      ensures p == position
    {
      p := position;
    }

    method Seek(p: nat)
      modifies this`position
      ensures position == p
    {
      position := p;
    }
  }

  /** A piece of a file as read() returns it; the empty result, end of file, is not a chunk. */
  type Chunk = b: Bytes | b != [] witness [0]

  datatype StatResult =
    | Metadata(size: nat, declaredSize: Option<int>, declaredSha: Option<string>)
    | NoSuchObject
    | StatError

  function AnswerOf(r: StatResult): HeadAnswer {
    match r case Metadata(_, _, _) => Seen case NoSuchObject => Missing case StatError => Broken
  }

  /** The store and everything that happens to it. `events` is its history from the empty state. */
  class ObjectStore {
    const cfg: Config
    var now: System
    ghost var events: seq<Event>

    ghost predicate Valid() reads this { cfg.attempts > 0 && now == Reached(cfg, events) }

    /** How many answers the run has been given in this PUT call. */
    ghost function Answered(w: nat, slot: Slot): nat reads this { |LogOf(cfg, events, w, slot)| }

    constructor (cfg: Config)
      requires cfg.attempts > 0
      ensures Valid() && this.cfg == cfg && now == EMPTY
    {
      this.cfg := cfg;
      now := EMPTY;
      events := [];
    }

    method Perform(e: Event)
      requires Valid()
      modifies this
      ensures Valid() && now == Step(cfg, old(now), e) && events == old(events) + [e]
      ensures old(events) <= events
    {
      now := Step(cfg, now, e);
      events := events + [e];
      assert events[..|events| - 1] == old(events);
    }

    method PerformOther(w: nat, e: Event)
      requires Valid() && !IsBy(e, w)
      modifies this
      ensures Valid() && old(events) <= events
      ensures w in now.writers <==> w in old(now.writers)
      ensures w in now.writers ==> now.writers[w] == old(now.writers[w])
      ensures forall slot: Slot :: Answered(w, slot) == old(Answered(w, slot))
      ensures events == old(events) + [e]
    {
      OthersKeepTheRun(cfg, now, e, w);
      forall slot: Slot { LogLength(cfg, events, e, w, slot); }
      Perform(e);
    }

    /** Anything that other runs, other programs and the network may do, for any length of time. */
    method Others(w: nat)
      requires Valid()
      modifies this
      ensures Valid() && old(events) <= events
      ensures w in now.writers <==> w in old(now.writers)
      ensures w in now.writers ==> now.writers[w] == old(now.writers[w])
      ensures forall slot: Slot :: Answered(w, slot) == old(Answered(w, slot))
      ensures forall i :: |old(events)| <= i < |events| ==> !IsBy(events[i], w)
    {
      var steps: seq<Event> := *;
      for i := 0 to |steps|
        invariant Valid() && old(events) <= events
        invariant w in now.writers <==> w in old(now.writers)
        invariant w in now.writers ==> now.writers[w] == old(now.writers[w])
        invariant forall slot: Slot :: Answered(w, slot) == old(Answered(w, slot))
        invariant forall j :: |old(events)| <= j < |events| ==> !IsBy(events[j], w)
      {
        if !IsBy(steps[i], w) {
          PerformOther(w, steps[i]);
        }
      }
    }

    method PerformHead(w: nat, key: string, answer: HeadAnswer)
      requires Valid() && w in now.writers && Asks(now.writers[w], key)
      modifies this
      ensures Valid() && old(events) <= events && w in now.writers
      ensures now.writers[w] == StepHead(cfg, now, old(now.writers[w]), answer)
      ensures now.objects == old(now.objects) && events == old(events) + [Head(w, key, answer)]
      ensures forall slot: Slot :: Answered(w, slot) == old(Answered(w, slot))
    {
      forall slot: Slot { LogLength(cfg, events, Head(w, key, answer), w, slot); }
      Perform(Head(w, key, answer));
    }

    method PerformStart(w: nat, job: Job)
      requires Valid() && w !in now.writers && JobOk(cfg, job)
      modifies this
      ensures Valid() && old(events) <= events && w in now.writers
      ensures now.writers[w] == Writer(Plan(job, None), Checking(0))
    {
      Perform(Start(w, job));
    }

    method PerformStage(w: nat, staged: Option<Staged>)
      requires Valid() && w in now.writers
      modifies this
      ensures Valid() && old(events) <= events && w in now.writers
      ensures now.writers[w] == StepStage(cfg, old(now.writers[w]), staged)
    {
      Perform(StageEvidence(w, staged));
    }

    method PerformSend(w: nat)
      requires Valid() && w in now.writers && now.writers[w].phase.Putting? && now.writers[w].phase.put.Ready?
      modifies this
      ensures Valid() && old(events) <= events && w in now.writers
      ensures var wr, put := old(now.writers[w]), old(now.writers[w]).phase.put;
        now.writers[w] == wr.(phase := Putting(wr.phase.slot, Waiting(put.attempt, put.ambiguous)))
      ensures forall slot: Slot :: Answered(w, slot) == old(Answered(w, slot))
    {
      forall slot: Slot { LogLength(cfg, events, Send(w), w, slot); }
      Perform(Send(w));
    }

    method PerformRespond(w: nat, response: Response)
      requires Valid() && w in now.writers && now.writers[w].phase.Putting? && now.writers[w].phase.put.Waiting?
      requires var wr := now.writers[w];
        MayRespond(now, RequestOf(cfg, w, wr.plan, wr.phase.slot, wr.phase.put.attempt), response)
      modifies this
      ensures Valid() && old(events) <= events && w in now.writers
      ensures var wr, put := old(now.writers[w]), old(now.writers[w]).phase.put;
        var step := AfterResponse(cfg.attempts, put.attempt, put.ambiguous, response);
        now.writers[w] == Settle(cfg, wr, wr.phase.slot, step)
      ensures var slot := old(now.writers[w]).phase.slot;
        Answered(w, slot) == old(Answered(w, now.writers[w].phase.slot)) + 1
    {
      LogLength(cfg, events, Respond(w, response), w, now.writers[w].phase.slot);
      Perform(Respond(w, response));
    }

    /** HEAD on behalf of a run that is about to look at this key. */
    method StatObject(w: nat, key: string) returns (r: StatResult)
      requires Valid() && w in now.writers && Asks(now.writers[w], key)
      modifies this
      ensures Valid() && old(events) <= events && w in now.writers
      ensures now.writers[w] == StepHead(cfg, now, old(now.writers[w]), AnswerOf(r))
      // the one event of the run is this HEAD with this answer
      ensures |old(events)| < |events| && events[|events| - 1] == Head(w, key, AnswerOf(r))
      ensures forall i :: |old(events)| <= i < |events| - 1 ==> !IsBy(events[i], w)
      ensures r.Metadata? ==> (key in now.objects
        && r == Metadata(|now.objects[key].body|, now.objects[key].declaredSize, now.objects[key].declaredSha))
      ensures forall slot: Slot :: Answered(w, slot) == old(Answered(w, slot))
    {
      Others(w);
      r := *;
      if r.Metadata? {
        if key in now.objects {
          var o := now.objects[key];
          r := Metadata(|o.body|, o.declaredSize, o.declaredSha);
        } else {
          r := NoSuchObject;
        }
      }
      PerformHead(w, key, AnswerOf(r));
    }

    /** Any answer that the store may give to the PUT that is under way, after any activity of others. */
    method AwaitResponse(w: nat) returns (response: Response)
      requires Valid() && w in now.writers && now.writers[w].phase.Putting? && now.writers[w].phase.put.Waiting?
      modifies this
      ensures Valid() && old(events) <= events && w in now.writers
      ensures var wr, put := old(now.writers[w]), old(now.writers[w]).phase.put;
        var step := AfterResponse(cfg.attempts, put.attempt, put.ambiguous, response);
        now.writers[w] == Settle(cfg, wr, wr.phase.slot, step)
      ensures var slot := old(now.writers[w]).phase.slot;
        Answered(w, slot) == old(Answered(w, now.writers[w].phase.slot)) + 1
    {
      Others(w);
      response := *;
      var wr := now.writers[w];
      if !MayRespond(now, RequestOf(cfg, w, wr.plan, wr.phase.slot, wr.phase.put.attempt), response) {
        response := NoResponse;
      }
      PerformRespond(w, response);
    }

    /** One PUT with If-None-Match: * of what is left in the stream. The transport may consume any part of it. */
    method SendOnce(w: nat, key: string, data: ByteStream, length: nat, sha: string) returns (response: Response)
      requires Valid() && data.Valid() && w in now.writers
      requires now.writers[w].phase.Putting? && now.writers[w].phase.put.Ready?
      requires var wr := now.writers[w];
        Request(RequestId(w, wr.phase.slot, wr.phase.put.attempt), key, data.content[data.position..], sha)
          == RequestOf(cfg, w, wr.plan, wr.phase.slot, wr.phase.put.attempt)
      requires length == |data.content| - data.position
      modifies this, data`position
      ensures Valid() && data.Valid() && old(events) <= events && w in now.writers
      ensures var wr, put := old(now.writers[w]), old(now.writers[w]).phase.put;
        var step := AfterResponse(cfg.attempts, put.attempt, put.ambiguous, response);
        now.writers[w] == Settle(cfg, wr, wr.phase.slot, step)
      ensures var slot := old(now.writers[w]).phase.slot;
        Answered(w, slot) == old(Answered(w, now.writers[w].phase.slot)) + 1
    {
      PerformSend(w);
      var left: int := *;
      data.position := if 0 <= left <= |data.content| then left else |data.content|;
      response := AwaitResponse(w);
    }
  }
}
