/** The decisions of put_object_if_absent, one response at a time. */
module PutMachine {
  import opened Basics

  // The source's limits; everything below and in the protocol holds for any others.
  const MAX_SINGLE_PUT_SIZE_BYTES: nat := 5 * 1024 * 1024 * 1024
  const MAX_CONDITIONAL_PUT_ATTEMPTS: nat := 3

  const CREATED_STATUS_CODES: set<int> := {200, 204}
  const RETRYABLE_STATUS_CODES: set<int> := {409, 500, 502, 503, 504}
  const AMBIGUOUS_STATUS_CODES: set<int> := {500, 502, 503, 504}
  const PRECONDITION_FAILED: int := 412

  /** What the client learns of one PUT: no response at all (an exception), or a status. The first three predicates
      are the client's reading of it, by its own sets of codes; the last three are what it means at the store. */
  datatype Response = NoResponse | Status(code: int) {
    predicate Created() { Status? && code in CREATED_STATUS_CODES }
    predicate Refused() { Status? && code == PRECONDITION_FAILED }
    predicate Ambiguous() { NoResponse? || code in AMBIGUOUS_STATUS_CODES }

    predicate MeansCreated() { this in {Status(200), Status(204)} }
    predicate MeansTaken() { this == Status(412) }
    predicate MeansDoubt() { this in {NoResponse, Status(500), Status(502), Status(503), Status(504)} }
  }

  /** The reading of a HEAD against the object the call means to create; Unreadable is any other error. */
  datatype Reconciliation = Match | Absent | Conflict | Unreadable

  /** Where a call stands: about to send, waiting for the response, or about to look at the key. */
  datatype PutPhase =
    | Ready(attempt: nat, ambiguous: bool)
    | Waiting(attempt: nat, ambiguous: bool)
    | Reconciling(attempt: nat, ambiguous: bool)

  datatype PutStep =
    | Continue(phase: PutPhase)
    | Stored
    | Collided
    | GaveUp(attempts: nat)

  function AfterResponse(attempts: nat, attempt: nat, ambiguous: bool, response: Response): PutStep {
    if response.NoResponse? then Continue(Reconciling(attempt, ambiguous))
    else if response.Created() then Stored
    else if response.Refused() then
      if ambiguous then Continue(Reconciling(attempt, ambiguous)) else Collided
    else if response.Ambiguous() then Continue(Reconciling(attempt, ambiguous))
    else if response.code in RETRYABLE_STATUS_CODES && attempt + 1 < attempts then
      Continue(Ready(attempt + 1, ambiguous))
    else GaveUp(attempt + 1)
  }

  /** After an absent key the next attempt counts as following an ambiguous one: only such attempts, or ones
      that already followed one, look at the key. */
  function AfterHead(attempts: nat, attempt: nat, found: Reconciliation): PutStep {
    match found
    case Match => Stored
    case Conflict => Collided
    case Unreadable => GaveUp(attempt + 1)
    case Absent => if attempt + 1 < attempts then Continue(Ready(attempt + 1, true)) else GaveUp(attempt + 1)
  }

  // ---- a whole call ----

  /** What one attempt was answered: the response, and what the HEAD after it found, once there has been one. */
  datatype Exchange = Exchange(response: Response, found: Option<Reconciliation>)

  function AfterExchange(attempts: nat, attempt: nat, ambiguous: bool, x: Exchange): PutStep {
    match AfterResponse(attempts, attempt, ambiguous, x.response)
    case Continue(Reconciling(_, _)) =>
      if x.found.Some? then AfterHead(attempts, attempt, x.found.value) else Continue(Reconciling(attempt, ambiguous))
    case step => step
  }

  /** One exchange more. A call that is over stays over. */
  function Then(attempts: nat, step: PutStep, x: Exchange): PutStep {
    if step.Continue? && step.phase.Ready? then AfterExchange(attempts, step.phase.attempt, step.phase.ambiguous, x)
    else step
  }

  /** Where a call stands after these exchanges, one for each attempt. */
  function Play(attempts: nat, log: seq<Exchange>): PutStep {
    if log == [] then Continue(Ready(0, false)) else Then(attempts, Play(attempts, log[..|log| - 1]), log[|log| - 1])
  }

  lemma {:induction false} PlaySnoc(attempts: nat, log: seq<Exchange>, x: Exchange)
    ensures Play(attempts, log + [x]) == Then(attempts, Play(attempts, log), x)
  {
    assert (log + [x])[..|log|] == log;
  }

  // ---- what the exchanges mean, without the machine ----

  /** The client reads every response as the store means it. */
  lemma ResponseMeaning(r: Response)
    ensures (r.Created() <==> r.MeansCreated()) && (r.Refused() <==> r.MeansTaken())
    ensures (r.Ambiguous() <==> r.MeansDoubt())
  {
  }

  /** An attempt before k may have been applied for all its sender knows. */
  ghost predicate DoubtBefore(log: seq<Exchange>, k: nat)
    requires k <= |log|
  {
    exists j :: 0 <= j < k && log[j].response.MeansDoubt()
  }

  ghost predicate HasDoubt(log: seq<Exchange>) { DoubtBefore(log, |log|) }

  /** After attempt k the call looks at the key. */
  ghost predicate Looks(log: seq<Exchange>, k: nat)
    requires k < |log|
  {
    log[k].response.MeansDoubt() || (log[k].response.MeansTaken() && DoubtBefore(log, k))
  }

  /** HEADs are on record only where the call looks. */
  ghost predicate IsRecord(log: seq<Exchange>) {
    forall k :: 0 <= k < |log| && log[k].found.Some? ==> Looks(log, k)
  }

  ghost predicate Succeeds(log: seq<Exchange>, k: nat)
    requires k < |log|
  {
    log[k].response.MeansCreated() || (Looks(log, k) && log[k].found == Some(Match))
  }

  ghost predicate Collides(log: seq<Exchange>, k: nat)
    requires k < |log|
  {
    (log[k].response.MeansTaken() && !DoubtBefore(log, k)) || (Looks(log, k) && log[k].found == Some(Conflict))
  }

  /** Attempt k leaves it open whether the object can be created: worth another one. */
  ghost predicate Inconclusive(log: seq<Exchange>, k: nat)
    requires k < |log|
  {
    if Looks(log, k) then log[k].found == Some(Absent) else log[k].response == Status(409)
  }

  ghost predicate AllInconclusive(log: seq<Exchange>, n: nat)
    requires n <= |log|
  {
    forall j :: 0 <= j < n ==> Inconclusive(log, j)
  }

  /** Attempt k is the last and leads nowhere. */
  ghost predicate Fails(attempts: nat, log: seq<Exchange>, k: nat)
    requires k < |log|
  {
    && !Succeeds(log, k) && !Collides(log, k)
    && (Looks(log, k) ==> log[k].found.Some?)
    && (Inconclusive(log, k) ==> k + 1 == attempts)
  }

  ghost predicate EndsAt(attempts: nat, log: seq<Exchange>, last: nat, step: PutStep)
    requires last < |log|
  {
    && last < attempts && AllInconclusive(log, last)
    && match step
       case Continue(_) => false
       case Stored => Succeeds(log, last)
       case Collided => Collides(log, last)
       case GaveUp(n) => n == last + 1 && Fails(attempts, log, last)
  }

  /** The machine's state after the first n exchanges. */
  ghost predicate StandsAt(attempts: nat, log: seq<Exchange>, n: nat, step: PutStep)
    requires n <= |log|
  {
    if step.Continue? then
      var k := step.phase.attempt;
      match step.phase
      case Ready(_, ambiguous) => k == n < attempts && AllInconclusive(log, n) && ambiguous == DoubtBefore(log, n)
      case Waiting(_, _) => false
      case Reconciling(_, _) =>
        && k < n && k < attempts && AllInconclusive(log, k)
        && Looks(log, k) && log[k].found.None? && !Inconclusive(log, k)
    else exists last :: 0 <= last < n && EndsAt(attempts, log, last, step)
  }

  lemma ExchangeMeaning(attempts: nat, log: seq<Exchange>, k: nat)
    requires k < |log| && k < attempts && AllInconclusive(log, k)
    ensures StandsAt(attempts, log, k + 1, AfterExchange(attempts, k, DoubtBefore(log, k), log[k]))
  {
    var x, doubt := log[k], DoubtBefore(log, k);
    var step := AfterExchange(attempts, k, doubt, x);
    assert DoubtBefore(log, k + 1) == (doubt || x.response.MeansDoubt());
    if !step.Continue? {
      assert EndsAt(attempts, log, k, step);
    }
  }

  lemma {:induction false} PlayStands(attempts: nat, log: seq<Exchange>, n: nat)
    requires attempts > 0 && n <= |log|
    ensures StandsAt(attempts, log, n, Play(attempts, log[..n]))
  {
    if n > 0 {
      PlayStands(attempts, log, n - 1);
      assert log[..n][..n - 1] == log[..n - 1];
      if Play(attempts, log[..n - 1]).Continue? && Play(attempts, log[..n - 1]).phase.Ready? {
        ExchangeMeaning(attempts, log, n - 1);
      }
    }
  }

  /** A call can end in one place and in one way only. */
  lemma {:induction false} OneEnd(attempts: nat, log: seq<Exchange>, k: nat, step: PutStep)
    requires attempts > 0 && k < |log| && EndsAt(attempts, log, k, step)
    ensures Play(attempts, log) == step
  {
    PlayStands(attempts, log, |log|);
    assert log[..|log|] == log;
    var played := Play(attempts, log);
    assert Inconclusive(log, k) ==> k + 1 == attempts;
    if !played.Continue? {
      var last :| 0 <= last < |log| && EndsAt(attempts, log, last, played);
      assert Inconclusive(log, last) ==> last + 1 == attempts;
    }
  }

  /**
   * For any record of answers: the call has succeeded exactly when an attempt after inconclusive ones created the
   * object, or left a doubt that a HEAD dispelled; it has collided exactly when such an attempt was refused without
   * doubt, or a HEAD found another object; and it has given up after n attempts exactly when the n-th, after
   * inconclusive ones, led nowhere, being the last allowed if it was itself inconclusive.
   */
  lemma {:induction false} CallMeaning(attempts: nat, log: seq<Exchange>)
    requires attempts > 0
    ensures Play(attempts, log).Stored?
       <==> exists k :: 0 <= k < |log| && k < attempts && AllInconclusive(log, k) && Succeeds(log, k)
    ensures Play(attempts, log).Collided?
       <==> exists k :: 0 <= k < |log| && k < attempts && AllInconclusive(log, k) && Collides(log, k)
    ensures forall n: nat :: (Play(attempts, log) == GaveUp(n)
       <==> 0 < n <= |log| && n <= attempts && AllInconclusive(log, n - 1) && Fails(attempts, log, n - 1))
  {
    PlayStands(attempts, log, |log|);
    assert log[..|log|] == log;
    forall k | 0 <= k < |log| && k < attempts && AllInconclusive(log, k)
      ensures Succeeds(log, k) ==> Play(attempts, log) == Stored
      ensures Collides(log, k) ==> Play(attempts, log) == Collided
      ensures Fails(attempts, log, k) ==> Play(attempts, log) == GaveUp(k + 1)
    {
      if Succeeds(log, k) {
        OneEnd(attempts, log, k, Stored);
      } else if Collides(log, k) {
        OneEnd(attempts, log, k, Collided);
      } else if Fails(attempts, log, k) {
        OneEnd(attempts, log, k, GaveUp(k + 1));
      }
    }
  }

  /** Without an ambiguous answer the call never looks at the key and never doubts. */
  lemma {:induction false} NoDoubtNoLook(attempts: nat, log: seq<Exchange>)
    requires attempts > 0 && !HasDoubt(log)
    ensures var step := Play(attempts, log); step.Continue? ==> step.phase.Ready? && !step.phase.ambiguous
  {
    PlayStands(attempts, log, |log|);
    assert log[..|log|] == log;
  }

  /** A call that is to look at the key goes on by what the HEAD finds. */
  lemma {:induction false} PlayLooked(attempts: nat, log: seq<Exchange>, found: Reconciliation)
    requires attempts > 0 && log != [] && Play(attempts, log).Continue?
    requires Play(attempts, log).phase.Reconciling? && Play(attempts, log).phase.attempt == |log| - 1
    ensures var k := |log| - 1;
      Play(attempts, log[..k] + [Exchange(log[k].response, Some(found))]) == AfterHead(attempts, k, found)
  {
    var k := |log| - 1;
    PlayStands(attempts, log, k);
    PlaySnoc(attempts, log[..k], Exchange(log[k].response, Some(found)));
  }

  /** Whether a call looks depends on the responses only. */
  lemma LooksByResponses(log: seq<Exchange>, other: seq<Exchange>, k: nat)
    requires k < |log| && k < |other| && forall j :: 0 <= j <= k ==> log[j].response == other[j].response
    ensures Looks(log, k) == Looks(other, k)
  {
    assert DoubtBefore(log, k) == DoubtBefore(other, k);
  }

  /** The first answer, status by status. */
  lemma {:induction false} FirstAnswer(attempts: nat, response: Response)
    requires attempts > 0
    ensures Play(attempts, [Exchange(response, None)]).Stored? <==> response in {Status(200), Status(204)}
    ensures Play(attempts, [Exchange(response, None)]).Collided? <==> response == Status(412)
    ensures Play(attempts, [Exchange(response, None)]) == Continue(Reconciling(0, false))
       <==> response in {NoResponse, Status(500), Status(502), Status(503), Status(504)}
    ensures Play(attempts, [Exchange(response, None)]) == Continue(Ready(1, false))
       <==> response == Status(409) && attempts > 1
    ensures var step := Play(attempts, [Exchange(response, None)]);
      step in {Stored, Collided, Continue(Reconciling(0, false)), Continue(Ready(1, false)), GaveUp(1)}
  {
    var x := Exchange(response, None);
    assert [x][..0] == [];
    assert Play(attempts, []) == Continue(Ready(0, false));
  }
}
