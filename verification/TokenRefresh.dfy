/**
 The single-flight token refresh (`frontend/src/api.ts`).  A flight runs without interruption from one
 await to the next; between them other flights, callers, a logout or a login may go on.
 */
module TokenRefresh {
  import opened Wrappers

  // ----- Data -----

  datatype Token = Token(text: string, expiresAt: int)

  /** What the server answers; `None` is a missing number, or one that is not finite. */
  datatype Response = Response(accessToken: string, expiresIn: Option<int>, refreshExpiresIn: Option<int>)

  /**
   The `Retry-After` header of RFC 9110, section 10.2.3: a number of seconds, or a date (in milliseconds).
   `NotFinite` is text that is neither, or a number beyond the range of numbers.
   */
  datatype RetryAfter = NoHeader | Seconds(n: nat) | Date(ms: int) | NotFinite

  /** A failed post: `None` when no answer came. */
  datatype Failure = Failure(status: Option<int>, retryAfter: RetryAfter)

  datatype Outcome = Refreshed(data: Response) | Ended | Unavailable | Superseded

  /** Where a flight is: `Settled` has its outcome, `Finished` has also run its `finally`. */
  datatype Stage = Posting | Waiting | Settled(outcome: Outcome) | Finished(outcome: Outcome)

  datatype Flight = Flight(generation: nat, attempt: nat, posts: nat, waits: seq<int>, stage: Stage)

  datatype Slot = Slot(generation: nat, flight: nat)

  /** `lastActivity` and `ttl` are 0 when the browser stores none. */
  datatype Session = Session(generation: nat, token: Option<Token>, lastActivity: nat, ttl: nat)

  /** `listeners`: how many are told that a session ended; each of them clears the session state. */
  datatype State = State(session: Session, slot: Option<Slot>, flights: seq<Flight>, listeners: nat)

  datatype Step =
    | Request(now: int)
    | Answers(f: nat, response: Response, now: int)
    | Fails(f: nat, failure: Failure, now: int)
    | Wakes(f: nat, now: int)
    | Finally(f: nat)
    | Bumps
    | Clears(activityToo: bool)
    | LogsIn(text: string, expiresIn: int, refreshExpiresIn: Option<int>, at: nat)
    | Touches(at: nat)

  // ----- Session -----

  predicate IsIdle(s: Session, now: int) {
    s.lastActivity != 0 && s.ttl != 0 && now >= s.lastActivity + s.ttl
  }

  function WithTtl(s: Session, seconds: Option<int>): Session {
    if seconds.None? || seconds.value == 0 then s
    else s.(ttl := if seconds.value > 0 then seconds.value * 1000 else 0)
  }

  function Cleared(s: Session, activityToo: bool): Session {
    var bumped := s.(generation := s.generation + 1, token := None);
    if activityToo then bumped.(lastActivity := 0, ttl := 0) else bumped
  }

  /** `clearAuthSession`, with what the listeners do. */
  function ClearedByRefresh(s: Session, listeners: nat): Session {
    Session(s.generation + 1 + (if s.token.Some? then listeners else 0), None, 0, 0)
  }

  function LoggedIn(s: Session, text: string, expiresIn: int, refreshExpiresIn: Option<int>, at: nat): Session {
    WithTtl(s.(generation := s.generation + 1, lastActivity := at), refreshExpiresIn)
      .(token := Some(Token(text, at + expiresIn * 1000)))
  }

  // ----- Waiting between attempts -----

  const RETRY_DELAYS_MS: seq<int> := [1000, 3000, 8000]
  const MAX_RETRY_AFTER_MS := 60000

  predicate IsRefused(failure: Failure) {
    failure.status.Some? && 400 <= failure.status.value < 500 && failure.status.value != 408
    && failure.status.value != 429
  }

  function Clamp(ms: int): int {
    if ms < 0 then 0 else if ms > MAX_RETRY_AFTER_MS then MAX_RETRY_AFTER_MS else ms
  }

  function RetryDelay(failure: Failure, attempt: nat, now: int): (ms: int)
    requires attempt < |RETRY_DELAYS_MS|
    ensures 0 <= ms <= MAX_RETRY_AFTER_MS
    // An asked wait is kept to the end, or to the ceiling, and never lasts longer than asked.
    ensures failure.status == Some(429) && failure.retryAfter.Date? ==>
              (ms == MAX_RETRY_AFTER_MS || now + ms >= failure.retryAfter.ms)
              && (ms == 0 || now + ms <= failure.retryAfter.ms)
    ensures failure.status == Some(429) && failure.retryAfter.Seconds? ==>
              (ms == MAX_RETRY_AFTER_MS || ms >= 1000 * failure.retryAfter.n)
              && (ms == 0 || ms <= 1000 * failure.retryAfter.n)
    // Otherwise a later attempt waits longer.
    ensures (failure.status == Some(429) ==> failure.retryAfter.NoHeader? || failure.retryAfter.NotFinite?)
            && attempt > 0 ==>
              ms > RetryDelay(failure, attempt - 1, now)
  {
    if failure.status != Some(429) then RETRY_DELAYS_MS[attempt]
    else
      match failure.retryAfter
      case Seconds(n) => Clamp(n * 1000)
      case Date(ms) => Clamp(ms - now)
      case _ => RETRY_DELAYS_MS[attempt]
  }

  // ----- Steps -----

  predicate IsSuperseded(s: State, f: nat)
    requires f < |s.flights|
  {
    s.session.generation != s.flights[f].generation
  }

  function At(s: State, f: nat, flight: Flight): State
    requires f < |s.flights|
  {
    s.(flights := s.flights[f := flight])
  }

  function Settle(s: State, f: nat, outcome: Outcome): State
    requires f < |s.flights|
  {
    At(s, f, s.flights[f].(stage := Settled(outcome)))
  }

  function EndSession(s: State, f: nat): State
    requires f < |s.flights|
  {
    Settle(s.(session := ClearedByRefresh(s.session, s.listeners)), f, Ended)
  }

  /** The top of the loop of `performTokenRefresh`. */
  function EnterLoop(s: State, f: nat, now: int): State
    requires f < |s.flights|
  {
    if IsSuperseded(s, f) then Settle(s, f, Superseded)
    else if IsIdle(s.session, now) then EndSession(s, f)
    else At(s, f, s.flights[f].(stage := Posting, posts := s.flights[f].posts + 1))
  }

  function ApplyResponse(s: State, f: nat, response: Response, now: int): State
    requires f < |s.flights|
  {
    if response.accessToken == "" || response.expiresIn.None? || IsIdle(s.session, now) then EndSession(s, f)
    else
      var token := Token(response.accessToken, now + response.expiresIn.value * 1000);
      Settle(s.(session := WithTtl(s.session.(token := Some(token)), response.refreshExpiresIn)), f,
             Refreshed(response))
  }

  function FailedPost(s: State, f: nat, failure: Failure, now: int): State
    requires f < |s.flights|
  {
    var flight := s.flights[f];
    if IsSuperseded(s, f) then Settle(s, f, Superseded)
    else if IsRefused(failure) then EndSession(s, f)
    else if flight.attempt >= |RETRY_DELAYS_MS| then Settle(s, f, Unavailable)
    else At(s, f, flight.(stage := Waiting, waits := flight.waits + [RetryDelay(failure, flight.attempt, now)]))
  }

  function Requested(s: State, now: int): State {
    if s.slot.Some? && s.slot.value.generation == s.session.generation then s
    else
      var f, generation := |s.flights|, s.session.generation;
      var started := EnterLoop(s.(flights := s.flights + [Flight(generation, 0, 0, [], Posting)]), f, now);
      started.(slot := Some(Slot(generation, f)))
  }

  predicate Enabled(s: State, step: Step) {
    match step
    case Answers(f, _, _) => f < |s.flights| && s.flights[f].stage == Posting
    case Fails(f, _, _) => f < |s.flights| && s.flights[f].stage == Posting
    case Wakes(f, _) => f < |s.flights| && s.flights[f].stage == Waiting
    case Finally(f) => f < |s.flights| && s.flights[f].stage.Settled?
    case _ => true
  }

  function Next(s: State, step: Step): State
    requires Enabled(s, step)
  {
    match step
    case Request(now) => Requested(s, now)
    case Answers(f, response, now) =>
      if IsSuperseded(s, f) then Settle(s, f, Superseded) else ApplyResponse(s, f, response, now)
    case Fails(f, failure, now) => FailedPost(s, f, failure, now)
    case Wakes(f, now) => EnterLoop(At(s, f, s.flights[f].(attempt := s.flights[f].attempt + 1)), f, now)
    case Finally(f) =>
      var finished := At(s, f, s.flights[f].(stage := Finished(s.flights[f].stage.outcome)));
      if s.slot.Some? && s.slot.value.flight == f then finished.(slot := None) else finished
    case Bumps => s.(session := s.session.(generation := s.session.generation + 1))
    case Clears(activityToo) => s.(session := Cleared(s.session, activityToo))
    case LogsIn(text, expiresIn, refreshExpiresIn, at) =>
      s.(session := LoggedIn(s.session, text, expiresIn, refreshExpiresIn, at))
    case Touches(at) => s.(session := s.session.(lastActivity := at))
  }

  // ----- What every step keeps -----

  predicate IsOver(stage: Stage) {
    stage.Settled? || stage.Finished?
  }

  predicate Ends(flight: Flight) {
    IsOver(flight.stage) && flight.stage.outcome == Ended
  }

  ghost predicate FlightValid(flight: Flight, generation: nat) {
    && flight.generation <= generation
    && (Ends(flight) ==> flight.generation < generation)
    && (forall k | 0 <= k < |flight.waits| :: 0 <= flight.waits[k] <= MAX_RETRY_AFTER_MS)
    && flight.attempt <= 3
    && match flight.stage {
         case Posting => flight.posts == flight.attempt + 1 && |flight.waits| == flight.attempt
         case Waiting => flight.posts == flight.attempt + 1 && |flight.waits| == flight.attempt + 1
                         && flight.attempt < 3
         case _ => flight.posts <= 4 && |flight.waits| <= 3
       }
  }

  /** A flight of the current generation that has not finished is the one in the slot. */
  ghost predicate IsSingle(s: State, f: nat)
    requires f < |s.flights|
  {
    s.flights[f].generation == s.session.generation && !s.flights[f].stage.Finished? ==>
      s.slot == Some(Slot(s.session.generation, f))
  }

  ghost predicate EndOnce(s: State, f: nat, g: nat)
    requires f < |s.flights| && g < |s.flights|
  {
    f != g && Ends(s.flights[f]) && Ends(s.flights[g]) ==> s.flights[f].generation != s.flights[g].generation
  }

  ghost predicate Inv(s: State) {
    && (forall f: nat | f < |s.flights| :: FlightValid(s.flights[f], s.session.generation))
    && (forall f: nat | f < |s.flights| :: IsSingle(s, f))
    && (forall f: nat, g: nat | f < |s.flights| && g < |s.flights| :: EndOnce(s, f, g))
    && (s.slot.Some? ==>
          && s.slot.value.flight < |s.flights|
          && s.slot.value.generation == s.flights[s.slot.value.flight].generation
          && !s.flights[s.slot.value.flight].stage.Finished?)
  }

  ghost predicate Initial(s: State) {
    s.slot == None && s.flights == []
  }

  /** The flight a step belongs to, when it is a step of an existing flight. */
  function FlightOf(step: Step): Option<nat> {
    match step
    case Answers(f, _, _) => Some(f)
    case Fails(f, _, _) => Some(f)
    case Wakes(f, _) => Some(f)
    case Finally(f) => Some(f)
    case _ => None
  }

  /** A step of flight `f` that leaves the session and the other flights alone. */
  lemma QuietStepKeepsInv(s: State, f: nat, flight: Flight)
    requires Inv(s) && f < |s.flights| && FlightValid(flight, s.session.generation)
    requires flight.generation == s.flights[f].generation && !s.flights[f].stage.Finished? && !flight.stage.Finished?
    requires !Ends(flight)
    ensures Inv(At(s, f, flight))
  {
    var after := At(s, f, flight);
    forall g: nat | g < |after.flights|
      ensures FlightValid(after.flights[g], after.session.generation) && IsSingle(after, g)
    {
      assert FlightValid(s.flights[g], s.session.generation) && IsSingle(s, g);
    }
    forall g: nat, h: nat | g < |after.flights| && h < |after.flights|
      ensures EndOnce(after, g, h)
    {
      assert EndOnce(s, g, h);
    }
  }

  /** The session moves on to a later generation: no flight is of that one. */
  lemma LaterGenerationKeepsInv(s: State, session: Session)
    requires Inv(s) && session.generation > s.session.generation
    ensures Inv(s.(session := session))
  {
    var after := s.(session := session);
    forall f: nat | f < |after.flights|
      ensures FlightValid(after.flights[f], after.session.generation) && IsSingle(after, f)
    {
      assert FlightValid(s.flights[f], s.session.generation);
    }
    forall f: nat, g: nat | f < |after.flights| && g < |after.flights|
      ensures EndOnce(after, f, g)
    {
      assert EndOnce(s, f, g);
    }
  }

  lemma SameGenerationKeepsInv(s: State, session: Session)
    requires Inv(s) && session.generation == s.session.generation
    ensures Inv(s.(session := session))
  {
    var after := s.(session := session);
    forall f: nat | f < |after.flights|
      ensures FlightValid(after.flights[f], after.session.generation) && IsSingle(after, f)
    {
      assert FlightValid(s.flights[f], s.session.generation) && IsSingle(s, f);
    }
    forall f: nat, g: nat | f < |after.flights| && g < |after.flights|
      ensures EndOnce(after, f, g)
    {
      assert EndOnce(s, f, g);
    }
  }

  /** Flight `f`, of the current generation, ends the session. */
  lemma EndingKeepsInv(s: State, f: nat, flight: Flight)
    requires Inv(s) && f < |s.flights| && !IsSuperseded(s, f)
    requires flight.generation == s.flights[f].generation && flight.stage == Settled(Ended)
             && !s.flights[f].stage.Finished?
    requires FlightValid(flight, s.session.generation + 1)
    ensures Inv(At(s.(session := ClearedByRefresh(s.session, s.listeners)), f, flight))
  {
    var after := At(s.(session := ClearedByRefresh(s.session, s.listeners)), f, flight);
    forall g: nat | g < |after.flights|
      ensures FlightValid(after.flights[g], after.session.generation) && IsSingle(after, g)
    {
      assert FlightValid(s.flights[g], s.session.generation);
    }
    forall g: nat, h: nat | g < |after.flights| && h < |after.flights|
      ensures EndOnce(after, g, h)
    {
      assert FlightValid(s.flights[g], s.session.generation) && FlightValid(s.flights[h], s.session.generation);
      assert EndOnce(s, g, h);
    }
  }

  lemma StartedFlightKeepsInv(s: State, flight: Flight, session: Session)
    requires Inv(s) && (s.slot.Some? ==> s.slot.value.generation != s.session.generation)
    requires flight.generation == s.session.generation && FlightValid(flight, session.generation)
             && !flight.stage.Finished?
    requires session.generation >= s.session.generation
    ensures Inv(s.(session := session, flights := s.flights + [flight],
                   slot := Some(Slot(flight.generation, |s.flights|))))
  {
    var after := s.(session := session, flights := s.flights + [flight],
                    slot := Some(Slot(flight.generation, |s.flights|)));
    forall f: nat | f < |after.flights|
      ensures FlightValid(after.flights[f], after.session.generation) && IsSingle(after, f)
    {
      if f < |s.flights| {
        assert FlightValid(s.flights[f], s.session.generation) && IsSingle(s, f);
      }
    }
    forall f: nat, g: nat | f < |after.flights| && g < |after.flights|
      ensures EndOnce(after, f, g)
    {
      if f < |s.flights| && g < |s.flights| {
        assert EndOnce(s, f, g);
      } else if f < |s.flights| {
        assert FlightValid(s.flights[f], s.session.generation);
      } else if g < |s.flights| {
        assert FlightValid(s.flights[g], s.session.generation);
      }
    }
  }

  lemma RequestKeepsInv(s: State, now: int)
    requires Inv(s)
    ensures Inv(Requested(s, now))
  {
    if !(s.slot.Some? && s.slot.value.generation == s.session.generation) {
      var after := Requested(s, now);
      var f := |s.flights|;
      assert after.flights == s.flights + [after.flights[f]];
      StartedFlightKeepsInv(s, after.flights[f], after.session);
    }
  }

  lemma AnswerKeepsInv(s: State, f: nat, response: Response, now: int)
    requires Inv(s) && Enabled(s, Answers(f, response, now))
    ensures Inv(Next(s, Answers(f, response, now)))
  {
    assert FlightValid(s.flights[f], s.session.generation);
    var after := Next(s, Answers(f, response, now));
    if after.session.generation != s.session.generation {
      EndingKeepsInv(s, f, after.flights[f]);
    } else {
      QuietStepKeepsInv(s, f, after.flights[f]);
      SameGenerationKeepsInv(At(s, f, after.flights[f]), after.session);
    }
  }

  lemma FailureKeepsInv(s: State, f: nat, failure: Failure, now: int)
    requires Inv(s) && Enabled(s, Fails(f, failure, now))
    ensures Inv(Next(s, Fails(f, failure, now)))
  {
    assert FlightValid(s.flights[f], s.session.generation);
    var after := Next(s, Fails(f, failure, now));
    if after.session.generation != s.session.generation {
      EndingKeepsInv(s, f, after.flights[f]);
    } else {
      QuietStepKeepsInv(s, f, after.flights[f]);
    }
  }

  lemma WakingKeepsInv(s: State, f: nat, now: int)
    requires Inv(s) && Enabled(s, Wakes(f, now))
    ensures Inv(Next(s, Wakes(f, now)))
  {
    assert FlightValid(s.flights[f], s.session.generation);
    var after := Next(s, Wakes(f, now));
    assert after.flights == s.flights[f := after.flights[f]];
    if after.session.generation != s.session.generation {
      EndingKeepsInv(s, f, after.flights[f]);
    } else {
      QuietStepKeepsInv(s, f, after.flights[f]);
    }
  }

  lemma FinallyKeepsInv(s: State, f: nat)
    requires Inv(s) && Enabled(s, Finally(f))
    ensures Inv(Next(s, Finally(f)))
  {
    var after := Next(s, Finally(f));
    forall g: nat | g < |after.flights|
      ensures FlightValid(after.flights[g], after.session.generation) && IsSingle(after, g)
    {
      assert FlightValid(s.flights[g], s.session.generation) && IsSingle(s, g);
    }
    forall g: nat, h: nat | g < |after.flights| && h < |after.flights|
      ensures EndOnce(after, g, h)
    {
      assert EndOnce(s, g, h);
    }
  }

  lemma StepKeepsInv(s: State, step: Step)
    requires Inv(s) && Enabled(s, step)
    ensures Inv(Next(s, step))
  {
    match step
    case Request(now) => RequestKeepsInv(s, now);
    case Answers(f, response, now) => AnswerKeepsInv(s, f, response, now);
    case Fails(f, failure, now) => FailureKeepsInv(s, f, failure, now);
    case Wakes(f, now) => WakingKeepsInv(s, f, now);
    case Finally(f) => FinallyKeepsInv(s, f);
    case Touches(_) => SameGenerationKeepsInv(s, Next(s, step).session);
    case _ => LaterGenerationKeepsInv(s, Next(s, step).session);
  }

  // ----- What a flight's own steps may do -----

  /**
   A flight of an older generation changes nothing of the session, and of the slot only its own: it never
   writes the token, never bumps the generation and never clears a newer flight's slot.
   */
  lemma StaleFlightTouchesNothing(s: State, step: Step)
    requires Inv(s) && Enabled(s, step) && FlightOf(step).Some? && IsSuperseded(s, FlightOf(step).value)
    ensures Next(s, step).session == s.session
    ensures Next(s, step).slot != s.slot ==>
              step.Finally? && s.slot.Some? && s.slot.value.flight == step.f
              && s.slot.value.generation != s.session.generation
    ensures !step.Finally? ==> Next(s, step).flights[step.f].stage == Settled(Superseded)
  {
  }

  /**
   What the step that gives a flight its outcome does to the session.  `ended` is one bump, and one more
   from each listener when the session held a token: it is exactly one bump when there is no token or no
   listener.  A new token keeps the generation, and nothing else of a flight touches the session.
   */
  lemma OutcomeTellsSession(s: State, step: Step)
    requires Inv(s) && Enabled(s, step) && FlightOf(step).Some?
    ensures var f := FlightOf(step).value;
            var flight, after := Next(s, step).flights[f], Next(s, step).session;
            if step.Finally? || !flight.stage.Settled? then after == s.session
            else
              match flight.stage.outcome {
                case Refreshed(data) =>
                  && after.generation == s.session.generation == flight.generation
                  && after.token.Some? && after.token.value.text == data.accessToken != ""
                  && after.lastActivity == s.session.lastActivity
                case Ended =>
                  && s.session.generation == flight.generation && after.token.None?
                  && after.lastActivity == after.ttl == 0
                  && after.generation >= s.session.generation + 1
                  && (after.generation == s.session.generation + 1 <==> s.session.token.None? || s.listeners == 0)
                case Unavailable => after == s.session && flight.generation == s.session.generation && flight.posts == 4
                case Superseded => after == s.session && flight.generation != s.session.generation
              }
  {
    var f := FlightOf(step).value;
    assert FlightValid(s.flights[f], s.session.generation);
  }

  // ----- What an answer, a failure and a timer lead to -----

  /** An idle deadline is stored and has passed. */
  ghost predicate IdleExpired(session: Session, now: int) {
    session.lastActivity > 0 && session.ttl > 0 && session.lastActivity + session.ttl <= now
  }

  /** The session is over: no token, no activity, and one bump, plus one by each listener told of a lost token. */
  ghost predicate IsCleared(before: Session, after: Session, listeners: nat) {
    && after.generation == before.generation + 1 + (if before.token == None then 0 else listeners)
    && after.token.None? && after.lastActivity == 0 && after.ttl == 0
  }

  /** Only flight `f` may differ. */
  ghost predicate OthersStay(s: State, after: State, f: nat) {
    && after.slot == s.slot && after.listeners == s.listeners && |after.flights| == |s.flights|
    && forall g | 0 <= g < |s.flights| && g != f :: after.flights[g] == s.flights[g]
  }

  /**
   Which failures end a session: exactly a 4xx other than 408 and 429, for the flight of the current
   generation.  After any other failure the session is as it was, and the flight waits while it has attempts
   left.
   */
  lemma FailureIsExact(s: State, f: nat, failure: Failure, now: int)
    requires Inv(s) && Enabled(s, Fails(f, failure, now))
    ensures var after, flight := Next(s, Fails(f, failure, now)), s.flights[f];
            var refused := failure.status.Some? && 400 <= failure.status.value <= 499
                           && failure.status.value !in {408, 429};
            && OthersStay(s, after, f)
            && (after.flights[f].stage == Settled(Ended) <==> flight.generation == s.session.generation && refused)
            && (after.flights[f].stage == Settled(Ended) ==> IsCleared(s.session, after.session, s.listeners))
            && (after.flights[f].stage != Settled(Ended) ==> after.session == s.session)
            && (flight.generation != s.session.generation ==> after.flights[f].stage == Settled(Superseded))
            && (flight.generation == s.session.generation && !refused ==>
                  if flight.posts < 4 then
                    && after.flights[f].stage == Waiting && |after.flights[f].waits| == |flight.waits| + 1
                    && WaitsFor(after.flights[f].waits[|flight.waits|], failure, flight.posts, now)
                  else
                    after.flights[f].stage == Settled(Unavailable))
  {
    assert FlightValid(s.flights[f], s.session.generation);
  }

  /**
   The wait after the given number of posts: what a 429 asks for, between nothing and a minute; otherwise 1,
   3 and 8 seconds.
   */
  ghost predicate WaitsFor(ms: int, failure: Failure, posts: nat, now: int) {
    match (failure.status, failure.retryAfter)
    case (Some(429), Seconds(n)) => ms == if 1000 * n <= 60000 then 1000 * n else 60000
    case (Some(429), Date(at)) => ms == if at <= now then 0 else if at - now <= 60000 then at - now else 60000
    case _ => 1 <= posts <= 3 && ms == [1000, 3000, 8000][posts - 1]
  }

  /**
   An answer counts only for the current generation.  It ends the session exactly when it has no token or no
   finite lifetime, or comes after the idle deadline; otherwise its token is stored with its lifetime, and
   the idle time with it when the answer gives one.
   */
  lemma AnswerIsExact(s: State, f: nat, response: Response, now: int)
    requires Inv(s) && Enabled(s, Answers(f, response, now))
    ensures var after, current := Next(s, Answers(f, response, now)), s.flights[f].generation == s.session.generation;
            var useless := response.accessToken == "" || response.expiresIn.None? || IdleExpired(s.session, now);
            && OthersStay(s, after, f)
            && (!current ==> after.session == s.session && after.flights[f].stage == Settled(Superseded))
            && (current && useless ==>
                  IsCleared(s.session, after.session, s.listeners) && after.flights[f].stage == Settled(Ended))
            && (current && !useless ==>
                  && after.flights[f].stage == Settled(Refreshed(response))
                  && after.session.generation == s.session.generation
                  && after.session.lastActivity == s.session.lastActivity
                  && after.session.token == Some(Token(response.accessToken, now + 1000 * response.expiresIn.value))
                  && var ttl := response.refreshExpiresIn;
                  if ttl.None? || ttl.value == 0 then after.session.ttl == s.session.ttl
                  else after.session.ttl == if ttl.value < 0 then 0 else 1000 * ttl.value)
  {
  }

  /** The last flight has just gone through the top of its loop: it posts unless its session is over. */
  ghost predicate PostsUnlessOver(before: Session, after: State, f: nat, generation: nat, posts: nat, now: int)
    requires f < |after.flights|
  {
    var flight := after.flights[f];
    if generation != before.generation then
      flight.stage == Settled(Superseded) && after.session == before
    else if IdleExpired(before, now) then
      flight.stage == Settled(Ended) && IsCleared(before, after.session, after.listeners)
    else
      flight.stage == Posting && flight.posts == posts + 1 && after.session == before
  }

  /** After its wait a flight posts once more, unless its session is over by then. */
  lemma WakingIsExact(s: State, f: nat, now: int)
    requires Inv(s) && Enabled(s, Wakes(f, now))
    ensures var after := Next(s, Wakes(f, now));
            && OthersStay(s, after, f)
            && PostsUnlessOver(s.session, after, f, s.flights[f].generation, s.flights[f].posts, now)
  {
  }

  /** A request joins the flight of the current generation; without one, a new flight posts unless idle. */
  lemma RequestIsExact(s: State, now: int)
    requires Inv(s)
    ensures var after := Next(s, Request(now));
            if s.slot.Some? && s.slot.value.generation == s.session.generation then after == s
            else
              && |after.flights| == |s.flights| + 1 && after.flights[..|s.flights|] == s.flights
              && after.slot == Some(Slot(s.session.generation, |s.flights|)) && after.listeners == s.listeners
              && after.flights[|s.flights|].generation == s.session.generation
              && PostsUnlessOver(s.session, after, |s.flights|, s.session.generation, 0, now)
  {
  }

  /**
   A login starts a session of its own: every flight on its way is of an earlier one, and the new session
   is idle exactly from the given time on, when the server gives one.
   */
  lemma LoginStartsAnew(s: State, text: string, expiresIn: int, refreshExpiresIn: Option<int>, at: nat, now: int)
    requires Inv(s)
    ensures var after := Next(s, LogsIn(text, expiresIn, refreshExpiresIn, at));
            && after.flights == s.flights && after.slot == s.slot && after.listeners == s.listeners
            && (forall f | 0 <= f < |s.flights| :: s.flights[f].generation < after.session.generation)
            && after.session.token == Some(Token(text, at + 1000 * expiresIn)) && after.session.lastActivity == at
            && (at > 0 && refreshExpiresIn.Some? && refreshExpiresIn.value > 0 ==>
                  (IdleExpired(after.session, now) <==> now >= at + 1000 * refreshExpiresIn.value))
            && (refreshExpiresIn.None? || refreshExpiresIn.value == 0 ==> after.session.ttl == s.session.ttl)
  {
    forall f: nat | f < |s.flights|
      ensures s.flights[f].generation <= s.session.generation
    {
      assert FlightValid(s.flights[f], s.session.generation);
    }
  }

  /** A clear ends the session of every flight on its way, and keeps the idle deadline unless told otherwise. */
  lemma ClearLeavesNoSession(s: State, activityToo: bool)
    requires Inv(s)
    ensures var after := Next(s, Clears(activityToo));
            && after.flights == s.flights && after.slot == s.slot && after.listeners == s.listeners
            && (forall f | 0 <= f < |s.flights| :: s.flights[f].generation < after.session.generation)
            && after.session.generation == s.session.generation + 1 && after.session.token.None?
            && (if activityToo then after.session.lastActivity == after.session.ttl == 0
                else after.session.lastActivity == s.session.lastActivity && after.session.ttl == s.session.ttl)
  {
    forall f: nat | f < |s.flights|
      ensures s.flights[f].generation <= s.session.generation
    {
      assert FlightValid(s.flights[f], s.session.generation);
    }
  }

  // ----- Whole runs -----

  ghost predicate Leads(from: State, steps: seq<Step>, to: State)
    decreases |steps|
  {
    if steps == [] then to == from
    else Enabled(from, steps[0]) && Leads(Next(from, steps[0]), steps[1..], to)
  }

  lemma {:induction false} RunKeepsInv(from: State, steps: seq<Step>, to: State)
    requires Inv(from) && Leads(from, steps, to)
    ensures Inv(to)
    decreases |steps|
  {
    if steps != [] {
      StepKeepsInv(from, steps[0]);
      RunKeepsInv(Next(from, steps[0]), steps[1..], to);
    }
  }

  /**
   More than one bump does happen: with one listener, a login and a refused refresh take the generation
   from 0 to 3, so the flight that ended generation 1 skipped generation 2.
   */
  lemma EndedCanBumpTwice(from: State, now: int) returns (steps: seq<Step>, to: State)
    requires Initial(from) && from.session == Session(0, None, 0, 0) && from.listeners == 1
    ensures Leads(from, steps, to) && |to.flights| == 1
    ensures to.flights[0].generation == 1 && Ends(to.flights[0]) && to.session.generation == 3
  {
    var login, request := LogsIn("token", 900, None, 1), Request(now);
    var refused := Fails(0, Failure(Some(401), NoHeader), now);
    var loggedIn := Next(from, login);
    var requested := Next(loggedIn, request);
    assert requested.flights == [Flight(1, 0, 1, [], Posting)];
    to := Next(requested, refused);
    steps := [login, request, refused];
    assert steps[1..] == [request, refused] && steps[1..][1..] == [refused] && steps[1..][1..][1..] == [];
    assert Leads(to, [], to);
    assert Leads(requested, [refused], to);
    assert Leads(loggedIn, [request, refused], to);
  }

  /**
   In every reachable state at most one flight of the current generation has not finished, and it is the
   one callers join; no two flights ended sessions of the same generation.
   */
  lemma OneFlightPerSession(from: State, steps: seq<Step>, s: State, f: nat, g: nat)
    requires Initial(from) && Leads(from, steps, s) && f < |s.flights| && g < |s.flights|
    ensures s.flights[f].generation == s.session.generation && !s.flights[f].stage.Finished? ==>
              s.slot == Some(Slot(s.session.generation, f)) && forall now :: Requested(s, now) == s
    ensures f != g && s.flights[f].generation == s.flights[g].generation == s.session.generation ==>
              s.flights[f].stage.Finished? || s.flights[g].stage.Finished?
    ensures f != g && Ends(s.flights[f]) && Ends(s.flights[g]) ==> s.flights[f].generation != s.flights[g].generation
  {
    RunKeepsInv(from, steps, s);
    assert IsSingle(s, f) && IsSingle(s, g) && EndOnce(s, f, g);
  }

  /** A flight makes at most 4 posts, with at most 3 waits, each of at most a minute. */
  lemma FlightIsBounded(from: State, steps: seq<Step>, s: State, f: nat)
    requires Initial(from) && Leads(from, steps, s) && f < |s.flights|
    ensures s.flights[f].posts <= 4 && |s.flights[f].waits| <= 3
    ensures forall k | 0 <= k < |s.flights[f].waits| :: 0 <= s.flights[f].waits[k] <= 60000
  {
    RunKeepsInv(from, steps, s);
    assert FlightValid(s.flights[f], s.session.generation);
  }

  /** The steps a flight still has before it. */
  ghost function Ahead(flight: Flight): nat
    requires flight.attempt <= 3
  {
    match flight.stage
    case Posting => 8 - 2 * flight.attempt
    case Waiting => 7 - 2 * flight.attempt
    case Settled(_) => 1
    case Finished(_) => 0
  }

  /** A flight takes at most 8 steps, and can always take one until it has finished. */
  lemma FlightComesToAnEnd(s: State, step: Step)
    requires Inv(s) && Enabled(s, step) && FlightOf(step).Some?
    ensures var f := FlightOf(step).value;
            Inv(Next(s, step)) && s.flights[f].attempt <= 3 && Next(s, step).flights[f].attempt <= 3
            && Ahead(Next(s, step).flights[f]) < Ahead(s.flights[f]) <= 8
  {
    StepKeepsInv(s, step);
    var f := FlightOf(step).value;
    assert FlightValid(s.flights[f], s.session.generation)
           && FlightValid(Next(s, step).flights[f], Next(s, step).session.generation);
  }

  lemma UnfinishedFlightGoesOn(s: State, f: nat)
    requires f < |s.flights| && !s.flights[f].stage.Finished?
    ensures exists step :: Enabled(s, step) && FlightOf(step) == Some(f)
  {
    var step := match s.flights[f].stage
      case Posting => Fails(f, Failure(None, NoHeader), 0)
      case Waiting => Wakes(f, 0)
      case _ => Finally(f);
    assert Enabled(s, step) && FlightOf(step) == Some(f);
  }

  /** Once a flight has its outcome, it keeps it. */
  lemma {:induction false} OutcomeIsFinal(from: State, steps: seq<Step>, to: State, f: nat)
    requires Leads(from, steps, to) && f < |from.flights| && IsOver(from.flights[f].stage)
    ensures f < |to.flights| && IsOver(to.flights[f].stage)
            && to.flights[f].stage.outcome == from.flights[f].stage.outcome
    decreases |steps|
  {
    if steps != [] {
      OutcomeIsFinal(Next(from, steps[0]), steps[1..], to, f);
    }
  }

  ghost predicate AllStale(s: State) {
    forall f: nat | f < |s.flights| :: s.flights[f].stage.Finished? || s.flights[f].generation < s.session.generation
  }

  /**
   A late answer cannot sign the user back in: after a clear, and until the next login or the next
   request for a refresh, there is no token, whatever the flights still on their way bring.
   */
  lemma {:induction false} NoSignInAfterClear(s: State, activityToo: bool, steps: seq<Step>, to: State)
    requires Inv(s) && Leads(Next(s, Clears(activityToo)), steps, to)
    requires forall k | 0 <= k < |steps| :: !steps[k].LogsIn? && !steps[k].Request?
    ensures to.session.token == None
  {
    var cleared := Next(s, Clears(activityToo));
    StepKeepsInv(s, Clears(activityToo));
    forall f: nat | f < |cleared.flights|
      ensures cleared.flights[f].generation < cleared.session.generation
    {
      assert FlightValid(s.flights[f], s.session.generation);
    }
    StaleStaysOut(cleared, steps, to);
  }

  lemma {:induction false} StaleStaysOut(s: State, steps: seq<Step>, to: State)
    requires Inv(s) && AllStale(s) && s.session.token == None && Leads(s, steps, to)
    requires forall k | 0 <= k < |steps| :: !steps[k].LogsIn? && !steps[k].Request?
    ensures to.session.token == None
    decreases |steps|
  {
    if steps != [] {
      var next := Next(s, steps[0]);
      StepKeepsInv(s, steps[0]);
      if FlightOf(steps[0]).Some? {
        StaleFlightTouchesNothing(s, steps[0]);
      }
      forall f: nat | f < |next.flights|
        ensures next.flights[f].stage.Finished? || next.flights[f].generation < next.session.generation
      {
        assert s.flights[f].stage.Finished? || s.flights[f].generation < s.session.generation;
      }
      StaleStaysOut(next, steps[1..], to);
    }
  }
}
