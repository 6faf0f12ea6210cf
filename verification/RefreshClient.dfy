/**
 The state of `frontend/src/api.ts` and the functions that change it, proved against the steps of
 `TokenRefresh`; `ClearAuthState` and `LogIn` are those of `frontend/src/auth/AuthContext.tsx`.
 */
module RefreshClient {
  import opened Wrappers
  import opened TokenRefresh

  class Client {
    var sessionGeneration: nat
    var token: Option<Token>
    var lastActivity: nat
    var ttl: nat
    var refreshFlight: Option<Slot>
    var flights: seq<Flight>
    const listeners: nat

    ghost function View(): State
      reads this
    {
      State(Session(sessionGeneration, token, lastActivity, ttl), refreshFlight, flights, listeners)
    }

    constructor (listeners: nat)
      ensures Initial(View()) && Inv(View()) && token == None && this.listeners == listeners
      ensures sessionGeneration == lastActivity == ttl == 0
    {
      sessionGeneration, token, lastActivity, ttl := 0, None, 0, 0;
      refreshFlight, flights := None, [];
      this.listeners := listeners;
    }

    // ----- Session -----

    method BumpSessionGeneration()
      modifies `sessionGeneration
      ensures View() == Next(old(View()), Bumps)
    {
      sessionGeneration := sessionGeneration + 1;
    }

    method ClearAuthState(activityToo: bool)
      modifies `sessionGeneration, `token, `lastActivity, `ttl
      ensures View() == Next(old(View()), Clears(activityToo))
    {
      BumpSessionGeneration();
      if activityToo {
        lastActivity, ttl := 0, 0;
      }
      token := None;
    }

    /** Each listener clears the session state in turn. */
    method ClearAuthSession()
      modifies `sessionGeneration, `token, `lastActivity, `ttl
      ensures View() == old(View()).(session := ClearedByRefresh(old(View()).session, listeners))
    {
      var hadSession := token.Some?;
      BumpSessionGeneration();
      token := None;
      lastActivity, ttl := 0, 0;
      if hadSession {
        for told := 0 to listeners
          invariant sessionGeneration == old(sessionGeneration) + 1 + told
          invariant token == None && lastActivity == ttl == 0
        {
          ClearAuthState(true);
        }
      }
    }

    method SetRefreshTtl(seconds: Option<int>)
      modifies `ttl
      ensures View() == old(View()).(session := WithTtl(old(View()).session, seconds))
    {
      if seconds.Some? && seconds.value != 0 {
        ttl := if seconds.value > 0 then seconds.value * 1000 else 0;
      }
    }

    method TouchLastActivity(at: nat)
      modifies `lastActivity
      ensures View() == Next(old(View()), Touches(at))
    {
      lastActivity := at;
    }

    method LogIn(text: string, expiresIn: int, refreshExpiresIn: Option<int>, at: nat)
      modifies `sessionGeneration, `token, `lastActivity, `ttl
      ensures View() == Next(old(View()), LogsIn(text, expiresIn, refreshExpiresIn, at))
    {
      BumpSessionGeneration();
      TouchLastActivity(at);
      SetRefreshTtl(refreshExpiresIn);
      token := Some(Token(text, at + expiresIn * 1000));
    }

    predicate IsIdleExpired(now: int)
      reads this
    {
      lastActivity != 0 && ttl != 0 && now >= lastActivity + ttl
    }

    // ----- A flight -----

    method SettleAs(f: nat, outcome: Outcome)
      requires f < |flights|
      modifies `flights
      ensures View() == Settle(old(View()), f, outcome)
    {
      flights := flights[f := flights[f].(stage := Settled(outcome))];
    }

    method ApplyRefreshResponse(f: nat, response: Response, now: int)
      requires f < |flights|
      modifies `sessionGeneration, `token, `lastActivity, `ttl, `flights
      ensures View() == ApplyResponse(old(View()), f, response, now)
    {
      if response.accessToken == "" || response.expiresIn.None? || IsIdleExpired(now) {
        ClearAuthSession();
        SettleAs(f, Ended);
      } else {
        token := Some(Token(response.accessToken, now + response.expiresIn.value * 1000));
        SetRefreshTtl(response.refreshExpiresIn);
        SettleAs(f, Refreshed(response));
      }
    }

    /** The top of the loop: the post goes out unless the session is over. */
    method TryPost(f: nat, now: int)
      requires f < |flights|
      modifies `sessionGeneration, `token, `lastActivity, `ttl, `flights
      ensures View() == EnterLoop(old(View()), f, now)
    {
      if sessionGeneration != flights[f].generation {
        SettleAs(f, Superseded);
      } else if IsIdleExpired(now) {
        ClearAuthSession();
        SettleAs(f, Ended);
      } else {
        flights := flights[f := flights[f].(stage := Posting, posts := flights[f].posts + 1)];
      }
    }

    /** `requestTokenRefreshOutcome`: returns the flight the caller awaits. */
    method RequestTokenRefresh(now: int) returns (f: nat)
      requires Inv(View())
      modifies this
      ensures View() == Next(old(View()), Request(now)) && Inv(View())
      ensures f < |flights| && refreshFlight == Some(Slot(old(sessionGeneration), f))
      ensures flights[f].generation == old(sessionGeneration)
    {
      RequestKeepsInv(View(), now);
      if refreshFlight.None? || refreshFlight.value.generation != sessionGeneration {
        var generation := sessionGeneration;
        f := |flights|;
        flights := flights + [Flight(generation, 0, 0, [], Posting)];
        TryPost(f, now);
        refreshFlight := Some(Slot(generation, f));
      } else {
        f := refreshFlight.value.flight;
      }
    }

    method OnAnswer(f: nat, response: Response, now: int)
      requires Inv(View()) && Enabled(View(), Answers(f, response, now))
      modifies this
      ensures View() == Next(old(View()), Answers(f, response, now)) && Inv(View())
    {
      AnswerKeepsInv(View(), f, response, now);
      if sessionGeneration != flights[f].generation {
        SettleAs(f, Superseded);
      } else {
        ApplyRefreshResponse(f, response, now);
      }
    }

    method OnFailure(f: nat, failure: Failure, now: int)
      requires Inv(View()) && Enabled(View(), Fails(f, failure, now))
      modifies this
      ensures View() == Next(old(View()), Fails(f, failure, now)) && Inv(View())
    {
      FailureKeepsInv(View(), f, failure, now);
      var flight := flights[f];
      if sessionGeneration != flight.generation {
        SettleAs(f, Superseded);
      } else if IsRefused(failure) {
        ClearAuthSession();
        SettleAs(f, Ended);
      } else if flight.attempt >= |RETRY_DELAYS_MS| {
        SettleAs(f, Unavailable);
      } else {
        flights := flights[f := flight.(stage := Waiting,
                                        waits := flight.waits + [RetryDelay(failure, flight.attempt, now)])];
      }
    }

    method OnTimer(f: nat, now: int)
      requires Inv(View()) && Enabled(View(), Wakes(f, now))
      modifies this
      ensures View() == Next(old(View()), Wakes(f, now)) && Inv(View())
    {
      WakingKeepsInv(View(), f, now);
      flights := flights[f := flights[f].(attempt := flights[f].attempt + 1)];
      TryPost(f, now);
    }

    method OnFinally(f: nat)
      requires Inv(View()) && Enabled(View(), Finally(f))
      modifies this
      ensures View() == Next(old(View()), Finally(f)) && Inv(View())
    {
      FinallyKeepsInv(View(), f);
      flights := flights[f := flights[f].(stage := Finished(flights[f].stage.outcome))];
      if refreshFlight.Some? && refreshFlight.value.flight == f {
        refreshFlight := None;
      }
    }
  }
}
