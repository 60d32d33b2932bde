/** The Freestyle client object: the session, the selected property, the
    fetched home and the tracked lock, the watch timer, and the command
    requests it sends.

    The credential exchange service, the REST transport and the clock are
    parameters: a method that would call the exchange service receives the
    function it computes, a method that would fetch from the server receives
    the fetched value, a tick receives the current time. A command builds the
    request it would send and returns it. */
module FreestyleClient {
  import opened Types
  import opened SnapshotDiff
  import opened Events

  /** The errors the client raises. `MissingSession` is the message the source
      uses for a missing session, property or lock alike; `UndefinedLock` is
      the type error of comparing against a lock that the fetched home did not
      have; `AuthenticationFailed` stands for whatever the exchange service throws. */
  datatype Error = MissingSession | MissingLockData | AuthenticationFailed | UndefinedLock

  datatype Result<T> = Ok(value: T) | Err(error: Error)

  datatype Outcome = Pass | Fail(error: Error)

  /** Refresh this long, plus one watch period, before the session expires. */
  const RefreshMarginMs: int := 60000

  const DefaultWatchFrequencyMs: int := 10000

  const DesiredLockStateTimeoutSeconds: real := 12.0

  /** The idempotency token every command carries; it never changes. */
  const DesiredStateToken: int := 605271687314696

  /** A running interval timer and the period it was created with. */
  datatype Timer = Timer(intervalMs: int)

  /** The `desiredStateToken` object of a command body. */
  datatype Token = Token(data: int)

  datatype CommandBody = CommandBody(
    desiredLockStateTimeoutSeconds: real,
    desiredState: LockState,
    desiredStateToken: Token)

  /** The body of the command that asks for `state`: the timeout and the token
      are the same for every command. */
  function CommandFor(state: LockState): CommandBody {
    CommandBody(DesiredLockStateTimeoutSeconds, state, Token(DesiredStateToken))
  }

  /** A PUT request: the URL, the authorization header and the JSON body. */
  datatype Request = Request(url: string, authorization: string, body: CommandBody)

  /** The fields of the tracked lock that the status report shows. */
  datatype Status = Status(
    bleMac: string,
    reportedState: LockState,
    desiredState: Option<LockState>,
    doorClosed: bool,
    batteryPercent: int)

  /** Element 0 of a list, or undefined when the list is empty. */
  function First<T>(xs: seq<T>): (r: Option<T>)
    ensures r.None? <==> xs == []
    ensures r.Some? ==> r.value == xs[0]
  {
    if xs == [] then None else Some(xs[0])
  }

  /** The expiry check of a watch tick; the comparison is strict. No refresh
      is due exactly when the session outlives the next tick by the full margin. */
  predicate NeedsRefresh(expiresIn: int, now: int, watchFrequency: int)
    ensures !NeedsRefresh(expiresIn, now, watchFrequency) <==>
            now + watchFrequency + RefreshMarginMs <= expiresIn
  {
    now > expiresIn - RefreshMarginMs - watchFrequency
  }

  /** No refresh happens on the threshold itself; once due, a refresh stays due
      as time passes, and a longer watch period makes it due sooner. */
  lemma RefreshThreshold(expiresIn: int, now: int, later: int, watchFrequency: int, longer: int)
    ensures !NeedsRefresh(expiresIn, expiresIn - RefreshMarginMs - watchFrequency, watchFrequency)
    ensures now <= later && NeedsRefresh(expiresIn, now, watchFrequency) ==>
            NeedsRefresh(expiresIn, later, watchFrequency)
    ensures watchFrequency <= longer && NeedsRefresh(expiresIn, now, watchFrequency) ==>
            NeedsRefresh(expiresIn, now, longer)
  {
  }

  /** The address of a lock; `versioned` selects the `/v0` variant. The
      endpoint, the property's id and the lock's MAC address can be read back
      from their places in it. */
  function LockUrl(endpoint: string, versioned: bool, propertyId: string, bleMac: string): (u: string)
    ensures var v := if versioned then 3 else 0;
            var p := |endpoint| + v + 12;
            |u| == p + |propertyId| + 7 + |bleMac| &&
            u[..|endpoint|] == endpoint &&
            u[|endpoint|..p] == (if versioned then "/v0/properties/" else "/properties/") &&
            u[p..p + |propertyId|] == propertyId &&
            u[p + |propertyId|..] == "/locks/" + bleMac
  {
    var u := endpoint + (if versioned then "/v0" else "") + "/properties/" + propertyId + "/locks/" + bleMac;
    var prefix := endpoint + (if versioned then "/v0/properties/" else "/properties/");
    assert u == prefix + propertyId + ("/locks/" + bleMac);
    u
  }

  /** The versioned and the plain lock addresses never coincide, whatever the
      property and lock: the character after the endpoint's "/" is 'v' in one
      and 'p' in the other. */
  lemma VersionedUrlDiffers(endpoint: string, p1: string, m1: string, p2: string, m2: string)
    ensures LockUrl(endpoint, true, p1, m1) != LockUrl(endpoint, false, p2, m2)
  {
    var n := |endpoint|;
    var u1 := LockUrl(endpoint, true, p1, m1);
    var u2 := LockUrl(endpoint, false, p2, m2);
    assert u1 == endpoint + ("/v0" + "/properties/" + p1 + "/locks/" + m1);
    assert u2 == endpoint + ("/properties/" + p2 + "/locks/" + m2);
    assert u1[n + 1] == 'v';
    assert u2[n + 1] == 'p';
  }

  /** What a PUT hands back: nothing on 204 No Content, otherwise the parsed
      body, whatever the status; an error status is not raised. */
  datatype PutResponse<T> = NoContent | Body(body: T)

  function PutResult<T>(status: int, parsed: T): (r: PutResponse<T>)
    ensures r.NoContent? <==> status == 204
    ensures status != 204 ==> r == Body(parsed)
  {
    if status == 204 then NoContent else Body(parsed)
  }

  /** The session after a refresh exchange for `current`, and the outcome: a
      session is always left in place, and the refresh passes exactly when the
      exchange produced a new one. */
  predicate RefreshedBy(exchange: string -> Option<Session>, current: Session, after: Option<Session>, r: Outcome)
    ensures RefreshedBy(exchange, current, after, r) ==>
              after.Some? && (r == Pass <==> exchange(current.refreshToken).Some?)
  {
    match exchange(current.refreshToken)
    case Some(s) => after == Some(s) && r == Pass
    case None => after == Some(current) && r == Fail(AuthenticationFailed)
  }

  class Freestyle {
    const username: string
    const password: string
    /** The API base URL. */
    const endpoint: string

    var session: Option<Session>
    var property: Option<Property>
    var home: Option<Home>
    var lock: Option<Lock>
    var timer: Option<Timer>
    var watchFrequency: int
    /** Every event emitted so far, oldest first. */
    var events: seq<Event>

    /** The tracked lock is always the first lock of the last fetched home,
        and the events emitted so far are whole tick batches. */
    ghost predicate Valid()
      reads this
    {
      lock == (if home.Some? then First(home.value.locks) else None) &&
      WellFormedLog(events)
    }

    constructor(username: string, password: string, endpoint: string)
      ensures Valid()
      ensures this.username == username && this.password == password && this.endpoint == endpoint
      ensures session == None && property == None && home == None && lock == None && timer == None
      ensures watchFrequency == DefaultWatchFrequencyMs && events == []
    {
      this.username := username;
      this.password := password;
      this.endpoint := endpoint;
      session, property, home, lock, timer := None, None, None, None, None;
      watchFrequency := DefaultWatchFrequencyMs;
      events := [];
    }

    /** Logs in with the stored credentials; on success the new session
        replaces any previous one. */
    method Authenticate(exchange: (string, string) -> Option<Session>) returns (r: Outcome)
      modifies this`session
      ensures exchange(username, password).Some? ==> r == Pass && session == exchange(username, password)
      ensures exchange(username, password).None? ==> r == Fail(AuthenticationFailed) && session == old(session)
    {
      var s := exchange(username, password);
      if s.None? {
        return Fail(AuthenticationFailed);
      }
      session := s;
      r := Pass;
    }

    /** Exchanges the refresh token of the current session for a new session. */
    method AuthRefresh(exchange: string -> Option<Session>) returns (r: Outcome)
      modifies this`session
      ensures old(session).None? ==> r == Fail(MissingSession) && session == old(session)
      ensures old(session).Some? ==> RefreshedBy(exchange, old(session).value, session, r)
    {
      if session.None? {
        return Fail(MissingSession);
      }
      var s := exchange(session.value.refreshToken);
      if s.None? {
        return Fail(AuthenticationFailed);
      }
      session := s;
      r := Pass;
    }

    /** Starts the watch timer with the current period; a second call leaves
        the running timer alone and reports nothing but a log line. */
    method Watch() returns (started: bool)
      modifies this`timer
      ensures started <==> old(timer).None?
      ensures timer == if started then Some(Timer(watchFrequency)) else old(timer)
    {
      if timer.None? {
        timer := Some(Timer(watchFrequency));
        started := true;
      } else {
        started := false;
      }
    }

    /** Selects the first property the server lists; an empty list leaves the
        property undefined. */
    method GetProperty(fetched: seq<Property>) returns (r: Result<Option<Property>>)
      modifies this`property
      ensures session.None? ==> r == Err(MissingSession) && property == old(property)
      ensures session.Some? ==> property == First(fetched) && r == Ok(property)
    {
      if session.None? {
        return Err(MissingSession);
      }
      property := First(fetched);
      r := Ok(property);
    }

    /** Replaces the home by the fetched one and tracks its first lock, which
        is undefined when the home has no lock. */
    method GetHome(fetched: Home) returns (r: Result<Home>)
      requires Valid()
      modifies this`home, this`lock
      ensures Valid()
      ensures session.None? || property.None? ==>
                r == Err(MissingSession) && home == old(home) && lock == old(lock)
      ensures session.Some? && property.Some? ==>
                r == Ok(fetched) && home == Some(fetched) && lock == First(fetched.locks)
    {
      if session.None? || property.None? {
        return Err(MissingSession);
      }
      home := Some(fetched);
      lock := First(fetched.locks);
      r := Ok(fetched);
    }

    /** Logs in, selects the property and fetches the home, stopping at the
        first failure. */
    method Init(exchange: (string, string) -> Option<Session>, properties: seq<Property>, fetched: Home)
      returns (r: Outcome)
      requires Valid()
      modifies this`session, this`property, this`home, this`lock
      ensures Valid()
      ensures exchange(username, password).None? ==>
                r == Fail(AuthenticationFailed) && session == old(session) &&
                property == old(property) && home == old(home) && lock == old(lock)
      ensures exchange(username, password).Some? ==>
                session == exchange(username, password) && property == First(properties)
      ensures exchange(username, password).Some? && properties == [] ==>
                r == Fail(MissingSession) && home == old(home) && lock == old(lock)
      ensures exchange(username, password).Some? && properties != [] ==>
                r == Pass && home == Some(fetched) && lock == First(fetched.locks)
    {
      r := Authenticate(exchange);
      if r.Fail? {
        return;
      }
      var p := GetProperty(properties);
      var h := GetHome(fetched);
      if h.Err? {
        return Fail(h.error);
      }
    }

    /** The guard and the data of the status report. */
    method PrintStatus() returns (r: Result<Status>)
      ensures lock.None? ==> r == Err(MissingLockData)
      ensures lock.Some? ==>
                var l := lock.value;
                r == Ok(Status(l.bleMac, l.reportedState, l.desiredState, l.doorClosed, l.batteryPercent))
    {
      if lock.None? {
        return Err(MissingLockData);
      }
      var l := lock.value;
      r := Ok(Status(l.bleMac, l.reportedState, l.desiredState, l.doorClosed, l.batteryPercent));
    }

    /** Emits what a tick publishes for a diff: nothing when it is empty,
        otherwise one `change` event with the previous snapshot and the diff,
        then one event per entry, in the diff's order. The log stays a log of
        whole batches. */
    method Publish(previous: Lock, current: Lock, changes: seq<FieldChange>)
      requires changes == Delta(previous, current) && WellFormedLog(events)
      modifies this`events
      ensures events == old(events) + TickEvents(previous, current)
      ensures WellFormedLog(events)
    {
      if |changes| > 0 {
        events := events + [Change(previous, changes)];
        for i := 0 to |changes|
          invariant events == old(events) + [Change(previous, changes)] + FieldEvents(changes[..i])
        {
          assert FieldEvents(changes[..i + 1]) == FieldEvents(changes[..i]) + [EventFor(changes[i])];
          events := events + [EventFor(changes[i])];
        }
        assert changes[..|changes|] == changes;
      }
      assert events == old(events) + TickEvents(previous, current);
      TickEventsWellFormed(previous, current);
      WellFormedAppend(old(events), TickEvents(previous, current));
    }

    /** One run of the watch timer's callback. There is no try/catch around it:
        a failure ends the tick where it happens and whatever was replaced or
        emitted before stays. */
    method Tick(fetched: Home, now: int, exchange: string -> Option<Session>) returns (r: Outcome)
      requires Valid()
      modifies this`session, this`home, this`lock, this`events
      ensures Valid()
      // no session or no lock: nothing happens
      ensures old(session).None? || old(lock).None? ==>
                r == Fail(MissingSession) && session == old(session) && home == old(home) &&
                lock == old(lock) && events == old(events)
      // the fetch needs the property too
      ensures old(session).Some? && old(lock).Some? && property.None? ==>
                r == Fail(MissingSession) && session == old(session) && home == old(home) &&
                lock == old(lock) && events == old(events)
      // the fetch replaces home and lock
      ensures old(session).Some? && old(lock).Some? && property.Some? ==>
                home == Some(fetched) && lock == First(fetched.locks)
      // a home without locks: the comparison fails before anything is emitted
      ensures old(session).Some? && old(lock).Some? && property.Some? && fetched.locks == [] ==>
                r == Fail(UndefinedLock) && session == old(session) && events == old(events)
      // otherwise: the batch for the diff, then the expiry check
      ensures old(session).Some? && old(lock).Some? && property.Some? && fetched.locks != [] ==>
                events == old(events) + TickEvents(old(lock).value, fetched.locks[0]) &&
                if NeedsRefresh(old(session).value.expiresIn, now, watchFrequency)
                then RefreshedBy(exchange, old(session).value, session, r)
                else session == old(session) && r == Pass
    {
      if session.None? || lock.None? {
        return Fail(MissingSession);
      }
      var lastLock := lock.value;
      var fetchedHome := GetHome(fetched);
      if fetchedHome.Err? {
        return Fail(fetchedHome.error);
      }
      if lock.None? {
        return Fail(UndefinedLock);
      }
      var changes := LockDiff(lastLock, lock.value);
      Publish(lastLock, lock.value, changes);
      if NeedsRefresh(session.value.expiresIn, now, watchFrequency) {
        r := AuthRefresh(exchange);
      } else {
        r := Pass;
      }
    }

    /** Asks the lock to unlock. */
    method Unlock() returns (r: Result<Request>)
      ensures r.Err? <==> session.None? || property.None? || lock.None?
      ensures r.Err? ==> r.error == MissingSession
      ensures r.Ok? ==>
                session.Some? && property.Some? && lock.Some? &&
                r.value == Request(LockUrl(endpoint, false, property.value.propertyId, lock.value.bleMac),
                                   session.value.idToken,
                                   CommandFor(Unlocked))
    {
      if session.None? || property.None? || lock.None? {
        return Err(MissingSession);
      }
      r := Ok(Request(LockUrl(endpoint, false, property.value.propertyId, lock.value.bleMac),
                      session.value.idToken,
                      CommandFor(Unlocked)));
    }

    /** Asks the lock to deadlock. */
    method DeadLock() returns (r: Result<Request>)
      ensures r.Err? <==> session.None? || property.None? || lock.None?
      ensures r.Err? ==> r.error == MissingSession
      ensures r.Ok? ==>
                session.Some? && property.Some? && lock.Some? &&
                r.value == Request(LockUrl(endpoint, false, property.value.propertyId, lock.value.bleMac),
                                   session.value.idToken,
                                   CommandFor(LockedDeadlock))
    {
      if session.None? || property.None? || lock.None? {
        return Err(MissingSession);
      }
      r := Ok(Request(LockUrl(endpoint, false, property.value.propertyId, lock.value.bleMac),
                      session.value.idToken,
                      CommandFor(LockedDeadlock)));
    }

    /** Asks the lock to privacy-lock, through the versioned address. */
    method PrivacyLock() returns (r: Result<Request>)
      ensures r.Err? <==> session.None? || property.None? || lock.None?
      ensures r.Err? ==> r.error == MissingSession
      ensures r.Ok? ==>
                session.Some? && property.Some? && lock.Some? &&
                r.value == Request(LockUrl(endpoint, true, property.value.propertyId, lock.value.bleMac),
                                   session.value.idToken,
                                   CommandFor(LockedPrivacy))
    {
      if session.None? || property.None? || lock.None? {
        return Err(MissingSession);
      }
      r := Ok(Request(LockUrl(endpoint, true, property.value.propertyId, lock.value.bleMac),
                      session.value.idToken,
                      CommandFor(LockedPrivacy)));
    }
  }
}
