/** Login sessions: the session row, its short-lived cache entry, and the checks,
    logouts, heartbeats and sweeps that work on them. Times are in microseconds. */
module LoginSession {
  import opened Wrappers

  const SECOND := 1_000_000
  const TTL := 60 * SECOND
  const GRACE := 120 * SECOND

  datatype Kind = Manual | IdleTimeout | TokenExpired

  datatype Logout = Logout(at: int, kind: Kind, seconds: int)

  datatype Row = Row(timestamp: int, lastActivity: Option<int>, idle: Option<nat>, logout: Option<Logout>)

  /** `readAt` is history: when the row was read, before `loadedAt` was stamped. */
  datatype Loaded = Loaded(closedAs: Option<Kind>, last: int, loadedAt: int, readAt: int)

  function Last(row: Row): int {
    if row.lastActivity.Some? then row.lastActivity.value else row.timestamp
  }

  function ClosedAs(row: Row): Option<Kind> {
    if row.logout.Some? then Some(row.logout.value.kind) else None
  }

  /** A logout never lies before the login it ends. */
  function LogoutOf(row: Row, kind: Kind, at: int): (logout: Logout)
    ensures logout.at >= row.timestamp && logout.seconds >= 0
    ensures logout.seconds * SECOND <= logout.at - row.timestamp < (logout.seconds + 1) * SECOND
    ensures logout.at == (if at >= row.timestamp then at else row.timestamp) && logout.kind == kind
  {
    var t := if at < row.timestamp then row.timestamp else at;
    Logout(t, kind, (t - row.timestamp) / SECOND)
  }

  predicate IdleDue(last: int, idle: Option<nat>, now: int) {
    idle.Some? && idle.value > 0 && now - last > idle.value * SECOND + GRACE
  }

  // ------------------------------------------- one access at a time, interleaved

  datatype Call =
    | CheckGet(start: int, idle: Option<nat>)
    | CheckLoad(start: int, idle: Option<nat>)
    | CheckStamp(start: int, idle: Option<nat>, closedAs: Option<Kind>, last: int, readAt: int)
    | CheckSet(start: int, idle: Option<nat>, state: Loaded)
    | CheckDecide(start: int, idle: Option<nat>, state: Loaded)
    | Accepted(start: int)
    | Refused(start: int)
    | CloseRead(kind: Kind, at: Option<int>)
    | CloseSave(kind: Kind, logoutAt: int)
    | TouchWrite(touchedAt: int)
    | CacheDelete
    | Finished

  datatype State = State(row: Row, cache: Option<Loaded>, calls: seq<Call>, now: int, closedSince: Option<int>)

  datatype Event =
    | Tick(elapsed: nat)
    | Evict                               // the cache drops the entry
    | Begin(call: Call)
    | Step(p: nat)                        // the next access of call p

  /** Calls that a request may begin with. */
  predicate CanBegin(s: State, call: Call) {
    match call
    case CheckGet(start, _) => start == s.now
    case CloseRead(_, _) => true
    case TouchWrite(_) => true
    case _ => false
  }

  predicate Enabled(s: State, e: Event) {
    match e
    case Begin(call) => CanBegin(s, call)
    case Step(p) => p < |s.calls|
    case _ => true
  }

  /** Where a call stands after its next access. */
  function Next(s: State, call: Call): Call {
    match call
    case CheckGet(start, idle) =>
      if s.cache.Some? && start - s.cache.value.loadedAt <= TTL then CheckDecide(start, idle, s.cache.value)
      else CheckLoad(start, idle)
    case CheckLoad(start, idle) => CheckStamp(start, idle, ClosedAs(s.row), Last(s.row), s.now)
    case CheckStamp(start, idle, closedAs, last, readAt) => CheckSet(start, idle, Loaded(closedAs, last, s.now, readAt))
    case CheckSet(start, idle, state) => CheckDecide(start, idle, state)
    case CheckDecide(start, idle, state) =>
      if state.closedAs.Some? || IdleDue(state.last, idle, start) then Refused(start) else Accepted(start)
    case CloseRead(kind, at) =>
      if s.row.logout.None? then CloseSave(kind, if at.Some? then at.value else s.now) else CacheDelete
    case CloseSave(_, _) => CacheDelete
    case TouchWrite(_) => CacheDelete
    case CacheDelete => Finished
    case _ => call
  }

  /** A check that finds its session idle closes it as of the idle deadline. */
  function Spawned(call: Call): seq<Call> {
    match call
    case CheckDecide(start, idle, state) =>
      if state.closedAs.None? && IdleDue(state.last, idle, start)
      then [CloseRead(IdleTimeout, Some(state.last + idle.value * SECOND))] else []
    case _ => []
  }

  function NextRow(row: Row, call: Call): Row {
    match call
    case CloseSave(kind, at) => row.(logout := Some(LogoutOf(row, kind, at)))
    case TouchWrite(at) => if row.logout.None? then row.(lastActivity := Some(at)) else row
    case _ => row
  }

  function NextCache(cache: Option<Loaded>, call: Call): Option<Loaded> {
    match call
    case CheckSet(_, _, state) => Some(state)
    case CacheDelete => None
    case _ => cache
  }

  function Advance(s: State, p: nat): State
    requires p < |s.calls|
  {
    var call := s.calls[p];
    State(NextRow(s.row, call), NextCache(s.cache, call), s.calls[p := Next(s, call)] + Spawned(call), s.now,
          if call.CloseSave? && s.closedSince.None? then Some(s.now) else s.closedSince)
  }

  function Apply(s: State, e: Event): State
    requires Enabled(s, e)
  {
    match e
    case Tick(elapsed) => s.(now := s.now + elapsed)
    case Evict => s.(cache := None)
    case Begin(call) => s.(calls := s.calls + [call])
    case Step(p) => Advance(s, p)
  }

  /** A load stamps its time at most `lag` after it read the row. */
  predicate Prompt(s: State, e: Event, lag: nat)
    requires Enabled(s, e)
  {
    e.Step? && s.calls[e.p].CheckStamp? ==> s.now <= s.calls[e.p].readAt + lag
  }

  datatype Outcome = Stuck | Reached(state: State)

  /** The state reached by enabled steps with prompt loads, if they all are. */
  function Run(s: State, events: seq<Event>, lag: nat): Outcome
    decreases |events|
  {
    if events == [] then Reached(s)
    else
      var before := Run(s, events[..|events| - 1], lag);
      var e := events[|events| - 1];
      if before.Reached? && Enabled(before.state, e) && Prompt(before.state, e, lag)
      then Reached(Apply(before.state, e)) else Stuck
  }

  /** What was read as open was read before the session closed. */
  predicate ReadOk(s: State, closedAs: Option<Kind>, readAt: int) {
    readAt <= s.now && (closedAs.None? && s.closedSince.Some? ==> readAt <= s.closedSince.value)
  }

  predicate LoadedOk(s: State, state: Loaded, lag: nat) {
    ReadOk(s, state.closedAs, state.readAt) && state.loadedAt <= state.readAt + lag
  }

  predicate CallOk(s: State, call: Call, lag: nat) {
    match call
    case CheckGet(start, _) => start <= s.now
    case CheckLoad(start, _) => start <= s.now
    case CheckStamp(start, _, closedAs, _, readAt) => start <= readAt && ReadOk(s, closedAs, readAt)
    case CheckSet(start, _, state) => start <= state.readAt && LoadedOk(s, state, lag)
    case CheckDecide(start, _, state) => start <= s.now && start <= state.readAt + lag + TTL && LoadedOk(s, state, lag)
    case Accepted(start) => start <= s.now && (s.closedSince.Some? ==> start <= s.closedSince.value + lag + TTL)
    case _ => true
  }

  ghost predicate Inv(s: State, lag: nat) {
    && (s.closedSince.Some? <==> s.row.logout.Some?)
    && (s.closedSince.Some? ==> s.closedSince.value <= s.now)
    && (s.cache.Some? ==> LoadedOk(s, s.cache.value, lag))
    && forall p :: 0 <= p < |s.calls| ==> CallOk(s, s.calls[p], lag)
  }

  /** Time passes, and a session closes at most once, and only now. */
  predicate Later(s: State, after: State) {
    && s.now <= after.now
    && (s.closedSince.Some? ==> after.closedSince == s.closedSince)
    && (s.closedSince.None? && after.closedSince.Some? ==> after.closedSince.value == s.now)
  }

  lemma CallStaysOk(s: State, after: State, call: Call, lag: nat)
    requires CallOk(s, call, lag) && Later(s, after)
    ensures CallOk(after, call, lag)
  {
  }

  lemma NextCallOk(s: State, call: Call, lag: nat)
    requires CallOk(s, call, lag) && (s.cache.Some? ==> LoadedOk(s, s.cache.value, lag))
    requires s.closedSince.Some? <==> s.row.logout.Some?
    requires call.CheckStamp? ==> s.now <= call.readAt + lag
    ensures CallOk(s, Next(s, call), lag)
  {
  }

  lemma StepKeepsInv(s: State, e: Event, lag: nat)
    requires Inv(s, lag) && Enabled(s, e) && Prompt(s, e, lag)
    ensures Inv(Apply(s, e), lag)
  {
    var after := Apply(s, e);
    if e.Step? {
      assert CallOk(s, s.calls[e.p], lag);
      NextCallOk(s, s.calls[e.p], lag);
    }
    forall p | 0 <= p < |after.calls| ensures CallOk(after, after.calls[p], lag) {
      if p < |s.calls| {
        CallStaysOk(s, after, if e.Step? && p == e.p then Next(s, s.calls[p]) else s.calls[p], lag);
      }
    }
  }

  lemma {:induction false} RunKeepsInv(s: State, events: seq<Event>, lag: nat)
    requires Inv(s, lag) && Run(s, events, lag).Reached?
    ensures Inv(Run(s, events, lag).state, lag)
    decreases |events|
  {
    if events != [] {
      RunKeepsInv(s, events[..|events| - 1], lag);
      StepKeepsInv(Run(s, events[..|events| - 1], lag).state, events[|events| - 1], lag);
    }
  }

  function Opened(row: Row, now: int): State {
    State(row, None, [], now, None)
  }

  /** In any interleaving no check accepts that starts more than a minute, plus the
      slowest load, after the session closed. */
  lemma RevocationBound(row: Row, now: int, events: seq<Event>, lag: nat, p: nat)
    requires row.logout.None? && Run(Opened(row, now), events, lag).Reached?
    ensures var s := Run(Opened(row, now), events, lag).state;
      p < |s.calls| && s.calls[p].Accepted? && s.closedSince.Some? ==> s.calls[p].start <= s.closedSince.value + 60_000_000 + lag
  {
    RunKeepsInv(Opened(row, now), events, lag);
    var s := Run(Opened(row, now), events, lag).state;
    assert p < |s.calls| ==> CallOk(s, s.calls[p], lag);
  }

  lemma Extend(start: State, events: seq<Event>, s: State, e: Event, lag: nat) returns (more: seq<Event>, after: State)
    requires Run(start, events, lag) == Reached(s) && Enabled(s, e) && Prompt(s, e, lag)
    ensures more == events + [e] && after == Apply(s, e) && Run(start, more, lag) == Reached(after)
  {
    more, after := events + [e], Apply(s, e);
    assert more[..|more| - 1] == events;
  }

  /** A load that has read the row open and not stamped it yet. */
  lemma HalfLoad(row: Row, now: int, lag: nat) returns (events: seq<Event>, s: State)
    requires row.logout.None?
    ensures Run(Opened(row, now), events, lag) == Reached(s)
    ensures s == State(row, None, [CheckStamp(now, None, None, Last(row), now)], now, None)
  {
    var s0 := Opened(row, now);
    events, s := Extend(s0, [], s0, Begin(CheckGet(now, None)), lag);
    events, s := Extend(s0, events, s, Step(0), lag);
    events, s := Extend(s0, events, s, Step(0), lag);
  }

  /** The session closes before it does. */
  lemma CloseDuringLoad(row: Row, now: int, lag: nat) returns (events: seq<Event>, s: State)
    requires row.logout.None?
    ensures Run(Opened(row, now), events, lag) == Reached(s)
    ensures s.calls == [CheckStamp(now, None, None, Last(row), now), Finished]
    ensures s.now == now && s.closedSince == Some(now) && s.cache == None
  {
    var s0 := Opened(row, now);
    events, s := HalfLoad(row, now, lag);
    events, s := Extend(s0, events, s, Begin(CloseRead(Manual, None)), lag);
    events, s := Extend(s0, events, s, Step(1), lag);
    events, s := Extend(s0, events, s, Step(1), lag);
    events, s := Extend(s0, events, s, Step(1), lag);
  }

  /** The load then stamps `lag` later and fills the cache. */
  lemma SlowLoad(row: Row, now: int, lag: nat) returns (events: seq<Event>, s: State)
    requires row.logout.None?
    ensures Run(Opened(row, now), events, lag) == Reached(s)
    ensures |s.calls| == 2 && s.now == now + lag && s.closedSince == Some(now)
    ensures s.cache == Some(Loaded(None, Last(row), now + lag, now))
  {
    var s0 := Opened(row, now);
    events, s := CloseDuringLoad(row, now, lag);
    events, s := Extend(s0, events, s, Tick(lag), lag);
    events, s := Extend(s0, events, s, Step(0), lag);
    events, s := Extend(s0, events, s, Step(0), lag);
  }

  /** The bound is attained: after such a load a check that starts a minute plus `lag`
      after the close is accepted. */
  lemma SlowLoadOutlivesClose(row: Row, now: int, lag: nat) returns (events: seq<Event>, s: State)
    requires row.logout.None?
    ensures Run(Opened(row, now), events, lag) == Reached(s)
    ensures |s.calls| == 3 && s.calls[2] == Accepted(now + 60_000_000 + lag) && s.closedSince == Some(now)
  {
    events, s := SlowLoad(row, now, lag);
    var s0 := Opened(row, now);
    events, s := Extend(s0, events, s, Tick(TTL), lag);
    events, s := Extend(s0, events, s, Begin(CheckGet(s.now, None)), lag);
    events, s := Extend(s0, events, s, Step(2), lag);
    events, s := Extend(s0, events, s, Step(2), lag);
  }

  /** Call `p` is a check that was accepted although it started more than a minute after
      the session closed. */
  predicate AcceptedLate(s: State, p: nat) {
    && p < |s.calls| && s.calls[p].Accepted? && s.closedSince.Some?
    && s.calls[p].start > s.closedSince.value + 60_000_000
  }

  ghost predicate MinuteHolds(row: Row, now: int, lag: nat) {
    forall events, p :: Run(Opened(row, now), events, lag).Reached? ==> !AcceptedLate(Run(Opened(row, now), events, lag).state, p)
  }

  /** A minute is the bound exactly when a load stamps its time at the instant it reads. */
  lemma MinuteHoldsExactly(row: Row, now: int, lag: nat)
    requires row.logout.None?
    ensures MinuteHolds(row, now, lag) <==> lag == 0
  {
    if lag == 0 {
      forall events, p | Run(Opened(row, now), events, lag).Reached?
        ensures !AcceptedLate(Run(Opened(row, now), events, lag).state, p)
      {
        RevocationBound(row, now, events, lag, p);
      }
    } else {
      var events, s := SlowLoadOutlivesClose(row, now, lag);
      assert AcceptedLate(s, 2);
    }
  }

  /** Nor is the first close kept when two overlap: both read the row open, and the
      second to save replaces the logout of the first. */
  lemma OverlappingCloseOverwrites(row: Row, now: int) returns (events: seq<Event>, first: State, s: State)
    requires row.logout.None?
    ensures |events| > 0 && Run(Opened(row, now), events[..|events| - 1], 0) == Reached(first)
    ensures Run(Opened(row, now), events, 0) == Reached(s)
    ensures ClosedAs(first.row) == Some(Manual) && ClosedAs(s.row) == Some(TokenExpired)
  {
    var s0 := Opened(row, now);
    events, s := Extend(s0, [], s0, Begin(CloseRead(Manual, None)), 0);
    events, s := Extend(s0, events, s, Begin(CloseRead(TokenExpired, None)), 0);
    events, s := Extend(s0, events, s, Step(0), 0);
    events, s := Extend(s0, events, s, Step(1), 0);
    assert s.calls == [CloseSave(Manual, now), CloseSave(TokenExpired, now)];
    events, s := Extend(s0, events, s, Step(0), 0);
    first := s;
    var before := events;
    events, s := Extend(s0, events, s, Step(1), 0);
    assert events[..|events| - 1] == before;
  }

  /** A close that has read the row open and is about to save another logout. */
  predicate Overwrites(row: Row, call: Call) {
    call.CloseSave? && row.logout != Some(LogoutOf(row, call.kind, call.logoutAt))
  }

  ghost predicate NoneOverwrites(s: State) {
    forall p :: 0 <= p < |s.calls| ==> !Overwrites(s.row, s.calls[p])
  }

  ghost predicate LogoutStays(s: State, lag: nat) {
    forall events :: Run(s, events, lag).Reached? ==> Run(s, events, lag).state.row.logout == s.row.logout
  }

  lemma StepKeepsLogout(s: State, e: Event)
    requires s.row.logout.Some? && NoneOverwrites(s) && Enabled(s, e)
    ensures Apply(s, e).row == s.row && NoneOverwrites(Apply(s, e))
  {
    var after := Apply(s, e);
    assert e.Step? ==> !Overwrites(s.row, s.calls[e.p]);
    assert after.row == s.row;
    forall p | 0 <= p < |after.calls| ensures !Overwrites(s.row, after.calls[p]) {
      assert p < |s.calls| ==> !Overwrites(s.row, s.calls[p]);
    }
  }

  lemma {:induction false} RunKeepsLogout(s: State, events: seq<Event>, lag: nat)
    requires s.row.logout.Some? && NoneOverwrites(s) && Run(s, events, lag).Reached?
    ensures Run(s, events, lag).state.row == s.row && NoneOverwrites(Run(s, events, lag).state)
    decreases |events|
  {
    if events != [] {
      RunKeepsLogout(s, events[..|events| - 1], lag);
      StepKeepsLogout(Run(s, events[..|events| - 1], lag).state, events[|events| - 1]);
    }
  }

  /** A closed session keeps its logout in every run exactly when no close that read it
      open has still to save a different one. */
  lemma LogoutStaysExactly(s: State, lag: nat)
    requires s.row.logout.Some?
    ensures LogoutStays(s, lag) <==> NoneOverwrites(s)
  {
    if NoneOverwrites(s) {
      forall events | Run(s, events, lag).Reached? ensures Run(s, events, lag).state.row.logout == s.row.logout {
        RunKeepsLogout(s, events, lag);
      }
    } else {
      var p :| 0 <= p < |s.calls| && Overwrites(s.row, s.calls[p]);
      var events, after := Extend(s, [], s, Step(p), lag);
      assert after.row.logout != s.row.logout;
    }
  }

  // --------------------------------------------------- one operation at a time

  /** What a check on an uncached row decides: refused as, and closed as of. */
  function Idled(row: Row, now: int): Option<Logout>
    requires row.logout.None?
  {
    if IdleDue(Last(row), row.idle, now) then Some(LogoutOf(row, IdleTimeout, Last(row) + row.idle.value * SECOND)) else None
  }

  function Expiry(row: Row, lifetime: int): int {
    row.timestamp + lifetime
  }

  /** What the sweep makes of an open row. */
  function Swept(row: Row, lifetime: int, now: int): Option<Logout>
    requires row.logout.None?
  {
    var deadline := if row.idle.Some? && row.idle.value > 0 then Some(Last(row) + row.idle.value * SECOND) else None;
    if deadline.Some? && deadline.value <= Expiry(row, lifetime) && deadline.value < now - GRACE
    then Some(LogoutOf(row, IdleTimeout, deadline.value))
    else if Expiry(row, lifetime) < now then Some(LogoutOf(row, TokenExpired, Expiry(row, lifetime)))
    else None
  }

  /** A check and the sweep agree on whether, how and as of when an open session ends
      exactly when an idle session ran out within its lifetime, and one that is not
      idle has lifetime left. */
  lemma CheckAndSweepAgreeExactly(row: Row, lifetime: int, now: int)
    requires row.logout.None? && lifetime >= 0
    ensures Swept(row, lifetime, now) == Idled(row, now) <==>
      if IdleDue(Last(row), row.idle, now) then Last(row) + row.idle.value * SECOND <= Expiry(row, lifetime)
      else now <= Expiry(row, lifetime)
  {
  }

  /** A session last active shortly before its lifetime ended: the check closes it as
      of its idle deadline, the sweep as of the earlier expiry of its token. */
  lemma CheckAndSweepDisagree() returns (row: Row, lifetime: int, now: int)
    ensures row.logout.None? && lifetime >= 0
    ensures Idled(row, now) == Some(Logout(5300 * SECOND, IdleTimeout, 5300))
    ensures Swept(row, lifetime, now) == Some(Logout(3600 * SECOND, TokenExpired, 3600))
  {
    row, lifetime, now := Row(0, Some(3500 * SECOND), Some(1800), None), 3600 * SECOND, 6000 * SECOND;
  }

  /** When the session was last active: at its last heartbeat, or else at login. */
  function SeenLast(row: Row): int {
    match row.lastActivity
    case Some(at) => at
    case None => row.timestamp
  }

  /** The session has been idle for longer than its limit and two minutes of grace. */
  predicate IdleBeyond(row: Row, idle: Option<nat>, now: int) {
    idle.Some? && idle.value > 0 && SeenLast(row) + idle.value * 1_000_000 + 120_000_000 < now
  }

  /** The session ended at `at`, or at login if that is later, after that many whole seconds. */
  predicate EndsAt(row: Row, logout: Logout, at: int) {
    && (logout.at == at || logout.at == row.timestamp) && logout.at >= at && logout.at >= row.timestamp
    && logout.seconds * 1_000_000 <= logout.at - row.timestamp < (logout.seconds + 1) * 1_000_000
  }

  /** A check on an open session refuses it exactly when it is idle beyond grace, and then
      closes it as of the end of its idle limit. */
  lemma IdledExactly(row: Row, now: int)
    requires row.logout.None?
    ensures Idled(row, now).Some? <==> IdleBeyond(row, row.idle, now)
    ensures Idled(row, now).Some? ==>
      Idled(row, now).value.kind == IdleTimeout && EndsAt(row, Idled(row, now).value, SeenLast(row) + row.idle.value * 1_000_000)
  {
  }

  /** The sweep closes an open session exactly when its token's lifetime is over or it was
      idle beyond grace, within that lifetime; as of whichever ended first, and as what. */
  lemma SweptExactly(row: Row, lifetime: int, now: int)
    requires row.logout.None?
    ensures var over := row.timestamp + lifetime < now;
      var idled := IdleBeyond(row, row.idle, now) && SeenLast(row) + row.idle.value * 1_000_000 <= row.timestamp + lifetime;
      && (Swept(row, lifetime, now).Some? <==> idled || over)
      && (idled ==>
            && Swept(row, lifetime, now).value.kind == IdleTimeout
            && EndsAt(row, Swept(row, lifetime, now).value, SeenLast(row) + row.idle.value * 1_000_000))
      && (over && !idled ==>
            && Swept(row, lifetime, now).value.kind == TokenExpired
            && EndsAt(row, Swept(row, lifetime, now).value, row.timestamp + lifetime))
      && AfterSweep(row, lifetime, now) == row.(logout := Swept(row, lifetime, now))
  {
  }

  // ------------------------------------------------------ calls run on their own

  /** A check of an open session with nothing cached loads the row and fills the cache. */
  lemma CheckLoadsAlone(row: Row, now: int) returns (events: seq<Event>, s: State)
    requires row.logout.None?
    ensures Run(Opened(row, now), events, 0) == Reached(s)
    ensures var loaded := Loaded(None, SeenLast(row), now, now);
      s == State(row, Some(loaded), [CheckDecide(now, row.idle, loaded)], now, None)
  {
    var s0 := Opened(row, now);
    events, s := Extend(s0, [], s0, Begin(CheckGet(now, row.idle)), 0);
    assert s.calls == [CheckGet(now, row.idle)];
    events, s := Extend(s0, events, s, Step(0), 0);
    assert s.calls == [CheckLoad(now, row.idle)];
    events, s := Extend(s0, events, s, Step(0), 0);
    assert s.calls == [CheckStamp(now, row.idle, None, SeenLast(row), now)];
    events, s := Extend(s0, events, s, Step(0), 0);
    assert s.calls == [CheckSet(now, row.idle, Loaded(None, SeenLast(row), now, now))];
    events, s := Extend(s0, events, s, Step(0), 0);
  }

  /** It accepts, unless the session is idle beyond grace. */
  lemma OpenCheckAlone(row: Row, now: int) returns (events: seq<Event>, s: State)
    requires row.logout.None? && !IdleBeyond(row, row.idle, now)
    ensures Run(Opened(row, now), events, 0) == Reached(s)
    ensures s == State(row, Some(Loaded(None, SeenLast(row), now, now)), [Accepted(now)], now, None)
  {
    events, s := CheckLoadsAlone(row, now);
    events, s := Extend(Opened(row, now), events, s, Step(0), 0);
  }

  lemma IdleCheckRefuses(row: Row, now: int) returns (events: seq<Event>, s: State)
    requires row.logout.None? && IdleBeyond(row, row.idle, now)
    ensures Run(Opened(row, now), events, 0) == Reached(s)
    ensures s.calls == [Refused(now), CloseRead(IdleTimeout, Some(SeenLast(row) + row.idle.value * 1_000_000))]
    ensures s.row == row && s.now == now && s.closedSince == None
  {
    events, s := CheckLoadsAlone(row, now);
    events, s := Extend(Opened(row, now), events, s, Step(0), 0);
  }

  /** One of an idle session: refused, and the row is closed as the check alone closes it,
      with the cache entry gone. */
  lemma IdleCheckAlone(row: Row, now: int) returns (events: seq<Event>, s: State)
    requires row.logout.None? && IdleBeyond(row, row.idle, now)
    ensures Run(Opened(row, now), events, 0) == Reached(s)
    ensures s.calls == [Refused(now), Finished] && s.cache == None && s.closedSince == Some(now)
    ensures s.row == row.(logout := Idled(row, now))
  {
    events, s := IdleCheckRefuses(row, now);
    var s0 := Opened(row, now);
    events, s := Extend(s0, events, s, Step(1), 0);
    events, s := Extend(s0, events, s, Step(1), 0);
    events, s := Extend(s0, events, s, Step(1), 0);
  }

  /** A logout and a heartbeat on their own do what the two operations promise. */
  lemma CloseAlone(row: Row, kind: Kind, at: Option<int>, now: int) returns (events: seq<Event>, s: State)
    requires row.logout.None?
    ensures Run(Opened(row, now), events, 0) == Reached(s) && s.calls == [Finished] && s.cache == None
    ensures s.row == row.(logout := s.row.logout) && s.row.logout.Some? && s.row.logout.value.kind == kind
    ensures EndsAt(row, s.row.logout.value, if at.Some? then at.value else now)
  {
    var s0 := Opened(row, now);
    events, s := Extend(s0, [], s0, Begin(CloseRead(kind, at)), 0);
    assert s.calls == [CloseRead(kind, at)];
    events, s := Extend(s0, events, s, Step(0), 0);
    assert s.calls == [CloseSave(kind, if at.Some? then at.value else now)];
    events, s := Extend(s0, events, s, Step(0), 0);
    assert s.calls == [CacheDelete];
    events, s := Extend(s0, events, s, Step(0), 0);
  }

  lemma TouchAlone(row: Row, at: int, now: int) returns (events: seq<Event>, s: State)
    ensures Run(Opened(row, now), events, 0) == Reached(s) && s.calls == [Finished] && s.cache == None
    ensures s.row == if row.logout.None? then row.(lastActivity := Some(at)) else row
  {
    var s0 := Opened(row, now);
    events, s := Extend(s0, [], s0, Begin(TouchWrite(at)), 0);
    assert s.calls == [TouchWrite(at)];
    events, s := Extend(s0, events, s, Step(0), 0);
    assert s.calls == [CacheDelete];
    events, s := Extend(s0, events, s, Step(0), 0);
  }

  function AfterSweep(row: Row, lifetime: int, now: int): Row {
    if row.logout.Some? || Swept(row, lifetime, now).None? then row else row.(logout := Swept(row, lifetime, now))
  }

  predicate Stale(row: Row, lifetime: int, now: int) {
    row.logout.None? && Swept(row, lifetime, now).Some?
  }

  class LoginAudit {
    var row: Row
    var cache: Option<Loaded>

    /** The cache entry, when there is one, says what the row says. */
    ghost predicate Coherent()
      reads this
    {
      cache.Some? ==> cache.value.closedAs == ClosedAs(row) && cache.value.last == Last(row)
    }

    /** The first close wins; a later one changes nothing. */
    method CloseSession(kind: Kind, at: Option<int>, now: int)
      modifies this
      ensures cache == None
      ensures old(row.logout.Some?) ==> row == old(row)
      ensures old(row.logout.None?) ==>
        row == old(row).(logout := Some(LogoutOf(old(row), kind, if at.Some? then at.value else now)))
    {
      if row.logout.None? {
        var logoutAt := if at.Some? then at.value else now;
        if logoutAt < row.timestamp {
          logoutAt := row.timestamp;
        }
        row := row.(logout := Some(Logout(logoutAt, kind, (logoutAt - row.timestamp) / SECOND)));
      }
      cache := None;
    }

    /** A heartbeat moves the activity of an open session only. */
    method TouchSession(at: int)
      modifies this
      ensures Coherent()
      ensures row == if old(row.logout.None?) then old(row).(lastActivity := Some(at)) else old(row)
    {
      if row.logout.None? {
        row := row.(lastActivity := Some(at));
      }
      cache := None;
    }

    method LoadState(clock: int) returns (state: Loaded)
      ensures state.closedAs == ClosedAs(row) && state.last == Last(row) && state.loadedAt == clock
    {
      var last := row.timestamp;
      if row.lastActivity.Some? {
        last := row.lastActivity.value;
      }
      state := Loaded(if row.logout.Some? then Some(row.logout.value.kind) else None, last, clock, clock);
    }

    /** With or without the cache, a check refuses exactly the sessions that are closed
        or idle, and closes an idle one as of its idle deadline. `claim` is the idle
        timeout the token carries. */
    method ValidateSession(claim: Option<nat>, now: int, clock: int) returns (refused: Option<Kind>)
      requires Coherent()
      modifies this
      ensures Coherent()
      ensures old(row.logout.Some?) ==> refused == old(ClosedAs(row)) && row == old(row)
      ensures old(row.logout.None?) ==> (refused.Some? <==> IdleBeyond(old(row), claim, now))
      ensures old(row.logout.None?) && refused.None? ==> row == old(row) && cache.Some?
      ensures old(row.logout.None?) && refused.Some? ==> refused == ClosedAs(row) == Some(IdleTimeout)
      ensures old(row.logout.None?) && refused.Some? ==>
        && row == old(row).(logout := row.logout) && row.logout.Some?
        && EndsAt(old(row), row.logout.value, SeenLast(old(row)) + claim.value * 1_000_000)
      ensures old(row.logout.None?) && claim == old(row.idle) ==> row.logout == old(Idled(row, now))
    {
      var state: Loaded;
      if cache.Some? && now - cache.value.loadedAt <= TTL {
        state := cache.value;
      } else {
        state := LoadState(clock);
        cache := Some(state);
      }
      if state.closedAs.Some? {
        return state.closedAs;
      }
      if claim.Some? && claim.value > 0 && now - state.last > claim.value * SECOND + GRACE {
        CloseSession(IdleTimeout, Some(state.last + claim.value * SECOND), now);
        return Some(IdleTimeout);
      }
      return None;
    }
  
    /** Only open rows past their lifetime or with an idle limit are looked at, which
        leaves out none that is stale. */
    method SweepRow(lifetime: int, now: int) returns (closed: bool)
      modifies this
      ensures row == old(AfterSweep(row, lifetime, now)) && closed == old(Stale(row, lifetime, now))
    {
      if row.logout.Some? || !(row.timestamp < now - lifetime || row.idle.Some?) {
        return false;
      }
      var expiry := row.timestamp + lifetime;
      var idles := row.idle.Some? && row.idle.value > 0;
      var deadline := if idles then Last(row) + row.idle.value * SECOND else 0;
      if idles && deadline <= expiry && deadline < now - GRACE {
        CloseSession(IdleTimeout, Some(deadline), now);
        return true;
      }
      if expiry < now {
        CloseSession(TokenExpired, Some(expiry), now);
        return true;
      }
      return false;
    }
  }

  /** Every stale session is closed, no other is touched, and a second sweep at the
      same time would find none. */
  method CloseStaleSessions(audits: seq<LoginAudit>, lifetime: int, now: int) returns (closed: nat, ghost swept: set<int>)
    requires forall i, j :: 0 <= i < j < |audits| ==> audits[i] != audits[j]
    modifies audits
    ensures forall i :: 0 <= i < |audits| ==> audits[i].row == old(AfterSweep(audits[i].row, lifetime, now))
    ensures forall i :: 0 <= i < |audits| ==> !Stale(audits[i].row, lifetime, now)
    ensures closed == |swept|
    ensures forall i :: i in swept <==> 0 <= i < |audits| && old(Stale(audits[i].row, lifetime, now))
  {
    closed, swept := 0, {};
    var i := 0;
    while i < |audits|
      invariant i <= |audits| && closed == |swept|
      invariant forall j :: 0 <= j < i ==> audits[j].row == old(AfterSweep(audits[j].row, lifetime, now))
      invariant forall j :: i <= j < |audits| ==> audits[j].row == old(audits[j].row)
      invariant forall j :: j in swept <==> 0 <= j < i && old(Stale(audits[j].row, lifetime, now))
    {
      var stale := audits[i].SweepRow(lifetime, now);
      if stale {
        closed, swept := closed + 1, swept + {i};
      }
      i := i + 1;
    }
  }
}
