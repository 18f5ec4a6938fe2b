/**
 * Concurrent uploads of the same chunk. One request leads and stores it, the
 * others drain their bodies and wait for its outcome. All requests of a
 * connection share one flow-control window (section 5.2 of RFC 9113).
 */
module ChunkFlight {
  import opened ChunkUpload

  // ------------------------------------------------------------------- flights

  datatype Status = Pending | Finished(ok: bool)

  datatype Flight = Flight(key: string, leader: nat, status: Status)

  /** `calls` maps a key to its flight in progress; `flights` also remembers the finished ones. */
  datatype Group = Group(calls: map<string, nat>, flights: map<nat, Flight>, next: nat)

  datatype Role = Leader(flight: nat) | Follower(flight: nat)

  function RoleOf(g: Group, key: string): Role {
    if key in g.calls then Follower(g.calls[key]) else Leader(g.next)
  }

  function Entered(g: Group, key: string, id: nat): Group {
    if key in g.calls then g
    else Group(g.calls[key := g.next], g.flights[g.next := Flight(key, id, Pending)], g.next + 1)
  }

  function Closed(g: Group, key: string, flight: nat, ok: bool): Group
    requires flight in g.flights
  {
    g.(flights := g.flights[flight := g.flights[flight].(status := Finished(ok))],
       calls := if key in g.calls && g.calls[key] == flight then g.calls - {key} else g.calls)
  }

  /** The two critical sections of the group, each under its mutex. */
  class ChunkFlightGroup {
    var calls: map<string, nat>
    var flights: map<nat, Flight>
    var next: nat

    constructor ()
      ensures State() == Group(map[], map[], 0)
    {
      calls, flights, next := map[], map[], 0;
    }

    ghost function State(): Group
      reads this
    {
      Group(calls, flights, next)
    }

    method Enter(key: string, id: nat) returns (role: Role)
      modifies this
      ensures role == RoleOf(old(State()), key) && State() == Entered(old(State()), key, id)
      ensures key in old(calls) ==> role == Follower(old(calls)[key]) && State() == old(State())
      ensures key !in old(calls) ==>
        role.Leader? && calls == old(calls)[key := role.flight] &&
        flights == old(flights)[role.flight := Flight(key, id, Pending)]
    {
      if key in calls {
        return Follower(calls[key]);
      }
      role := Leader(next);
      flights := flights[next := Flight(key, id, Pending)];
      calls := calls[key := next];
      next := next + 1;
    }

    method Finish(key: string, flight: nat, ok: bool)
      requires flight in flights
      modifies this
      ensures State() == Closed(old(State()), key, flight, ok)
      ensures flights == old(flights)[flight := old(flights)[flight].(status := Finished(ok))]
      ensures forall k :: k in calls <==> k in old(calls) && (k != key || old(calls)[k] != flight)
      ensures forall k :: k in calls ==> calls[k] == old(calls)[k]
    {
      flights := flights[flight := flights[flight].(status := Finished(ok))];
      if key in calls && calls[key] == flight {
        calls := calls - {key};
      }
    }
  }

  // ------------------------------------------------------------------ requests

  /** What a leader is doing: the stages of the buffered and of the streamed path. */
  datatype Stage =
    | Reading
    | Checking
    | Uploading
    | CheckingFirst
    | DrainingKnown
    | Streaming
    | Trailing
    | Returning(ok: bool, known: bool)

  datatype Phase =
    | Arrived
    | Leading(flight: nat, stage: Stage)
    | Draining(flight: nat)
    | Waiting(flight: nat)
    | Replied(ok: bool, known: bool)

  /** `unsent` is still with the client, `unread` has arrived, `read` was consumed by the handler. */
  datatype Request = Request(key: string, conn: nat, expected: nat, unsent: nat, unread: nat, read: nat, phase: Phase)

  datatype State = State(
    requests: seq<Request>,
    group: Group,
    stored: set<string>,
    puts: multiset<string>,
    created: multiset<string>,
    clean: bool)

  /** `window`: what may be unread on one connection. `drains`: followers read their body before they wait. */
  datatype Config = Config(window: nat, drains: bool)

  predicate Consumes(r: Request) {
    match r.phase
    case Draining(_) => true
    case Leading(_, stage) =>
      stage.Reading? || stage.DrainingKnown? || stage.Trailing? || (stage.Streaming? && r.read < r.expected)
    case _ => false
  }

  /** Bytes that have arrived on a connection and were not read yet. */
  function Unread(requests: seq<Request>, conn: nat): nat {
    if requests == [] then 0
    else
      var last := requests[|requests| - 1];
      Unread(requests[..|requests| - 1], conn) + (if last.conn == conn then last.unread else 0)
  }

  // -------------------------------------------------------------------- steps

  datatype Step =
    | Enter(id: nat)
    | Send(id: nat)
    | Read(id: nat)
    | EndOfBody(id: nat)
    | Check(id: nat, fails: bool)
    | Put(id: nat, outcome: PutOutcome)
    | Return(id: nat)
    | Wake(id: nat)
    | BodyBreaks(id: nat)
    | Panic(id: nat)
    | Cancel(id: nat)

  /** What only a fault of the client, the network or the store brings about. */
  predicate IsFault(step: Step) {
    step.BodyBreaks? || step.Panic? || step.Cancel?
  }

  predicate Enabled(c: Config, s: State, step: Step) {
    step.id < |s.requests| &&
    var r := s.requests[step.id];
    match step
    case Enter(_) => r.phase.Arrived?
    case Send(_) => !r.phase.Replied? && r.unsent > 0 && Unread(s.requests, r.conn) < c.window
    case Read(_) => Consumes(r) && r.unread > 0
    case EndOfBody(_) => Consumes(r) && r.unread == 0 && r.unsent == 0
    case Check(_, _) => r.phase.Leading? && (r.phase.stage.Checking? || r.phase.stage.CheckingFirst?)
    case Put(_, _) =>
      r.phase.Leading? && (r.phase.stage.Uploading? || (r.phase.stage.Streaming? && r.read == r.expected))
    case Return(_) => r.phase.Leading? && r.phase.stage.Returning? && r.phase.flight in s.group.flights
    case Wake(_) =>
      r.phase.Waiting? && r.phase.flight in s.group.flights && s.group.flights[r.phase.flight].status.Finished?
    case BodyBreaks(_) => Consumes(r)
    case Panic(_) => r.phase.Leading? && !r.phase.stage.Returning?
    case Cancel(_) => r.phase.Waiting?
  }

  /** The server drops what is left of the body once the handler has replied. */
  function Reply(r: Request, ok: bool, known: bool): Request {
    r.(phase := Replied(ok, known), unsent := 0, unread := 0)
  }

  function At(r: Request, stage: Stage): Request
    requires r.phase.Leading?
  {
    r.(phase := Leading(r.phase.flight, stage))
  }

  const FAILED := Returning(false, false)

  /** The body is over: it was as long as announced, or it was not. */
  function AfterBody(r: Request): Request
    requires Consumes(r)
  {
    var whole := r.read == r.expected;
    match r.phase
    case Draining(flight) => if whole then r.(phase := Waiting(flight)) else Reply(r, false, false)
    case Leading(_, stage) =>
      At(r, if !whole then FAILED
            else if stage.Reading? then Checking
            else if stage.DrainingKnown? then Returning(true, true)
            else if stage.Trailing? then Returning(true, false)
            else FAILED)
    case _ => r
  }

  function AfterCheck(r: Request, fails: bool, present: bool): Request
    requires r.phase.Leading?
  {
    At(r, if fails then FAILED
          else if r.phase.stage.Checking? then (if present then Returning(true, true) else Uploading)
          else if present then DrainingKnown else Streaming)
  }

  function AfterPut(r: Request, outcome: PutOutcome): Request
    requires r.phase.Leading?
  {
    At(r, if !outcome.Stored? then FAILED
          else if r.phase.stage.Uploading? then Returning(true, false) else Trailing)
  }

  function Set(s: State, id: nat, r: Request): State
    requires id < |s.requests|
  {
    s.(requests := s.requests[id := r])
  }

  function AfterEnter(c: Config, s: State, id: nat): State
    requires id < |s.requests|
  {
    var r := s.requests[id];
    var phase := match RoleOf(s.group, r.key)
      case Leader(f) => Leading(f, if r.expected <= MAX_BUFFERED then Reading else CheckingFirst)
      case Follower(f) => if c.drains then Draining(f) else Waiting(f);
    Set(s, id, r.(phase := phase)).(group := Entered(s.group, r.key, id))
  }

  function AfterReturn(s: State, id: nat): State
    requires id < |s.requests|
    requires var p := s.requests[id].phase; p.Leading? && p.stage.Returning? && p.flight in s.group.flights
  {
    var r := s.requests[id];
    var ok, known := r.phase.stage.ok, r.phase.stage.known;
    Set(s, id, Reply(r, ok, known)).(
      group := Closed(s.group, r.key, r.phase.flight, ok),
      created := if ok && !known then s.created + multiset{r.key} else s.created)
  }

  function Apply(c: Config, s: State, step: Step): State
    requires Enabled(c, s, step)
  {
    var id := step.id;
    var r := s.requests[id];
    match step
    case Enter(_) => AfterEnter(c, s, id)
    case Send(_) => Set(s, id, r.(unsent := r.unsent - 1, unread := r.unread + 1))
    case Read(_) => Set(s, id, r.(unread := r.unread - 1, read := r.read + 1))
    case EndOfBody(_) => Set(s, id, AfterBody(r)).(clean := s.clean && r.read == r.expected)
    case Check(_, fails) => Set(s, id, AfterCheck(r, fails, r.key in s.stored)).(clean := s.clean && !fails)
    case Put(_, outcome) =>
      Set(s, id, AfterPut(r, outcome)).(
        stored := if outcome.NotStored? then s.stored else s.stored + {r.key},
        puts := s.puts + multiset{r.key}, clean := s.clean && outcome.Stored?)
    case Return(_) => AfterReturn(s, id)
    case Wake(_) =>
      var ok := s.group.flights[r.phase.flight].status.ok;
      Set(s, id, Reply(r, ok, ok))
    case BodyBreaks(_) =>
      Set(s, id, if r.phase.Draining? then Reply(r, false, false) else At(r, FAILED)).(clean := false)
    case Panic(_) => Set(s, id, At(r, FAILED)).(clean := false)
    case Cancel(_) => Set(s, id, Reply(r, false, false)).(clean := false)
  }

  predicate Runs(c: Config, s: State, steps: seq<Step>)
    decreases |steps|
  {
    steps == [] || (Enabled(c, s, steps[0]) && Runs(c, Apply(c, s, steps[0]), steps[1..]))
  }

  function Exec(c: Config, s: State, steps: seq<Step>): State
    requires Runs(c, s, steps)
    decreases |steps|
  {
    if steps == [] then s else Exec(c, Apply(c, s, steps[0]), steps[1..])
  }

  /** Any number of requests, for any chunks, none of which has entered yet. */
  ghost predicate Initial(s: State) {
    && (forall i :: 0 <= i < |s.requests| ==> s.requests[i].phase.Arrived? && s.requests[i].read == 0)
    && s.group.calls == map[] && s.group.flights == map[]
    && s.puts == multiset{} && s.created == multiset{} && s.clean
  }
}
