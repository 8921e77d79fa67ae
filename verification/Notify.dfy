/** The change-notification pipeline: commit, broadcast, event stream, debounce
    timer, refetch.  The channel is bounded and drops its oldest events, the
    timer coalesces, connections come and go, the process crashes and starts again;
    still no final change is missed, except exactly where no request announces it. */
module Notify {
  import opened Schema
  import P = Protocol
  import N = ProtocolNotify
  import U = ProtocolUndisturbed

  type Cid = nat

  const CHANNEL_CAPACITY: nat := 64

  /** A subscriber's receiver: retained events, whether older ones were dropped,
      and events already written to the stream but not yet handled. */
  datatype Queue = Queue(unread: nat, lagged: bool, wire: nat)

  /** `Subscribed` is after `subscribe` on the server and before `onopen` in the browser. */
  datatype Conn = Offline | Subscribed(q: Queue) | Open(q: Queue)

  /** A refetch reads the records and then the attachments. */
  datatype Fetch = Idle | Requested | GotRecords(records: map<Id, Record>) | GotAll(list: Tables)

  /** `shown` is what the visible list was rendered from. */
  datatype Client = Client(conn: Conn, timer: bool, queued: bool, fetch: Fetch, shown: Tables)

  /** `owed` is history: the tables have changed since the last event. */
  datatype System = System(server: P.State, owed: bool, clients: map<Cid, Client>)

  datatype Move =
    | Server(step: P.Step)
    | Load(c: Cid, shown: Tables)   // a page is opened; its list may already be old
    | Connect(c: Cid)
    | StreamOpens(c: Cid)           // onopen
    | Disconnect(c: Cid)
    | ReadChannel(c: Cid)           // the stream takes an event, or the lag marker
    | Deliver(c: Cid)               // data_changed
    | TimerFires(c: Cid)
    | FetchRecords(c: Cid)
    | FetchAttachments(c: Cid)
    | Render(c: Cid)
    | FetchFails(c: Cid)            // the connection is down
    | Close(c: Cid)

  // ----- The moves -----

  function Push(q: Queue): Queue {
    if q.unread < CHANNEL_CAPACITY then q.(unread := q.unread + 1) else q.(lagged := true)
  }

  /** The receiver after `n` events that it has not taken. */
  function PushAll(q: Queue, n: nat): Queue {
    if n == 0 then q else Push(PushAll(q, n - 1))
  }

  /** It keeps 64 events, and the 65th makes it lag. */
  lemma {:induction false} ReceiverKeeps64(n: nat)
    ensures PushAll(Queue(0, false, 0), n) == Queue(if n <= 64 then n else 64, n > 64, 0)
  {
    if n > 0 {
      ReceiverKeeps64(n - 1);
    }
  }

  function Notified(c: Client): Client {
    match c.conn
    case Offline => c
    case Subscribed(q) => c.(conn := Subscribed(Push(q)))
    case Open(q) => c.(conn := Open(Push(q)))
  }

  /** `events.send` reaches every current subscriber. */
  function Broadcast(clients: map<Cid, Client>): map<Cid, Client> {
    map c | c in clients :: Notified(clients[c])
  }

  /** The refresh event: refetches are serialised, so one asked for during another waits. */
  function Dispatch(c: Client): Client {
    if c.fetch.Idle? then c.(fetch := Requested) else c.(queued := true)
  }

  /** A refetch is over; the one that waited behind it is next. */
  function FetchOver(c: Client): Client {
    c.(fetch := if c.queued then Requested else Idle, queued := false)
  }

  predicate Fetching(c: Client) {
    c.fetch.Requested? || c.fetch.GotRecords?
  }

  /** A crash cuts the stream and the refetch that the server is working on. */
  function CutOff(c: Client): Client {
    if Fetching(c) then FetchOver(c.(conn := Offline)) else c.(conn := Offline)
  }

  function CutAll(clients: map<Cid, Client>): map<Cid, Client> {
    map c | c in clients :: CutOff(clients[c])
  }

  predicate Has(s: System, c: Cid) {
    c in s.clients
  }

  ghost predicate Enabled(s: System, m: Move) {
    match m
    case Server(st) => P.Enabled(s.server, st)
    case Load(c, _) => !Has(s, c)
    case Connect(c) => Has(s, c) && s.clients[c].conn.Offline? && s.server.phase.Serving?
    case StreamOpens(c) => Has(s, c) && s.clients[c].conn.Subscribed?
    case Disconnect(c) => Has(s, c)
    case ReadChannel(c) =>
      Has(s, c) && !s.clients[c].conn.Offline? && (s.clients[c].conn.q.lagged || s.clients[c].conn.q.unread > 0)
    case Deliver(c) => Has(s, c) && s.clients[c].conn.Open? && s.clients[c].conn.q.wire > 0
    case TimerFires(c) => Has(s, c) && s.clients[c].timer
    case FetchRecords(c) => Has(s, c) && s.clients[c].fetch.Requested? && s.server.phase.Serving?
    case FetchAttachments(c) => Has(s, c) && s.clients[c].fetch.GotRecords? && s.server.phase.Serving?
    case Render(c) => Has(s, c) && s.clients[c].fetch.GotAll?
    case FetchFails(c) => Has(s, c) && Fetching(s.clients[c]) && s.clients[c].conn.Offline?
    case Close(c) => Has(s, c)
  }

  function Taken(q: Queue): Queue
    requires q.lagged || q.unread > 0
  {
    if q.lagged then q.(lagged := false, wire := q.wire + 1)
    else q.(unread := q.unread - 1, wire := q.wire + 1)
  }

  /** What a move of its own does to a client. */
  function Moved(c: Client, m: Move, t: Tables): Client
    requires m.ReadChannel? ==> !c.conn.Offline? && (c.conn.q.lagged || c.conn.q.unread > 0)
    requires m.Deliver? ==> c.conn.Open? && c.conn.q.wire > 0
    requires m.StreamOpens? ==> c.conn.Subscribed?
    requires m.FetchAttachments? ==> c.fetch.GotRecords?
    requires m.Render? ==> c.fetch.GotAll?
  {
    match m
    case Connect(_) => c.(conn := Subscribed(Queue(0, false, 0)))
    case StreamOpens(_) => Dispatch(c.(conn := Open(c.conn.q)))
    case Disconnect(_) => c.(conn := Offline)
    case ReadChannel(_) =>
      if c.conn.Subscribed? then c.(conn := Subscribed(Taken(c.conn.q))) else c.(conn := Open(Taken(c.conn.q)))
    case Deliver(_) => c.(conn := Open(c.conn.q.(wire := c.conn.q.wire - 1)), timer := true)
    case TimerFires(_) => Dispatch(c.(timer := false))
    case FetchRecords(_) => c.(fetch := GotRecords(t.records))
    case FetchAttachments(_) => c.(fetch := GotAll(Tables(c.fetch.records, t.attachments)))
    case Render(_) => FetchOver(c.(shown := c.fetch.list))
    case FetchFails(_) => FetchOver(c)
    case _ => c
  }

  ghost function Next(s: System, m: Move): System
    requires Enabled(s, m)
  {
    match m
    case Server(st) =>
      System(P.Next(s.server, st), N.Owes(s.server, s.owed, st),
             if st.Send? then Broadcast(s.clients) else if st.Crash? then CutAll(s.clients) else s.clients)
    case Load(c, shown) => s.(clients := s.clients[c := Client(Offline, false, false, Idle, shown)])
    case Close(c) => s.(clients := s.clients - {c})
    case _ => s.(clients := s.clients[m.c := Moved(s.clients[m.c], m, s.server.tables)])
  }

  // ----- What every move keeps -----

  /** Something other than the current refetch will make the client fetch again. */
  predicate WillRefetch(c: Client) {
    c.queued || c.timer || c.conn.Subscribed?
    || (c.conn.Open? && (c.conn.q.unread > 0 || c.conn.q.lagged || c.conn.q.wire > 0))
  }

  /** A connected client that shows, or is about to show, something old has a
      refresh coming, or an event for the change is still owed. */
  predicate Covered(c: Client, t: Tables, owed: bool) {
    !c.conn.Offline? && !owed && !WillRefetch(c) ==>
      && (c.shown != t ==> !c.fetch.Idle?)
      && (c.fetch.GotRecords? ==> c.fetch.records == t.records)
      && (c.fetch.GotAll? ==> c.fetch.list == t)
  }

  ghost predicate Inv(s: System) {
    forall c :: c in s.clients ==> Covered(s.clients[c], s.server.tables, s.owed)
  }

  lemma {:induction false} MovedCovered(c: Client, m: Move, t: Tables, owed: bool)
    requires Moved.requires(c, m, t) && Covered(c, t, owed)
    requires m.FetchFails? ==> c.conn.Offline?
    ensures Covered(Moved(c, m, t), t, owed)
  {
    assert m.FetchAttachments? && c.fetch.records == t.records ==> Tables(c.fetch.records, t.attachments) == t;
  }

  lemma {:induction false} ServerStepInv(s: System, st: P.Step)
    requires Inv(s) && Enabled(s, Server(st))
    ensures Inv(Next(s, Server(st)))
  {
    var s' := Next(s, Server(st));
    forall c | c in s'.clients ensures Covered(s'.clients[c], s'.server.tables, s'.owed) {
      assert Covered(s.clients[c], s.server.tables, s.owed);
    }
  }

  /** Every move keeps every client covered: whatever the server does, fails to do or
      crashes in, and whatever happens to the connections. */
  lemma {:induction false} StepInv(s: System, m: Move)
    requires Inv(s) && Enabled(s, m)
    ensures Inv(Next(s, m))
  {
    match m
    case Server(st) => ServerStepInv(s, st);
    case Load(_, _) =>
    case Close(_) =>
    case _ => MovedCovered(s.clients[m.c], m, s.server.tables, s.owed);
  }

  ghost predicate Init(s: System) {
    P.Init(s.server) && !s.owed && s.clients == map[]
  }

  ghost predicate Run(s: System, moves: seq<Move>)
    decreases |moves|
  {
    moves == [] || (Enabled(s, moves[0]) && Run(Next(s, moves[0]), moves[1..]))
  }

  ghost function After(s: System, moves: seq<Move>): System
    requires Run(s, moves)
    decreases |moves|
  {
    if moves == [] then s else After(Next(s, moves[0]), moves[1..])
  }

  lemma {:induction false} RunInv(s: System, moves: seq<Move>)
    requires Inv(s) && Run(s, moves)
    ensures Inv(After(s, moves))
    decreases |moves|
  {
    if moves != [] {
      StepInv(s, moves[0]);
      RunInv(Next(s, moves[0]), moves[1..]);
    }
  }

  /** The server's part of a run. */
  function ServerSteps(moves: seq<Move>): seq<P.Step> {
    if moves == [] then []
    else (if moves[0].Server? then [moves[0].step] else []) + ServerSteps(moves[1..])
  }

  /** Clients do not disturb the server. */
  lemma {:induction false} ServerRuns(s: System, moves: seq<Move>)
    requires Run(s, moves)
    ensures P.Run(s.server, ServerSteps(moves))
    ensures After(s, moves).server == P.After(s.server, ServerSteps(moves))
    ensures After(s, moves).owed == N.OwesAfter(s.server, s.owed, ServerSteps(moves))
    decreases |moves|
  {
    if moves != [] {
      ServerRuns(Next(s, moves[0]), moves[1..]);
      if moves[0].Server? {
        assert ServerSteps(moves)[1..] == ServerSteps(moves[1..]);
      } else {
        assert ServerSteps(moves) == ServerSteps(moves[1..]);
      }
    }
  }

  // ----- No lost refresh -----

  /** Whatever fails: a connected client whose list is older than the database has a refresh
      coming, or the tables have changed since the last event. */
  lemma {:induction false} StaleIsCovered(s: System, moves: seq<Move>, c: Cid)
    requires Init(s) && Run(s, moves)
    requires c in After(s, moves).clients
    ensures var s' := After(s, moves);
            var b := s'.clients[c];
            !b.conn.Offline? && b.shown != s'.server.tables ==> s'.owed || WillRefetch(b) || !b.fetch.Idle?
  {
    RunInv(s, moves);
    var s' := After(s, moves);
    assert Covered(s'.clients[c], s'.server.tables, s'.owed);
  }

  /** Whenever a connected client's list is older than the database, a request is
      between its commit and its event, or an event or lag marker is unread or on
      the wire, or the stream has yet to open, or the timer is armed, or a refetch
      is outstanding or queued.  This holds after every run, with crashes, restarts, drops
      and errors, unless a step lost a change and no commit and no crash came after it. */
  lemma {:induction false} NoLostRefresh(s: System, moves: seq<Move>, c: Cid)
    requires Init(s) && Run(s, moves) && P.Run(s.server, ServerSteps(moves))
    requires !N.LosesAfter(s.server, false, false, ServerSteps(moves))
    requires c in After(s, moves).clients
    ensures var s' := After(s, moves);
            var b := s'.clients[c];
            !b.conn.Offline? && b.shown != s'.server.tables ==>
              N.Pledged(s'.server) || WillRefetch(b) || !b.fetch.Idle?
  {
    StaleIsCovered(s, moves, c);
    ServerRuns(s, moves);
    N.RunLosesExactly(s.server, false, ServerSteps(moves));
  }

  /** Connected, with nothing left to do. */
  predicate Quiet(c: Client) {
    c.conn == Open(Queue(0, false, 0)) && !c.timer && !c.queued && c.fetch.Idle?
  }

  /** So once no request has an event to send and a client has nothing left to do, it
      shows the database as it is. */
  lemma {:induction false} IdleClientsAreUpToDate(s: System, moves: seq<Move>, c: Cid)
    requires Init(s) && Run(s, moves) && P.Run(s.server, ServerSteps(moves))
    requires !N.LosesAfter(s.server, false, false, ServerSteps(moves))
    requires c in After(s, moves).clients && Quiet(After(s, moves).clients[c])
    requires !N.Pledged(After(s, moves).server)
    ensures After(s, moves).clients[c].shown == After(s, moves).server.tables
  {
    NoLostRefresh(s, moves, c);
  }

  // ----- Without database errors and dropped requests -----

  /** In particular no refresh is lost in a run without database errors after a commit and
      without requests dropped there, whatever deletions and rows refused by the foreign key
      interleave, and across crashes and restarts. */
  lemma {:induction false} UndisturbedNoLostRefresh(s: System, moves: seq<Move>, c: Cid)
    requires Init(s) && Run(s, moves) && P.Run(s.server, ServerSteps(moves))
    requires U.UndisturbedRun(s.server, ServerSteps(moves))
    requires c in After(s, moves).clients
    ensures var s' := After(s, moves);
            var b := s'.clients[c];
            !b.conn.Offline? && b.shown != s'.server.tables ==>
              N.Pledged(s'.server) || WillRefetch(b) || !b.fetch.Idle?
  {
    U.UndisturbedRunsLoseNothing(s.server, ServerSteps(moves));
    NoLostRefresh(s, moves, c);
  }

  /** So when such a run has come to rest, every client that has nothing left to do shows the
      database as it is. */
  lemma {:induction false} UndisturbedClientsAreUpToDate(s: System, moves: seq<Move>, c: Cid)
    requires Init(s) && Run(s, moves) && P.Run(s.server, ServerSteps(moves))
    requires U.UndisturbedRun(s.server, ServerSteps(moves))
    requires c in After(s, moves).clients && Quiet(After(s, moves).clients[c])
    requires After(s, moves).server.handlers == map[]
    ensures After(s, moves).clients[c].shown == After(s, moves).server.tables
  {
    UndisturbedNoLostRefresh(s, moves, c);
  }

  // ----- Exactly when a client can miss a change -----

  /** Moves with these server steps leave a quiet client with an old list. */
  ghost predicate Misses(s: System, steps: seq<P.Step>, moves: seq<Move>, c: Cid) {
    && Run(s, moves) && ServerSteps(moves) == steps
    && c in After(s, moves).clients && Quiet(After(s, moves).clients[c])
    && After(s, moves).clients[c].shown != After(s, moves).server.tables
  }

  /** The same, with the list that the client shows in the end. */
  ghost predicate Keeps(s: System, steps: seq<P.Step>, moves: seq<Move>, c: Cid, shown: Tables) {
    Misses(s, steps, moves, c) && After(s, moves).clients[c].shown == shown
  }

  lemma {:induction false} Extend(s: System, m: Move, moves: seq<Move>)
    requires Enabled(s, m) && Run(Next(s, m), moves)
    ensures Run(s, [m] + moves) && After(s, [m] + moves) == After(Next(s, m), moves)
    ensures ServerSteps([m] + moves) == (if m.Server? then [m.step] else []) + ServerSteps(moves)
  {
    assert ([m] + moves)[1..] == moves;
  }

  lemma {:induction false} Prepend(s: System, m: Move, steps: seq<P.Step>, moves: seq<Move>, c: Cid, shown: Tables)
    requires Enabled(s, m) && Keeps(Next(s, m), steps, moves, c, shown)
    ensures Keeps(s, (if m.Server? then [m.step] else []) + steps, [m] + moves, c, shown)
  {
    Extend(s, m, moves);
  }

  function ServerMoves(steps: seq<P.Step>): seq<Move> {
    if steps == [] then [] else [Server(steps[0])] + ServerMoves(steps[1..])
  }

  /** Steps that neither change the tables nor send nor crash leave the clients alone. */
  lemma {:induction false} NothingHappens(s: System, steps: seq<P.Step>)
    requires P.Run(s.server, steps)
    requires N.OwesAfter(s.server, true, steps) && !N.OwesAfter(s.server, false, steps)
    ensures Run(s, ServerMoves(steps)) && ServerSteps(ServerMoves(steps)) == steps
    ensures After(s, ServerMoves(steps)).clients == s.clients
    ensures After(s, ServerMoves(steps)).server.tables == s.server.tables
    decreases |steps|
  {
    if steps != [] {
      var s1 := Next(s, Server(steps[0]));
      NothingHappens(s1, steps[1..]);
      Extend(s, Server(steps[0]), ServerMoves(steps[1..]));
    }
  }

  /** The first step changes the tables, and nothing happens after it. */
  ghost predicate ChangesFirst(s: P.State, steps: seq<P.Step>) {
    && P.Run(s, steps) && steps != [] && !steps[0].Send? && !steps[0].Crash?
    && P.Next(s, steps[0]).tables != s.tables
    && N.OwesAfter(P.Next(s, steps[0]), true, steps[1..])
    && !N.OwesAfter(P.Next(s, steps[0]), false, steps[1..])
  }

  /** A quiet client with the current list is out of date after a change that no event follows. */
  lemma {:induction false} Unnoticed(s: System, steps: seq<P.Step>, c: Cid)
    requires c in s.clients && Quiet(s.clients[c]) && s.clients[c].shown == s.server.tables
    requires ChangesFirst(s.server, steps)
    ensures Keeps(s, steps, ServerMoves(steps), c, s.server.tables)
  {
    var s1 := Next(s, Server(steps[0]));
    NothingHappens(s1, steps[1..]);
    Extend(s, Server(steps[0]), ServerMoves(steps[1..]));
  }

  /** The system with a single client. */
  function With(s: System, b: Client): System {
    s.(clients := map[0 := b])
  }

  /** A move of the single client before the moves given. */
  lemma {:induction false} MoveFirst(s: System, b: Client, m: Move, steps: seq<P.Step>, moves: seq<Move>, shown: Tables)
    requires !m.Server? && !m.Load? && !m.Close? && m.c == 0 && Enabled(With(s, b), m)
    requires Keeps(With(s, Moved(b, m, s.server.tables)), steps, moves, 0, shown)
    ensures Keeps(With(s, b), steps, [m] + moves, 0, shown)
  {
    assert Next(With(s, b), m) == With(s, Moved(b, m, s.server.tables));
    Extend(With(s, b), m, moves);
  }

  /** A connected client with the current list whose refetch stands here. */
  function Connected(s: System, fetch: Fetch): Client {
    Client(Open(Queue(0, false, 0)), false, false, fetch, s.server.tables)
  }

  lemma {:induction false} Fetches(s: System, steps: seq<P.Step>, moves: seq<Move>, shown: Tables)
    returns (all: seq<Move>)
    requires s.clients == map[] && s.server.phase.Serving?
    requires Keeps(With(s, Connected(s, Idle)), steps, moves, 0, shown)
    ensures Keeps(With(s, Connected(s, Requested)), steps, all, 0, shown)
  {
    var t := s.server.tables;
    all := [Render(0)] + moves;
    MoveFirst(s, Connected(s, GotAll(t)), Render(0), steps, moves, shown);
    MoveFirst(s, Connected(s, GotRecords(t.records)), FetchAttachments(0), steps, all, shown);
    all := [FetchAttachments(0)] + all;
    MoveFirst(s, Connected(s, Requested), FetchRecords(0), steps, all, shown);
    all := [FetchRecords(0)] + all;
  }

  /** A client can connect and fetch the list just before the tables change. */
  lemma {:induction false} Watcher(s: System, steps: seq<P.Step>, moves: seq<Move>, shown: Tables)
    returns (all: seq<Move>)
    requires s.clients == map[] && s.server.phase.Serving?
    requires Keeps(With(s, Connected(s, Idle)), steps, moves, 0, shown)
    ensures Keeps(s, steps, all, 0, shown)
  {
    var t := s.server.tables;
    all := Fetches(s, steps, moves, shown);
    MoveFirst(s, Client(Subscribed(Queue(0, false, 0)), false, false, Idle, t), StreamOpens(0), steps, all, shown);
    all := [StreamOpens(0)] + all;
    MoveFirst(s, Client(Offline, false, false, Idle, t), Connect(0), steps, all, shown);
    all := [Connect(0)] + all;
    assert Next(s, Load(0, t)) == With(s, Client(Offline, false, false, Idle, t));
    Extend(s, Load(0, t), all);
    all := [Load(0, t)] + all;
  }

  lemma {:induction false} ChangesWhileServing(s: P.State, st: P.Step)
    requires P.Enabled(s, st) && P.Next(s, st).tables != s.tables
    ensures s.phase.Serving?
  {
  }

  /** A client that fetches the list just before the last change keeps it. */
  lemma {:induction false} MissesLast(s: System, steps: seq<P.Step>) returns (moves: seq<Move>)
    requires s.clients == map[] && ChangesFirst(s.server, steps)
    ensures Keeps(s, steps, moves, 0, s.server.tables)
  {
    ChangesWhileServing(s.server, steps[0]);
    var b := Connected(s, Idle);
    Unnoticed(With(s, b), steps, 0);
    moves := Watcher(s, steps, ServerMoves(steps), s.server.tables);
  }

  /** The server runs while no page is open. */
  lemma {:induction false} NobodyThere(s: System, a: seq<P.Step>)
    requires s.clients == map[] && P.Run(s.server, a)
    ensures Run(s, ServerMoves(a)) && After(s, ServerMoves(a)).clients == map[]
    ensures After(s, ServerMoves(a)).server == P.After(s.server, a)
    decreases |a|
  {
    if a != [] {
      NobodyThere(Next(s, Server(a[0])), a[1..]);
      Extend(s, Server(a[0]), ServerMoves(a[1..]));
    }
  }

  lemma {:induction false} PrependAll(s: System, a: seq<P.Step>, steps: seq<P.Step>, moves: seq<Move>,
                                      c: Cid, shown: Tables)
    requires Run(s, ServerMoves(a)) && Keeps(After(s, ServerMoves(a)), steps, moves, c, shown)
    ensures Keeps(s, a + steps, ServerMoves(a) + moves, c, shown)
    decreases |a|
  {
    if a == [] {
      assert a + steps == steps && ServerMoves(a) + moves == moves;
    } else {
      var m := Server(a[0]);
      assert ServerMoves(a)[1..] == ServerMoves(a[1..]);
      PrependAll(Next(s, m), a[1..], steps, moves, c, shown);
      Prepend(s, m, a[1..] + steps, ServerMoves(a[1..]) + moves, c, shown);
      assert [a[0]] + (a[1..] + steps) == a + steps;
      assert [m] + (ServerMoves(a[1..]) + moves) == ServerMoves(a) + moves;
    }
  }

  /** So it does after any run of the server. */
  lemma {:induction false} MissesLastOf(s: System, a: seq<P.Step>, steps: seq<P.Step>) returns (moves: seq<Move>)
    requires s.clients == map[] && P.Run(s.server, a) && ChangesFirst(P.After(s.server, a), steps)
    ensures Keeps(s, a + steps, moves, 0, P.After(s.server, a).tables)
  {
    NobodyThere(s, a);
    moves := MissesLast(After(s, ServerMoves(a)), steps);
    PrependAll(s, a, steps, moves, 0, P.After(s.server, a).tables);
    moves := ServerMoves(a) + moves;
  }

  lemma {:induction false} CanMiss(s: System, steps: seq<P.Step>) returns (moves: seq<Move>, shown: Tables)
    requires s.clients == map[] && P.Run(s.server, steps) && N.OwesAfter(s.server, false, steps)
    ensures Keeps(s, steps, moves, 0, shown)
    decreases |steps|
  {
    var st, rest := steps[0], steps[1..];
    var s1 := Next(s, Server(st));
    if N.OwesAfter(s1.server, false, rest) {
      moves, shown := CanMiss(s1, rest);
      Prepend(s, Server(st), rest, moves, 0, shown);
      moves := [Server(st)] + moves;
      assert [st] + rest == steps;
    } else {
      moves := MissesLast(s, steps);
      shown := s.server.tables;
    }
  }

  /** A quiet client can be left with an old list if and only if the server's run ends with
      a change of the tables after its last event and its last crash. */
  lemma {:induction false} MissedExactly(s: System, steps: seq<P.Step>)
    requires Init(s) && P.Run(s.server, steps)
    ensures N.OwesAfter(s.server, false, steps) <==> exists moves, c :: Misses(s, steps, moves, c)
  {
    if N.OwesAfter(s.server, false, steps) {
      var moves, shown := CanMiss(s, steps);
    }
    if exists moves, c :: Misses(s, steps, moves, c) {
      var moves, c :| Misses(s, steps, moves, c);
      StaleIsCovered(s, moves, c);
      ServerRuns(s, moves);
    }
  }

  /** When no request has an event left to send, this is for good, and it is so if and only if
      a step lost a change (a silent exit with nobody else to announce it) and no commit and
      no crash came after it. */
  lemma {:induction false} MissedForGoodExactly(s: System, steps: seq<P.Step>)
    requires Init(s) && P.Run(s.server, steps) && !N.Pledged(P.After(s.server, steps))
    ensures (exists moves, c :: Misses(s, steps, moves, c)) <==> N.LosesAfter(s.server, false, false, steps)
  {
    MissedExactly(s, steps);
    N.RunLosesExactly(s.server, false, steps);
  }
}
