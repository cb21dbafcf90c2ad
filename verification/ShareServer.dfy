/**
 The temporary baseline-sharing server as a concurrent step system.

 Every request handler is a small program: it arrives, runs its gates, takes a
 ticket from one atomic counter, writes its response, and finishes. Every call
 of Close is another: it enters a sync.Once, shuts the HTTP server down, closes
 the listener, closes the done channel, and returns. A TTL goroutine and any
 number of outside callers may launch a Close at any moment. One Action is one
 atomic step of one of these programs, and an interleaving is any sequence of
 enabled actions.
 */
module ShareServer {
  import opened Prelude
  import Decimal

  type Bytes = seq<bv8>

  const RESOLVE_PATH: Bytes := [0x2F, 0x72, 0x65, 0x73, 0x6F, 0x6C, 0x76, 0x65]
  const TOKEN_PATH_PREFIX: Bytes := [0x2F, 0x62, 0x61, 0x73, 0x65, 0x6C, 0x69, 0x6E, 0x65, 0x2F]
  const MAX_BASELINE_BYTES: nat := 0x10_0000
  const DEFAULT_TTL_SECONDS: nat := 600
  const DEFAULT_MAX_DOWNLOADS: nat := 20

  // ------------------------------------------------------------- requests

  /** What the handlers read of a request. */
  datatype Request = Request(get: bool, path: Bytes, contentLength: int, code: Bytes)

  datatype Response = NotFound | UploadRejected | Forbidden | Gone | Baseline | ResolvedUrl

  /** The options as the caller gives them; zero or negative means "use the default". */
  datatype Options = Options(ttlSeconds: int, maxDownloads: int, pairingCode: Bytes, unsafeHttp: bool)

  /** What the system answers at the start: random bytes, a listener, and a certificate when one is wanted. */
  datatype Startup = Startup(token: Result<Bytes>, bindError: Option<string>, certError: Option<string>)

  /** The options in force, with the random token already part of the path. */
  datatype Config = Config(ttlSeconds: nat, maxDownloads: nat, path: Bytes, pairingCode: Bytes)
  {
    ghost predicate Valid() { ttlSeconds > 0 && maxDownloads > 0 && path != RESOLVE_PATH }
  }

  function TooLarge(n: nat): string { "baseline too large (" + Decimal.FormatNat(n) + " bytes, max 1048576)" }

  /** The first thing that goes wrong before the server serves, in the order the steps are taken. */
  function StartError(baselineBytes: nat, opts: Options, up: Startup): Option<string> {
    if baselineBytes == 0 then Some("baseline is empty")
    else if baselineBytes > MAX_BASELINE_BYTES then Some(TooLarge(baselineBytes))
    else if up.token.Err? then Some(up.token.message)
    else if up.bindError.Some? then up.bindError
    else if opts.unsafeHttp then None
    else up.certError
  }

  function Configure(baselineBytes: nat, opts: Options, up: Startup): (r: Result<Config>)
    ensures r.Ok? <==>
              && 0 < baselineBytes <= 1024 * 1024
              && up.token.Ok? && up.bindError.None? && (opts.unsafeHttp || up.certError.None?)
    ensures r.Ok? ==> r.value.Valid()
    ensures r.Ok? && opts.maxDownloads > 0 ==> r.value.maxDownloads == opts.maxDownloads
    ensures r.Ok? && opts.ttlSeconds > 0 ==> r.value.ttlSeconds == opts.ttlSeconds
    ensures r.Ok? && opts.maxDownloads <= 0 ==> r.value.maxDownloads == 20
    ensures r.Ok? && opts.ttlSeconds <= 0 ==> r.value.ttlSeconds == 10 * 60
    ensures baselineBytes == 0 ==> r == Err("baseline is empty")
    ensures baselineBytes > 1024 * 1024 ==>
              r == Err("baseline too large (" + Decimal.FormatNat(baselineBytes) + " bytes, max 1048576)")
    ensures r.Ok? ==> r.value.path == TOKEN_PATH_PREFIX + up.token.value && r.value.pairingCode == opts.pairingCode
  {
    match StartError(baselineBytes, opts, up)
    case Some(e) => Err(e)
    case None =>
      assert (TOKEN_PATH_PREFIX + up.token.value)[1] == 0x62 && RESOLVE_PATH[1] == 0x72;
      Ok(Config(
           if opts.ttlSeconds <= 0 then DEFAULT_TTL_SECONDS else opts.ttlSeconds,
           if opts.maxDownloads <= 0 then DEFAULT_MAX_DOWNLOADS else opts.maxDownloads,
           TOKEN_PATH_PREFIX + up.token.value,
           opts.pairingCode))
  }

  /** The comparison of pairing codes: it always reads every byte. */
  method ConstantTimeEqual(a: Bytes, b: Bytes) returns (equal: bool)
    ensures equal <==> a == b
  {
    if |a| != |b| {
      return false;
    }
    var diff: bv8 := 0;
    for i := 0 to |a|
      invariant diff == 0 <==> a[..i] == b[..i]
    {
      OrXorIsZero(diff, a[i], b[i]);
      diff := diff | (a[i] ^ b[i]);
      assert a[..i + 1] == a[..i] + [a[i]] && b[..i + 1] == b[..i] + [b[i]];
    }
    assert a[..|a|] == a && b[..|b|] == b;
    return diff == 0;
  }

  lemma OrXorIsZero(d: bv8, x: bv8, y: bv8)
    ensures d | (x ^ y) == 0 <==> d == 0 && x == y
  {
  }

  /** The checks before the ticket; Some(response) means the request ends here. */
  function Gate(cfg: Config, req: Request): Option<Response> {
    if req.path == RESOLVE_PATH then
      Some(if !req.get then NotFound
           else if req.contentLength > 0 then UploadRejected
           else if cfg.pairingCode != [] && req.code != cfg.pairingCode then Forbidden
           else ResolvedUrl)
    else if !req.get || req.path != cfg.path then Some(NotFound)
    else if req.contentLength > 0 then Some(UploadRejected)
    else if cfg.pairingCode != [] && req.code != cfg.pairingCode then Some(Forbidden)
    else None
  }

  /** What a caller must present to be allowed near the baseline. */
  ghost predicate Authorised(cfg: Config, req: Request) {
    && req.get
    && req.path == cfg.path
    && req.contentLength <= 0
    && (cfg.pairingCode == [] || req.code == cfg.pairingCode)
  }

  ghost predicate CodeAccepted(cfg: Config, req: Request) { cfg.pairingCode == [] || req.code == cfg.pairingCode }

  /** Each answer before the ticket, by exactly the requests that get it; only the authorised pass. */
  lemma GateAnswers(cfg: Config, req: Request)
    requires cfg.Valid()
    ensures Gate(cfg, req) == None <==> Authorised(cfg, req)
    ensures Gate(cfg, req) == Some(ResolvedUrl) <==>
              req.path == RESOLVE_PATH && req.get && req.contentLength <= 0 && CodeAccepted(cfg, req)
    ensures Gate(cfg, req) == Some(NotFound) <==> !req.get || (req.path != RESOLVE_PATH && req.path != cfg.path)
    ensures var known := req.get && (req.path == RESOLVE_PATH || req.path == cfg.path);
      && (Gate(cfg, req) == Some(UploadRejected) <==> known && req.contentLength > 0)
      && (Gate(cfg, req) == Some(Forbidden) <==> known && req.contentLength <= 0 && !CodeAccepted(cfg, req))
    ensures Gate(cfg, req) != Some(Baseline) && Gate(cfg, req) != Some(Gone)
  {
  }

  // ----------------------------------------------------------------- state

  datatype Handler =
    | Arrived(req: Request)
    | Passed(req: Request)
    | Ticketed(req: Request, n: nat)
    | Responded(req: Request, n: nat)
    | Finished(req: Request, ticket: Option<nat>, response: Response)

  datatype Origin = FromHandler(i: nat) | FromTtl | FromCaller

  datatype ClosePc = Called | ShuttingDown | Unlistening | Signalling | Leaving | Returned

  datatype Closer = Closer(origin: Origin, pc: ClosePc)

  datatype Once = Fresh | Running(owner: nat) | Over

  datatype Ttl = Armed | Fired | Exited

  datatype State = State(
    downloads: nat,
    handlers: seq<Handler>,
    closers: seq<Closer>,
    once: Once,
    shutdownDone: bool,
    listenerClosed: bool,
    doneCloses: nat,
    ttl: Ttl,
    waitReturned: bool)

  const INITIAL := State(0, [], [], Fresh, false, false, 0, Armed, false)

  datatype Action =
    | Idle
    | Arrive(req: Request)
    | PassGates(i: nat)
    | TakeTicket(i: nat)
    | Write(i: nat)
    | Finish(i: nat)
    | CallClose
    | TtlExpire
    | TtlNoticeDone
    | EnterOnce(c: nat)
    | ReturnFromShutdown(c: nat)
    | CloseListener(c: nat)
    | CloseDone(c: nat)
    | LeaveOnce(c: nat)
    | SkipOnce(c: nat)
    | WaitReturn

  predicate HandlerAt(s: State, i: nat) { i < |s.handlers| }

  predicate CloserAt(s: State, c: nat, pc: ClosePc) { c < |s.closers| && s.closers[c].pc == pc }

  predicate Enabled(s: State, a: Action) {
    match a
    case Idle => true
    case Arrive(_) => true
    case PassGates(i) => HandlerAt(s, i) && s.handlers[i].Arrived?
    case TakeTicket(i) => HandlerAt(s, i) && s.handlers[i].Passed?
    case Write(i) => HandlerAt(s, i) && s.handlers[i].Ticketed?
    case Finish(i) => HandlerAt(s, i) && s.handlers[i].Responded?
    case CallClose => true
    case TtlExpire => s.ttl == Armed
    case TtlNoticeDone => s.ttl == Armed && s.doneCloses > 0
    case EnterOnce(c) => CloserAt(s, c, Called) && s.once == Fresh
    case ReturnFromShutdown(c) => CloserAt(s, c, ShuttingDown)
    case CloseListener(c) => CloserAt(s, c, Unlistening)
    case CloseDone(c) => CloserAt(s, c, Signalling)
    case LeaveOnce(c) => CloserAt(s, c, Leaving)
    case SkipOnce(c) => CloserAt(s, c, Called) && s.once == Over
    case WaitReturn => s.doneCloses > 0
  }

  /** The response a ticket buys. */
  function Verdict(cfg: Config, n: nat): Response {
    if n > cfg.maxDownloads then Gone else Baseline
  }

  function Spawn(s: State, origin: Origin): State {
    s.(closers := s.closers + [Closer(origin, Called)])
  }

  function Advance(s: State, c: nat, pc: ClosePc): State
    requires c < |s.closers|
  {
    s.(closers := s.closers[c := s.closers[c].(pc := pc)])
  }

  function Apply(cfg: Config, s: State, a: Action): State
    requires Enabled(s, a)
  {
    match a
    case Idle => s
    case Arrive(req) => s.(handlers := s.handlers + [Arrived(req)])
    case PassGates(i) =>
      var req := s.handlers[i].req;
      var next := match Gate(cfg, req)
        case Some(response) => Finished(req, None, response)
        case None => Passed(req);
      s.(handlers := s.handlers[i := next])
    case TakeTicket(i) =>
      var n := s.downloads + 1;
      s.(downloads := n, handlers := s.handlers[i := Ticketed(s.handlers[i].req, n)])
    case Write(i) =>
      var h := s.handlers[i];
      s.(handlers := s.handlers[i := Responded(h.req, h.n)])
    case Finish(i) =>
      var h := s.handlers[i];
      var s' := s.(handlers := s.handlers[i := Finished(h.req, Some(h.n), Verdict(cfg, h.n))]);
      if h.n >= cfg.maxDownloads then Spawn(s', FromHandler(i)) else s'
    case CallClose => Spawn(s, FromCaller)
    case TtlExpire => Spawn(s.(ttl := Fired), FromTtl)
    case TtlNoticeDone => s.(ttl := Exited)
    case EnterOnce(c) => Advance(s, c, ShuttingDown).(once := Running(c))
    case ReturnFromShutdown(c) => Advance(s, c, Unlistening).(shutdownDone := true)
    case CloseListener(c) => Advance(s, c, Signalling).(listenerClosed := true)
    case CloseDone(c) => Advance(s, c, Leaving).(doneCloses := s.doneCloses + 1)
    case LeaveOnce(c) => Advance(s, c, Returned).(once := Over)
    case SkipOnce(c) => Advance(s, c, Returned)
    case WaitReturn => s.(waitReturned := true)
  }

  // --------------------------------------------------------------- tickets

  function TicketOf(h: Handler): Option<nat> {
    match h
    case Ticketed(_, n) => Some(n)
    case Responded(_, n) => Some(n)
    case Finished(_, ticket, _) => ticket
    case _ => None
  }

  ghost predicate Holds(s: State, i: nat, n: nat) {
    i < |s.handlers| && TicketOf(s.handlers[i]) == Some(n)
  }

  ghost predicate Issued(s: State, n: nat) {
    exists i: nat :: Holds(s, i, n)
  }

  /** The tickets handed out are the numbers 1..downloads, each to one handler. */
  ghost predicate TicketsExact(s: State) {
    && (forall i: nat, n: nat :: Holds(s, i, n) ==> 1 <= n <= s.downloads)
    && (forall i: nat, j: nat, n: nat :: Holds(s, i, n) && Holds(s, j, n) ==> i == j)
    && (forall n: nat :: Issued(s, n) <==> 1 <= n <= s.downloads)
  }

  ghost predicate HandlerSound(cfg: Config, h: Handler) {
    match h
    case Arrived(_) => true
    case Finished(req, None, response) => Gate(cfg, req) == Some(response)
    case Finished(req, Some(n), response) => Gate(cfg, req) == None && response == Verdict(cfg, n)
    case _ => Gate(cfg, h.req) == None
  }

  ghost predicate HandlersSound(cfg: Config, s: State) {
    forall i | 0 <= i < |s.handlers| :: HandlerSound(cfg, s.handlers[i])
  }

  /** A granted copy is Promised until its handler writes it, and Served afterwards. */
  datatype Stage = Promised | Served

  predicate InStage(cfg: Config, h: Handler, stage: Stage) {
    match stage
    case Promised => h.Ticketed? && h.n <= cfg.maxDownloads
    case Served =>
      || (h.Responded? && h.n <= cfg.maxDownloads)
      || (h.Finished? && h.response == Baseline)
  }

  function Count(cfg: Config, hs: seq<Handler>, stage: Stage): nat {
    if hs == [] then 0
    else Count(cfg, hs[..|hs| - 1], stage) + (if InStage(cfg, hs[|hs| - 1], stage) then 1 else 0)
  }

  lemma {:induction false} CountUpdate(cfg: Config, hs: seq<Handler>, i: nat, h: Handler, stage: Stage)
    requires i < |hs|
    ensures Count(cfg, hs[i := h], stage)
         == Count(cfg, hs, stage) - (if InStage(cfg, hs[i], stage) then 1 else 0)
             + (if InStage(cfg, h, stage) then 1 else 0)
  {
    var last := |hs| - 1;
    if i == last {
      assert hs[i := h][..last] == hs[..last];
    } else {
      CountUpdate(cfg, hs[..last], i, h, stage);
      assert hs[i := h][..last] == hs[..last][i := h];
    }
  }

  /** Copies written plus copies promised are exactly the tickets within the budget. */
  ghost predicate CopiesConserved(cfg: Config, s: State) {
    Count(cfg, s.handlers, Served) + Count(cfg, s.handlers, Promised) == Min(s.downloads, cfg.maxDownloads)
  }

  // -------------------------------------------------------------- shutdown

  ghost predicate HasCloser(s: State, origin: Origin) {
    exists c | 0 <= c < |s.closers| :: s.closers[c].origin == origin
  }

  /** The sync.Once: at most one caller is inside, and the flags follow its position. */
  ghost predicate OnceSound(s: State) {
    match s.once
    case Fresh =>
      && (forall c | 0 <= c < |s.closers| :: s.closers[c].pc == Called)
      && !s.shutdownDone && !s.listenerClosed && s.doneCloses == 0
    case Running(o) =>
      && o < |s.closers|
      && (forall c | 0 <= c < |s.closers| && c != o :: s.closers[c].pc == Called)
      && s.closers[o].pc in {ShuttingDown, Unlistening, Signalling, Leaving}
      && (s.shutdownDone <==> s.closers[o].pc != ShuttingDown)
      && (s.listenerClosed <==> s.closers[o].pc in {Signalling, Leaving})
      && s.doneCloses == (if s.closers[o].pc == Leaving then 1 else 0)
    case Over =>
      && (forall c | 0 <= c < |s.closers| :: s.closers[c].pc in {Called, Returned})
      && s.shutdownDone && s.listenerClosed && s.doneCloses == 1
  }

  /** Finished with the last ticket or one past it: such a handler ends by launching a Close. */
  ghost predicate EndsWithLastTicket(cfg: Config, h: Handler) {
    h.Finished? && h.ticket.Some? && h.ticket.value >= cfg.maxDownloads
  }

  ghost predicate ClosesLaunched(cfg: Config, s: State) {
    && (s.ttl == Fired ==> HasCloser(s, FromTtl))
    && (s.ttl == Exited ==> s.doneCloses > 0)
    && (s.once != Fresh ==> s.closers != [])
    && (forall i | 0 <= i < |s.handlers| :: EndsWithLastTicket(cfg, s.handlers[i]) ==> HasCloser(s, FromHandler(i)))
    && (s.waitReturned ==> s.doneCloses > 0)
  }

  ghost predicate Inv(cfg: Config, s: State) {
    && cfg.Valid()
    && TicketsExact(s)
    && HandlersSound(cfg, s)
    && CopiesConserved(cfg, s)
    && OnceSound(s)
    && ClosesLaunched(cfg, s)
  }

  // ---------------------------------------------- every step keeps all of it

  lemma TicketsKept(cfg: Config, s: State, a: Action)
    requires TicketsExact(s) && Enabled(s, a)
    ensures TicketsExact(Apply(cfg, s, a))
  {
    var s' := Apply(cfg, s, a);
    if a.TakeTicket? {
      assert forall i: nat, n: nat :: i != a.i ==> (Holds(s', i, n) <==> Holds(s, i, n));
      assert forall n: nat :: Holds(s', a.i, n) <==> n == s.downloads + 1;
      assert forall n: nat :: !Holds(s, a.i, n);
      forall n: nat
        ensures Issued(s', n) <==> Issued(s, n) || n == s'.downloads
      {
        if Issued(s, n) {
          var i: nat :| Holds(s, i, n);
          assert Holds(s', i, n);
        } else if n == s'.downloads {
          assert Holds(s', a.i, n);
        }
      }
    } else {
      assert s'.downloads == s.downloads;
      assert forall i: nat, n: nat :: Holds(s', i, n) <==> Holds(s, i, n);
      assert forall n: nat :: Issued(s', n) <==> Issued(s, n);
    }
  }

  lemma HandlersKept(cfg: Config, s: State, a: Action)
    requires HandlersSound(cfg, s) && Enabled(s, a)
    ensures HandlersSound(cfg, Apply(cfg, s, a))
  {
  }

  lemma CountArrival(cfg: Config, hs: seq<Handler>, req: Request, stage: Stage)
    ensures Count(cfg, hs + [Arrived(req)], stage) == Count(cfg, hs, stage)
  {
    assert (hs + [Arrived(req)])[..|hs|] == hs;
  }

  lemma GateNeverServes(cfg: Config, req: Request)
    ensures Gate(cfg, req) != Some(Baseline)
  {
  }

  lemma CopiesKept(cfg: Config, s: State, a: Action)
    requires CopiesConserved(cfg, s) && HandlersSound(cfg, s) && Enabled(s, a)
    ensures CopiesConserved(cfg, Apply(cfg, s, a))
  {
    hide Gate, Count;
    var s' := Apply(cfg, s, a);
    if a.PassGates? { GateNeverServes(cfg, s.handlers[a.i].req); }
    if a.Arrive? {
      CountArrival(cfg, s.handlers, a.req, Served);
      CountArrival(cfg, s.handlers, a.req, Promised);
    } else if a.PassGates? || a.TakeTicket? || a.Write? || a.Finish? {
      CountUpdate(cfg, s.handlers, a.i, s'.handlers[a.i], Served);
      CountUpdate(cfg, s.handlers, a.i, s'.handlers[a.i], Promised);
    }
  }

  /** The steps of a running Close; all other steps leave the once and its flags alone. */
  predicate StepOfClose(a: Action) {
    a.EnterOnce? || a.ReturnFromShutdown? || a.CloseListener? || a.CloseDone? || a.LeaveOnce? || a.SkipOnce?
  }

  lemma OtherStepsLeaveOnce(cfg: Config, s: State, a: Action)
    requires Enabled(s, a) && !StepOfClose(a)
    ensures var s' := Apply(cfg, s, a);
      && s'.once == s.once && s'.shutdownDone == s.shutdownDone && s'.listenerClosed == s.listenerClosed
      && s'.doneCloses == s.doneCloses && |s.closers| <= |s'.closers|
      && (forall c | 0 <= c < |s.closers| :: s'.closers[c] == s.closers[c])
      && (forall c | |s.closers| <= c < |s'.closers| :: s'.closers[c].pc == Called)
  {
    hide Gate, Verdict;
  }

  lemma CloseKeepsOnce(cfg: Config, s: State, a: Action)
    requires OnceSound(s) && Enabled(s, a) && StepOfClose(a)
    ensures OnceSound(Apply(cfg, s, a))
  {
    hide Gate, Verdict;
  }

  lemma OnceKept(cfg: Config, s: State, a: Action)
    requires OnceSound(s) && Enabled(s, a)
    ensures OnceSound(Apply(cfg, s, a))
  {
    hide Apply, Enabled;
    if StepOfClose(a) {
      CloseKeepsOnce(cfg, s, a);
    } else {
      OtherStepsLeaveOnce(cfg, s, a);
    }
  }

  lemma ClosersOnlyGrow(cfg: Config, s: State, a: Action, origin: Origin)
    requires Enabled(s, a) && HasCloser(s, origin)
    ensures HasCloser(Apply(cfg, s, a), origin)
  {
    hide Gate, Verdict;
    var c :| 0 <= c < |s.closers| && s.closers[c].origin == origin;
    assert Apply(cfg, s, a).closers[c].origin == origin;
  }

  lemma SpawnAdds(s: State, origin: Origin)
    ensures HasCloser(Spawn(s, origin), origin)
  {
    assert Spawn(s, origin).closers[|s.closers|].origin == origin;
  }

  lemma LastTicketLaunches(cfg: Config, s: State, a: Action, i: nat)
    requires ClosesLaunched(cfg, s) && HandlersSound(cfg, s) && Enabled(s, a)
    requires i < |Apply(cfg, s, a).handlers| && EndsWithLastTicket(cfg, Apply(cfg, s, a).handlers[i])
    ensures HasCloser(Apply(cfg, s, a), FromHandler(i))
  {
    hide Gate, Verdict, HasCloser;
    var s' := Apply(cfg, s, a);
    if a == Finish(i) {
      SpawnAdds(s.(handlers := s'.handlers), FromHandler(i));
    } else {
      assert s.handlers[i] == s'.handlers[i];
      ClosersOnlyGrow(cfg, s, a, FromHandler(i));
    }
  }

  lemma FiredLaunches(cfg: Config, s: State, a: Action)
    requires ClosesLaunched(cfg, s) && Enabled(s, a) && Apply(cfg, s, a).ttl == Fired
    ensures HasCloser(Apply(cfg, s, a), FromTtl)
  {
    hide Gate, Verdict, HasCloser;
    if a.TtlExpire? { SpawnAdds(s.(ttl := Fired), FromTtl); } else { ClosersOnlyGrow(cfg, s, a, FromTtl); }
  }

  lemma DoneNeverReopens(cfg: Config, s: State, a: Action)
    requires ClosesLaunched(cfg, s) && OnceSound(s) && Enabled(s, a)
    ensures var s' := Apply(cfg, s, a);
      && (s'.ttl == Exited ==> s'.doneCloses > 0) && (s'.waitReturned ==> s'.doneCloses > 0)
      && (s'.once != Fresh ==> s'.closers != [])
  {
    hide Gate, Verdict, HasCloser;
  }

  lemma LaunchesKept(cfg: Config, s: State, a: Action)
    requires ClosesLaunched(cfg, s) && OnceSound(s) && HandlersSound(cfg, s) && Enabled(s, a)
    ensures ClosesLaunched(cfg, Apply(cfg, s, a))
  {
    hide Apply, Enabled, HasCloser, HandlersSound, OnceSound;
    var s' := Apply(cfg, s, a);
    DoneNeverReopens(cfg, s, a);
    if s'.ttl == Fired { FiredLaunches(cfg, s, a); }
    forall i | 0 <= i < |s'.handlers| && EndsWithLastTicket(cfg, s'.handlers[i])
      ensures HasCloser(s', FromHandler(i))
    {
      LastTicketLaunches(cfg, s, a, i);
    }
  }

  lemma InvInitial(cfg: Config)
    requires cfg.Valid()
    ensures Inv(cfg, INITIAL)
  {
  }

  lemma InvKept(cfg: Config, s: State, a: Action)
    requires Inv(cfg, s) && Enabled(s, a)
    ensures Inv(cfg, Apply(cfg, s, a))
  {
    TicketsKept(cfg, s, a);
    HandlersKept(cfg, s, a);
    CopiesKept(cfg, s, a);
    OnceKept(cfg, s, a);
    LaunchesKept(cfg, s, a);
  }

  // ------------------------------------------------------------ whole runs

  /** An interleaving: an unbounded schedule of enabled actions. Idle steps model waiting. */
  ghost predicate Behaviour(cfg: Config, st: nat -> State, act: nat -> Action) {
    && cfg.Valid()
    && st(0) == INITIAL
    && forall k: nat :: Enabled(st(k), act(k)) && st(k + 1) == Apply(cfg, st(k), act(k))
  }

  lemma RunStep(cfg: Config, st: nat -> State, act: nat -> Action, k: nat)
    requires Behaviour(cfg, st, act)
    ensures cfg.Valid() && st(0) == INITIAL
    ensures Enabled(st(k), act(k)) && st(k + 1) == Apply(cfg, st(k), act(k))
  {
    hide Enabled, Apply;
  }

  /** Safety: every reachable state satisfies every invariant above. */
  lemma {:induction false} AlwaysInv(cfg: Config, st: nat -> State, act: nat -> Action, k: nat)
    requires Behaviour(cfg, st, act)
    ensures Inv(cfg, st(k))
  {
    hide *;
    if k == 0 {
      RunStep(cfg, st, act, 0);
      InvInitial(cfg);
    } else {
      AlwaysInv(cfg, st, act, k - 1);
      RunStep(cfg, st, act, k - 1);
      InvKept(cfg, st(k - 1), act(k - 1));
    }
  }

  /** Nobody gets the baseline without the exact path, a GET, no declared body and the code. */
  lemma OnlyAuthorisedServed(cfg: Config, st: nat -> State, act: nat -> Action, k: nat, i: nat)
    requires Behaviour(cfg, st, act) && i < |st(k).handlers|
    requires InStage(cfg, st(k).handlers[i], Served) || InStage(cfg, st(k).handlers[i], Promised)
    ensures Authorised(cfg, st(k).handlers[i].req)
    ensures exists n: nat :: 1 <= n <= cfg.maxDownloads && Holds(st(k), i, n)
  {
    AlwaysInv(cfg, st, act, k);
    var h := st(k).handlers[i];
    assert HandlerSound(cfg, h);
    assert Holds(st(k), i, TicketOf(h).value);
  }

  /**
   The shutdown protocol in every reachable state: done is closed at most once, and only
   after Shutdown returned and the listener closed; Wait returns only then; and while done
   is open, either the TTL goroutine still waits or some Close has not returned.
   */
  lemma ShutdownProtocol(cfg: Config, st: nat -> State, act: nat -> Action, k: nat)
    requires Behaviour(cfg, st, act)
    ensures st(k).doneCloses <= 1
    ensures st(k).doneCloses == 1 ==> st(k).shutdownDone && st(k).listenerClosed
    ensures st(k).waitReturned ==> st(k).doneCloses == 1
    ensures st(k).doneCloses == 0 && st(k).ttl != Armed ==>
              exists c | 0 <= c < |st(k).closers| :: st(k).closers[c].pc != Returned
    ensures st(k).doneCloses == 0 ==> forall c | 0 <= c < |st(k).closers| :: st(k).closers[c].pc != Returned
    ensures forall i | 0 <= i < |st(k).handlers| && st(k).handlers[i].Finished? ::
              st(k).handlers[i].ticket == Some(cfg.maxDownloads) ==> HasCloser(st(k), FromHandler(i))
  {
    AlwaysInv(cfg, st, act, k);
    var s := st(k);
    if s.doneCloses == 0 && s.ttl != Armed {
      var c :| 0 <= c < |s.closers| && s.closers[c].origin == FromTtl;
      assert s.closers[c].pc != Returned;
    }
  }

  // ------------------------------- refinement to an atomic budget of copies

  /** The specification object: one atomic Take that grants while anything is left. */
  datatype Budget = Budget(left: nat, granted: set<nat>, refused: set<nat>)

  ghost predicate Take(b: Budget, id: nat, b': Budget) {
    && id !in b.granted + b.refused
    && b' == if b.left > 0 then b.(left := b.left - 1, granted := b.granted + {id})
             else b.(refused := b.refused + {id})
  }

  ghost function Abstract(cfg: Config, s: State): Budget {
    Budget(
      cfg.maxDownloads - Min(s.downloads, cfg.maxDownloads),
      set i | 0 <= i < |s.handlers| && TicketOf(s.handlers[i]).Some?
          && TicketOf(s.handlers[i]).value <= cfg.maxDownloads,
      set i | 0 <= i < |s.handlers| && TicketOf(s.handlers[i]).Some?
          && TicketOf(s.handlers[i]).value > cfg.maxDownloads)
  }

  lemma TicketsUntouched(cfg: Config, s: State, a: Action)
    requires Enabled(s, a) && !a.TakeTicket?
    ensures var s' := Apply(cfg, s, a);
      && s'.downloads == s.downloads && |s.handlers| <= |s'.handlers|
      && (forall i | 0 <= i < |s.handlers| :: TicketOf(s'.handlers[i]) == TicketOf(s.handlers[i]))
      && (forall i | |s.handlers| <= i < |s'.handlers| :: TicketOf(s'.handlers[i]) == None)
  {
    hide Gate, Verdict;
  }

  lemma TicketIsTaken(cfg: Config, s: State, a: Action)
    requires Enabled(s, a) && a.TakeTicket?
    ensures var s' := Apply(cfg, s, a);
      && s'.downloads == s.downloads + 1 && |s'.handlers| == |s.handlers|
      && (forall i | 0 <= i < |s.handlers| && i != a.i :: TicketOf(s'.handlers[i]) == TicketOf(s.handlers[i]))
      && TicketOf(s.handlers[a.i]) == None && TicketOf(s'.handlers[a.i]) == Some(s.downloads + 1)
  {
  }

  /** Taking a ticket is the one step the budget sees; every other step leaves it alone. */
  lemma StepRefinesBudget(cfg: Config, s: State, a: Action)
    requires Inv(cfg, s) && Enabled(s, a)
    ensures a.TakeTicket? ==> Take(Abstract(cfg, s), a.i, Abstract(cfg, Apply(cfg, s, a)))
    ensures !a.TakeTicket? ==> Abstract(cfg, Apply(cfg, s, a)) == Abstract(cfg, s)
  {
    assert a.TakeTicket? ==> HandlerAt(s, a.i);
    hide Apply, Enabled, TicketOf, Inv;
    if a.TakeTicket? {
      TicketIsTaken(cfg, s, a);
    } else {
      TicketsUntouched(cfg, s, a);
      var s' := Apply(cfg, s, a);
      assert Abstract(cfg, s').granted == Abstract(cfg, s).granted;
      assert Abstract(cfg, s').refused == Abstract(cfg, s).refused;
    }
  }

  /** The budget never grants more than it had, and refuses only once it is spent. */
  ghost predicate BudgetExact(cfg: Config, b: Budget) {
    && |b.granted| + b.left == cfg.maxDownloads
    && (b.refused != {} ==> b.left == 0)
    && b.granted !! b.refused
  }

  /**
   Every interleaving refines the budget: its invariant holds throughout, and each finished
   request was answered as the budget decided for it.
   */
  lemma {:induction false} RunRefinesBudget(cfg: Config, st: nat -> State, act: nat -> Action, k: nat)
    requires Behaviour(cfg, st, act)
    ensures BudgetExact(cfg, Abstract(cfg, st(k)))
    ensures forall i | 0 <= i < |st(k).handlers| && st(k).handlers[i].Finished? ::
              && (st(k).handlers[i].response == Baseline <==> i in Abstract(cfg, st(k)).granted)
              && (st(k).handlers[i].response == Gone <==> i in Abstract(cfg, st(k)).refused)
  {
    hide *;
    AlwaysInv(cfg, st, act, k);
    AnswersMatchBudget(cfg, st(k));
    if k == 0 {
      RunStep(cfg, st, act, 0);
      FullBudget(cfg);
    } else {
      AlwaysInv(cfg, st, act, k - 1);
      RunRefinesBudget(cfg, st, act, k - 1);
      RunStep(cfg, st, act, k - 1);
      StepRefinesBudget(cfg, st(k - 1), act(k - 1));
      BudgetStaysExact(cfg, Abstract(cfg, st(k - 1)), act(k - 1), Abstract(cfg, st(k)));
    }
  }

  lemma BudgetStaysExact(cfg: Config, b: Budget, a: Action, b': Budget)
    requires BudgetExact(cfg, b) && (if a.TakeTicket? then Take(b, a.i, b') else b' == b)
    ensures BudgetExact(cfg, b')
  {
  }

  lemma FullBudget(cfg: Config)
    requires cfg.Valid()
    ensures BudgetExact(cfg, Abstract(cfg, INITIAL))
  {
    assert Abstract(cfg, INITIAL) == Budget(cfg.maxDownloads, {}, {});
  }

  lemma AnswersMatchBudget(cfg: Config, s: State)
    requires Inv(cfg, s)
    ensures forall i | 0 <= i < |s.handlers| && s.handlers[i].Finished? ::
              && (s.handlers[i].response == Baseline <==> i in Abstract(cfg, s).granted)
              && (s.handlers[i].response == Gone <==> i in Abstract(cfg, s).refused)
  {
    forall i | 0 <= i < |s.handlers| && s.handlers[i].Finished?
      ensures s.handlers[i].response == Baseline <==> i in Abstract(cfg, s).granted
      ensures s.handlers[i].response == Gone <==> i in Abstract(cfg, s).refused
    {
      assert HandlerSound(cfg, s.handlers[i]);
    }
  }

  /**
   However requests race, the answers in ticket order are maxDownloads copies first and refusals
   ever after: each issued ticket has one holder, and what that request ends with is settled by it.
   */
  lemma CopiesThenRefusals(cfg: Config, st: nat -> State, act: nat -> Action, k: nat, t: nat) returns (i: nat)
    requires Behaviour(cfg, st, act) && 1 <= t <= st(k).downloads
    ensures Holds(st(k), i, t) && forall j: nat :: Holds(st(k), j, t) ==> j == i
    ensures st(k).handlers[i].Finished? ==>
              st(k).handlers[i].response == if t <= cfg.maxDownloads then Baseline else Gone
  {
    AlwaysInv(cfg, st, act, k);
    assert Issued(st(k), t);
    i :| Holds(st(k), i, t);
    assert HandlerSound(cfg, st(k).handlers[i]);
  }

  // ------------------------------------------------- every Close gets there

  /** Steps left until done is closed. */
  ghost function Rank(s: State): nat {
    match s.once
    case Fresh => 4
    case Running(o) =>
      if CloserAt(s, o, ShuttingDown) then 3
      else if CloserAt(s, o, Unlistening) then 2
      else if CloserAt(s, o, Signalling) then 1
      else 0
    case Over => 0
  }

  predicate ActionOfCloser(a: Action, c: nat) { StepOfClose(a) && a.c == c }

  predicate CloserReady(s: State, c: nat) {
    && c < |s.closers|
    && match s.closers[c].pc
       case Called => !s.once.Running?
       case Returned => false
       case _ => true
  }

  /** The one step a ready Close call can take. */
  function NextOfCloser(s: State, c: nat): Action
    requires c < |s.closers|
  {
    match s.closers[c].pc
    case Called => if s.once == Fresh then EnterOnce(c) else SkipOnce(c)
    case ShuttingDown => ReturnFromShutdown(c)
    case Unlistening => CloseListener(c)
    case Signalling => CloseDone(c)
    case Leaving => LeaveOnce(c)
    case Returned => Idle
  }

  lemma NextIsEnabled(s: State, c: nat)
    requires CloserReady(s, c)
    ensures Enabled(s, NextOfCloser(s, c)) && ActionOfCloser(NextOfCloser(s, c), c)
  {
  }

  predicate ActionOfHandler(a: Action, i: nat) {
    (a.PassGates? || a.TakeTicket? || a.Write? || a.Finish?) && a.i == i
  }

  predicate HandlerReady(s: State, i: nat) { i < |s.handlers| && !s.handlers[i].Finished? }

  /** Whatever the scheduler has to run: handlers, Close calls, the TTL goroutine and a caller of Wait. */
  datatype Task = HandlerTask(i: nat) | CloserTask(c: nat) | TtlTask | WaitTask

  predicate Runs(a: Action, t: Task) {
    match t
    case HandlerTask(i) => ActionOfHandler(a, i)
    case CloserTask(c) => ActionOfCloser(a, c)
    case TtlTask => a.TtlExpire? || a.TtlNoticeDone?
    case WaitTask => a.WaitReturn?
  }

  /** The timer counts as ready while it is armed: it fires one day. */
  predicate Ready(s: State, t: Task) {
    match t
    case HandlerTask(i) => HandlerReady(s, i)
    case CloserTask(c) => CloserReady(s, c)
    case TtlTask => s.ttl == Armed
    case WaitTask => s.doneCloses > 0 && !s.waitReturned
  }

  ghost predicate RunsOrBlocks(st: nat -> State, act: nat -> Action, t: Task, j: nat) {
    Runs(act(j), t) || !Ready(st(j), t)
  }

  ghost predicate RunsOrBlocksFrom(st: nat -> State, act: nat -> Action, t: Task, k: nat) {
    exists j: nat :: k <= j && RunsOrBlocks(st, act, t, j)
  }

  /** The scheduler: a task that stays ready is eventually run. */
  ghost predicate FairTo(st: nat -> State, act: nat -> Action, t: Task) {
    forall k: nat :: RunsOrBlocksFrom(st, act, t, k)
  }

  ghost predicate FairToClosers(st: nat -> State, act: nat -> Action) {
    forall c: nat :: FairTo(st, act, CloserTask(c))
  }

  /** The closer whose turn it is. */
  ghost function Leader(s: State): nat {
    if s.once.Running? then s.once.owner else 0
  }

  lemma RankStep(cfg: Config, s: State, a: Action)
    requires Inv(cfg, s) && Enabled(s, a)
    ensures Rank(s) == 0 <==> s.doneCloses == 1
    ensures Rank(Apply(cfg, s, a)) <= Rank(s)
    ensures |s.closers| <= |Apply(cfg, s, a).closers|
    ensures Rank(s) > 0 && s.closers != [] ==> CloserReady(s, Leader(s))
    ensures Rank(Apply(cfg, s, a)) == Rank(s) > 0 ==> Leader(Apply(cfg, s, a)) == Leader(s)
    ensures Rank(s) > 0 && s.closers != [] && ActionOfCloser(a, Leader(s)) ==> Rank(Apply(cfg, s, a)) < Rank(s)
  {
    hide TicketsExact, HandlersSound, CopiesConserved, ClosesLaunched, Gate, Verdict;
    if !StepOfClose(a) { OtherStepsLeaveOnce(cfg, s, a); }
  }

  lemma IdleIsEnabled(s: State)
    ensures Enabled(s, Idle)
  {
  }

  lemma {:induction false} LeaderPersists(cfg: Config, st: nat -> State, act: nat -> Action, k: nat, j: nat)
    requires Behaviour(cfg, st, act) && k <= j && st(k).closers != []
    ensures Rank(st(j)) <= Rank(st(k)) && st(j).closers != []
    ensures Rank(st(j)) == Rank(st(k)) > 0 ==> Leader(st(j)) == Leader(st(k)) && CloserReady(st(j), Leader(st(k)))
    decreases j
  {
    hide *;
    AlwaysInv(cfg, st, act, j);
    IdleIsEnabled(st(j));
    RankStep(cfg, st(j), Idle);
    if j > k {
      LeaderPersists(cfg, st, act, k, j - 1);
      AlwaysInv(cfg, st, act, j - 1);
      RunStep(cfg, st, act, j - 1);
      RankStep(cfg, st(j - 1), act(j - 1));
    }
  }

  /** Liveness: under a fair scheduler, once any Close is launched done is closed. */
  lemma {:induction false} LaunchedCloseReachesDone(cfg: Config, st: nat -> State, act: nat -> Action, k: nat)
      returns (end: nat)
    requires Behaviour(cfg, st, act) && st(k).closers != []
    requires FairToClosers(st, act)
    ensures k <= end && st(end).doneCloses == 1
    decreases Rank(st(k))
  {
    AlwaysInv(cfg, st, act, k);
    RankStep(cfg, st(k), Idle);
    if Rank(st(k)) == 0 {
      return k;
    }
    var c := Leader(st(k));
    assert FairTo(st, act, CloserTask(c)) && RunsOrBlocksFrom(st, act, CloserTask(c), k);
    var j: nat :| k <= j && RunsOrBlocks(st, act, CloserTask(c), j);
    LeaderPersists(cfg, st, act, k, j);
    AlwaysInv(cfg, st, act, j);
    RankStep(cfg, st(j), act(j));
    LeaderPersists(cfg, st, act, j, j + 1);
    assert st(j + 1) == Apply(cfg, st(j), act(j));
    end := LaunchedCloseReachesDone(cfg, st, act, j + 1);
  }

  /** So once the last copy has been handed over, the server does shut down. */
  lemma LastCopyShutsDown(cfg: Config, st: nat -> State, act: nat -> Action, k: nat, i: nat) returns (end: nat)
    requires Behaviour(cfg, st, act) && i < |st(k).handlers|
    requires st(k).handlers[i].Finished? && st(k).handlers[i].ticket == Some(cfg.maxDownloads)
    requires FairToClosers(st, act)
    ensures k <= end && st(end).doneCloses == 1 && st(end).listenerClosed
  {
    ShutdownProtocol(cfg, st, act, k);
    assert HasCloser(st(k), FromHandler(i));
    end := LaunchedCloseReachesDone(cfg, st, act, k);
    ShutdownProtocol(cfg, st, act, end);
  }

  // --------------------------------------------------- every Close returns

  /** Once done is closed: the owner of the once still has to leave it, or it is over. */
  lemma AfterDoneStep(cfg: Config, s: State, a: Action)
    requires Inv(cfg, s) && Enabled(s, a) && s.doneCloses == 1
    ensures var s' := Apply(cfg, s, a);
      && s'.doneCloses == 1
      && (s.once.Over? ==> s'.once.Over?)
      && (s.once.Running? ==> CloserReady(s, s.once.owner) && (s'.once.Over? || s'.once == s.once))
      && (s.once.Running? && ActionOfCloser(a, s.once.owner) ==> s'.once.Over?)
    ensures s.once.Running? || s.once.Over?
  {
    hide TicketsExact, HandlersSound, CopiesConserved, ClosesLaunched, Gate, Verdict;
    if !StepOfClose(a) { OtherStepsLeaveOnce(cfg, s, a); }
  }

  ghost predicate HasReturned(s: State, c: nat) { CloserAt(s, c, Returned) }

  lemma ReturnStep(cfg: Config, s: State, a: Action, c: nat)
    requires Inv(cfg, s) && Enabled(s, a) && c < |s.closers|
    ensures c < |Apply(cfg, s, a).closers|
    ensures HasReturned(s, c) ==> HasReturned(Apply(cfg, s, a), c)
    ensures s.once.Over? && !HasReturned(s, c) ==> CloserReady(s, c)
    ensures s.once.Over? && ActionOfCloser(a, c) ==> HasReturned(Apply(cfg, s, a), c)
  {
    hide TicketsExact, HandlersSound, CopiesConserved, ClosesLaunched, Gate, Verdict;
    if !StepOfClose(a) { OtherStepsLeaveOnce(cfg, s, a); }
  }

  lemma {:induction false} AfterDonePersists(cfg: Config, st: nat -> State, act: nat -> Action, k: nat, j: nat)
    requires Behaviour(cfg, st, act) && k <= j && st(k).doneCloses == 1
    ensures st(j).doneCloses == 1 && (st(j).once.Over? || (st(j).once.Running? && st(j).once == st(k).once))
    ensures st(k).once.Over? ==> st(j).once.Over?
    decreases j
  {
    hide *;
    AlwaysInv(cfg, st, act, j);
    if j > k {
      AfterDonePersists(cfg, st, act, k, j - 1);
      AlwaysInv(cfg, st, act, j - 1);
      RunStep(cfg, st, act, j - 1);
      AfterDoneStep(cfg, st(j - 1), act(j - 1));
    } else {
      IdleIsEnabled(st(k));
      AfterDoneStep(cfg, st(k), Idle);
    }
  }

  lemma {:induction false} CloserPersists(cfg: Config, st: nat -> State, act: nat -> Action, k: nat, j: nat, c: nat)
    requires Behaviour(cfg, st, act) && k <= j && c < |st(k).closers|
    ensures c < |st(j).closers| && (HasReturned(st(k), c) ==> HasReturned(st(j), c))
    decreases j
  {
    hide *;
    if j > k {
      CloserPersists(cfg, st, act, k, j - 1, c);
      AlwaysInv(cfg, st, act, j - 1);
      RunStep(cfg, st, act, j - 1);
      ReturnStep(cfg, st(j - 1), act(j - 1), c);
    }
  }

  /** A fair scheduler runs any closer or finds it blocked, however late one starts to look. */
  lemma CloserRuns(st: nat -> State, act: nat -> Action, k: nat, c: nat) returns (j: nat)
    requires FairToClosers(st, act)
    ensures k <= j && (ActionOfCloser(act(j), c) || !CloserReady(st(j), c))
  {
    hide ActionOfCloser, CloserReady;
    assert FairTo(st, act, CloserTask(c)) && RunsOrBlocksFrom(st, act, CloserTask(c), k);
    j :| k <= j && RunsOrBlocks(st, act, CloserTask(c), j);
  }

  lemma OnceIsOver(cfg: Config, st: nat -> State, act: nat -> Action, k: nat) returns (end: nat)
    requires Behaviour(cfg, st, act) && st(k).doneCloses == 1 && FairToClosers(st, act)
    ensures k <= end && st(end).once.Over?
  {
    hide *;
    AfterDonePersists(cfg, st, act, k, k);
    end := k;
    if st(k).once.Running? {
      var j := CloserRuns(st, act, k, st(k).once.owner);
      AfterDonePersists(cfg, st, act, k, j);
      AlwaysInv(cfg, st, act, j);
      RunStep(cfg, st, act, j);
      AfterDoneStep(cfg, st(j), act(j));
      end := if st(j).once.Over? then j else j + 1;
    }
  }

  /** Every Close call returns, those that wait for the once included. */
  lemma EveryCloseReturns(cfg: Config, st: nat -> State, act: nat -> Action, k: nat, c: nat) returns (end: nat)
    requires Behaviour(cfg, st, act) && FairToClosers(st, act) && c < |st(k).closers|
    ensures k <= end && forall j: nat | end <= j :: c < |st(j).closers| && st(j).closers[c].pc == Returned
  {
    hide *;
    var d := LaunchedCloseReachesDone(cfg, st, act, k);
    var o := OnceIsOver(cfg, st, act, d);
    DoneBy(cfg, st, act, o);
    var j := CloserRuns(st, act, o, c);
    AfterDonePersists(cfg, st, act, o, j);
    CloserPersists(cfg, st, act, k, j, c);
    AlwaysInv(cfg, st, act, j);
    RunStep(cfg, st, act, j);
    ReturnStep(cfg, st(j), act(j), c);
    end := j + 1;
    StaysReturned(cfg, st, act, end, c);
  }

  lemma DoneBy(cfg: Config, st: nat -> State, act: nat -> Action, k: nat)
    requires Behaviour(cfg, st, act) && st(k).once.Over?
    ensures st(k).doneCloses == 1
  {
    hide Behaviour;
    AlwaysInv(cfg, st, act, k);
  }

  lemma StaysReturned(cfg: Config, st: nat -> State, act: nat -> Action, k: nat, c: nat)
    requires Behaviour(cfg, st, act) && HasReturned(st(k), c)
    ensures forall j: nat | k <= j :: c < |st(j).closers| && st(j).closers[c].pc == Returned
  {
    hide Behaviour;
    forall j: nat | k <= j
      ensures HasReturned(st(j), c)
    {
      CloserPersists(cfg, st, act, k, j, c);
    }
  }

  // ------------------------------------------- every request gets its answer

  function StepsLeft(h: Handler): nat {
    match h
    case Arrived(_) => 4
    case Passed(_) => 3
    case Ticketed(_, _) => 2
    case Responded(_, _) => 1
    case Finished(_, _, _) => 0
  }

  lemma HandlerStep(cfg: Config, s: State, a: Action, i: nat)
    requires Enabled(s, a) && i < |s.handlers|
    ensures var s' := Apply(cfg, s, a);
      && i < |s'.handlers|
      && (s'.handlers[i] == s.handlers[i] || StepsLeft(s'.handlers[i]) < StepsLeft(s.handlers[i]))
      && (TicketOf(s.handlers[i]).Some? ==> TicketOf(s'.handlers[i]) == TicketOf(s.handlers[i]))
      && (ActionOfHandler(a, i) ==> StepsLeft(s'.handlers[i]) < StepsLeft(s.handlers[i]))
  {
    hide *;
    HandlerMoves(cfg, s, a, i);
    HandlerKeepsTicket(cfg, s, a, i);
  }

  lemma HandlerMoves(cfg: Config, s: State, a: Action, i: nat)
    requires Enabled(s, a) && i < |s.handlers|
    ensures var s' := Apply(cfg, s, a);
      && i < |s'.handlers|
      && (s'.handlers[i] == s.handlers[i] || StepsLeft(s'.handlers[i]) < StepsLeft(s.handlers[i]))
      && (ActionOfHandler(a, i) ==> StepsLeft(s'.handlers[i]) < StepsLeft(s.handlers[i]))
  {
    hide Gate, Verdict;
  }

  lemma HandlerKeepsTicket(cfg: Config, s: State, a: Action, i: nat)
    requires Enabled(s, a) && i < |s.handlers|
    ensures var s' := Apply(cfg, s, a);
      && i < |s'.handlers|
      && (TicketOf(s.handlers[i]).Some? ==> TicketOf(s'.handlers[i]) == TicketOf(s.handlers[i]))
  {
    hide Gate, Verdict;
  }

  lemma {:induction false} HandlerPersists(cfg: Config, st: nat -> State, act: nat -> Action, k: nat, j: nat, i: nat)
    requires Behaviour(cfg, st, act) && k <= j && i < |st(k).handlers|
    ensures i < |st(j).handlers| && StepsLeft(st(j).handlers[i]) <= StepsLeft(st(k).handlers[i])
    ensures TicketOf(st(k).handlers[i]).Some? ==> TicketOf(st(j).handlers[i]) == TicketOf(st(k).handlers[i])
    decreases j
  {
    hide *;
    if j > k {
      HandlerPersists(cfg, st, act, k, j - 1, i);
      RunStep(cfg, st, act, j - 1);
      HandlerStep(cfg, st(j - 1), act(j - 1), i);
    }
  }

  /** A scheduler that is fair to a request's handler brings the request to its end. */
  lemma {:induction false} RequestIsAnswered(cfg: Config, st: nat -> State, act: nat -> Action, k: nat, i: nat)
      returns (end: nat)
    requires Behaviour(cfg, st, act) && i < |st(k).handlers| && FairTo(st, act, HandlerTask(i))
    ensures k <= end && i < |st(end).handlers| && st(end).handlers[i].Finished?
    ensures TicketOf(st(k).handlers[i]).Some? ==> TicketOf(st(end).handlers[i]) == TicketOf(st(k).handlers[i])
    decreases StepsLeft(st(k).handlers[i])
  {
    assert RunsOrBlocksFrom(st, act, HandlerTask(i), k);
    var j: nat :| k <= j && RunsOrBlocks(st, act, HandlerTask(i), j);
    HandlerPersists(cfg, st, act, k, j, i);
    if st(j).handlers[i].Finished? {
      end := j;
    } else {
      assert st(j + 1) == Apply(cfg, st(j), act(j));
      HandlerStep(cfg, st(j), act(j), i);
      end := RequestIsAnswered(cfg, st, act, j + 1, i);
    }
  }

  /** Once maxDownloads tickets are out, the server shuts down, whatever the timer does. */
  lemma SpentBudgetShutsDown(cfg: Config, st: nat -> State, act: nat -> Action, k: nat) returns (end: nat)
    requires Behaviour(cfg, st, act) && st(k).downloads >= cfg.maxDownloads
    requires FairToClosers(st, act) && forall i: nat :: FairTo(st, act, HandlerTask(i))
    ensures k <= end && st(end).doneCloses == 1 && st(end).listenerClosed
  {
    var i := CopiesThenRefusals(cfg, st, act, k, cfg.maxDownloads);
    var m := RequestIsAnswered(cfg, st, act, k, i);
    end := LastCopyShutsDown(cfg, st, act, m, i);
  }

  lemma {:induction false} DonePersists(cfg: Config, st: nat -> State, act: nat -> Action, k: nat, j: nat)
    requires Behaviour(cfg, st, act) && k <= j
    ensures st(j).doneCloses >= st(k).doneCloses
    decreases j
  {
    hide *;
    if j > k {
      DonePersists(cfg, st, act, k, j - 1);
      RunStep(cfg, st, act, j - 1);
      DoneStep(cfg, st(j - 1), act(j - 1));
    }
  }

  lemma DoneStep(cfg: Config, s: State, a: Action)
    requires Enabled(s, a)
    ensures Apply(cfg, s, a).doneCloses >= s.doneCloses
  {
    hide Gate;
  }

  /** The timer is never in the way: some Close is launched, or done is closed already. */
  lemma TimerLaunchesClose(cfg: Config, st: nat -> State, act: nat -> Action) returns (j: nat)
    requires Behaviour(cfg, st, act) && FairTo(st, act, TtlTask)
    ensures st(j).closers != [] || st(j).doneCloses > 0
  {
    assert RunsOrBlocksFrom(st, act, TtlTask, 0);
    j :| 0 <= j && RunsOrBlocks(st, act, TtlTask, j);
    AlwaysInv(cfg, st, act, j);
    if act(j).TtlExpire? {
      assert st(j + 1) == Apply(cfg, st(j), act(j));
      j := j + 1;
    }
  }

  /**
   Every run of a fair scheduler ends: no schedule of requests, Close calls and interrupts keeps
   done from being closed, and then Wait returns.
   */
  lemma EveryFairRunEnds(cfg: Config, st: nat -> State, act: nat -> Action) returns (end: nat)
    requires Behaviour(cfg, st, act)
    requires FairToClosers(st, act) && FairTo(st, act, TtlTask) && FairTo(st, act, WaitTask)
    ensures st(end).waitReturned && st(end).doneCloses == 1 && st(end).listenerClosed
  {
    var j := TimerLaunchesClose(cfg, st, act);
    var d := j;
    if st(j).doneCloses == 0 { d := LaunchedCloseReachesDone(cfg, st, act, j); }
    assert RunsOrBlocksFrom(st, act, WaitTask, d);
    var w: nat :| d <= w && RunsOrBlocks(st, act, WaitTask, w);
    DonePersists(cfg, st, act, d, w);
    end := w;
    if !st(w).waitReturned {
      assert st(w + 1) == Apply(cfg, st(w), act(w));
      end := w + 1;
    }
    ShutdownProtocol(cfg, st, act, end);
  }

  // ------------------------------------------- the hypotheses can be met

  /** maxDownloads requests are served one after the other; the last one closes the server, and Wait returns. */
  function ServeAllAction(cfg: Config, k: nat): Action {
    if k < 5 * cfg.maxDownloads then ServingAction(cfg, k / 5, k % 5) else ClosingAction(cfg, k - 5 * cfg.maxDownloads)
  }

  function ServingAction(cfg: Config, i: nat, p: nat): Action {
    if p == 0 then Arrive(GoodRequest(cfg))
    else if p == 1 then PassGates(i)
    else if p == 2 then TakeTicket(i)
    else if p == 3 then Write(i)
    else Finish(i)
  }

  function ClosingAction(cfg: Config, q: nat): Action {
    if q == 0 then EnterOnce(0)
    else if q == 1 then ReturnFromShutdown(0)
    else if q == 2 then CloseListener(0)
    else if q == 3 then CloseDone(0)
    else if q == 4 then LeaveOnce(0)
    else if q == 5 then TtlNoticeDone
    else if q == 6 then WaitReturn
    else Idle
  }

  function GoodRequest(cfg: Config): Request { Request(true, cfg.path, 0, cfg.pairingCode) }

  function ServedHandlers(cfg: Config, i: nat): (hs: seq<Handler>)
    ensures |hs| == i && forall j | 0 <= j < i :: hs[j] == Finished(GoodRequest(cfg), Some(j + 1), Baseline)
  {
    seq(i, j requires 0 <= j < i => Finished(GoodRequest(cfg), Some(j + 1), Baseline))
  }

  function ServingHandler(cfg: Config, i: nat, p: nat): Handler {
    if p <= 1 then Arrived(GoodRequest(cfg))
    else if p == 2 then Passed(GoodRequest(cfg))
    else if p == 3 then Ticketed(GoodRequest(cfg), i + 1)
    else Responded(GoodRequest(cfg), i + 1)
  }

  function ServingState(cfg: Config, i: nat, p: nat): State {
    State(if p >= 3 then i + 1 else i,
          ServedHandlers(cfg, i) + (if p == 0 then [] else [ServingHandler(cfg, i, p)]),
          [], Fresh, false, false, 0, Armed, false)
  }

  function ClosingPc(q: nat): ClosePc {
    if q == 0 then Called
    else if q == 1 then ShuttingDown
    else if q == 2 then Unlistening
    else if q == 3 then Signalling
    else if q == 4 then Leaving
    else Returned
  }

  function ClosingState(cfg: Config, q: nat): State
    requires cfg.Valid()
  {
    State(cfg.maxDownloads,
          ServedHandlers(cfg, cfg.maxDownloads),
          [Closer(FromHandler(cfg.maxDownloads - 1), ClosingPc(q))],
          if q == 0 then Fresh else if q <= 4 then Running(0) else Over,
          q >= 2, q >= 3, if q >= 4 then 1 else 0, if q >= 6 then Exited else Armed, q >= 7)
  }

  function ServeAllState(cfg: Config, k: nat): State
    requires cfg.Valid()
  {
    if k < 5 * cfg.maxDownloads then ServingState(cfg, k / 5, k % 5) else ClosingState(cfg, k - 5 * cfg.maxDownloads)
  }

  lemma ServingStep(cfg: Config, i: nat, p: nat)
    requires cfg.Valid() && i < cfg.maxDownloads && p < 5
    ensures var s, a := ServingState(cfg, i, p), ServingAction(cfg, i, p);
      Enabled(s, a) && Apply(cfg, s, a) ==
        if p < 4 then ServingState(cfg, i, p + 1)
        else if i + 1 < cfg.maxDownloads then ServingState(cfg, i + 1, 0)
        else ClosingState(cfg, 0)
  {
    var s := ServingState(cfg, i, p);
    assert Gate(cfg, GoodRequest(cfg)) == None;
    hide Gate;
    assert p < 4 ==> Apply(cfg, s, ServingAction(cfg, i, p)).handlers == ServingState(cfg, i, p + 1).handlers;
    assert ServedHandlers(cfg, i) + [Finished(GoodRequest(cfg), Some(i + 1), Baseline)] == ServedHandlers(cfg, i + 1);
    assert p == 4 ==> Apply(cfg, s, Finish(i)).handlers == ServedHandlers(cfg, i + 1);
  }

  lemma ClosingStep(cfg: Config, q: nat)
    requires cfg.Valid()
    ensures var s, a := ClosingState(cfg, q), ClosingAction(cfg, q);
      Enabled(s, a) && Apply(cfg, s, a) == ClosingState(cfg, q + 1)
  {
    hide ServedHandlers;
  }

  lemma ServeAllStep(cfg: Config, k: nat)
    requires cfg.Valid()
    ensures Enabled(ServeAllState(cfg, k), ServeAllAction(cfg, k))
    ensures ServeAllState(cfg, k + 1) == Apply(cfg, ServeAllState(cfg, k), ServeAllAction(cfg, k))
  {
    hide ServingState, ClosingState, ServingAction, ClosingAction, Enabled, Apply;
    var n := cfg.maxDownloads;
    if k < 5 * n {
      ServingStep(cfg, k / 5, k % 5);
      assert k % 5 < 4 ==> (k + 1) / 5 == k / 5 && (k + 1) % 5 == k % 5 + 1;
      assert k % 5 == 4 ==> (k + 1) / 5 == k / 5 + 1 && (k + 1) % 5 == 0;
    } else {
      ClosingStep(cfg, k - 5 * n);
    }
  }

  lemma AllServedRests(cfg: Config, k: nat, t: Task)
    requires cfg.Valid() && k >= 5 * cfg.maxDownloads + 7
    ensures !Ready(ServeAllState(cfg, k), t)
  {
  }

  lemma ServeAllStarts(cfg: Config)
    requires cfg.Valid()
    ensures ServeAllState(cfg, 0) == INITIAL
    ensures ServeAllState(cfg, 5 * cfg.maxDownloads).downloads == cfg.maxDownloads
  {
  }

  /** Fair runs that hand out every ticket exist for every configuration: the liveness theorems are about something. */
  lemma FairBehaviourExists(cfg: Config) returns (st: nat -> State, act: nat -> Action)
    requires cfg.Valid()
    ensures Behaviour(cfg, st, act) && forall t :: FairTo(st, act, t)
    ensures st(5 * cfg.maxDownloads).downloads == cfg.maxDownloads
  {
    st, act := (k: nat) => ServeAllState(cfg, k), (k: nat) => ServeAllAction(cfg, k);
    hide ServeAllState, ServeAllAction, Enabled, Apply;
    ServeAllStarts(cfg);
    forall k: nat
      ensures Enabled(st(k), act(k)) && st(k + 1) == Apply(cfg, st(k), act(k))
    {
      ServeAllStep(cfg, k);
    }
    forall t: Task, k: nat
      ensures RunsOrBlocksFrom(st, act, t, k)
    {
      var j := k + 5 * cfg.maxDownloads + 7;
      AllServedRests(cfg, j, t);
      assert RunsOrBlocks(st, act, t, j);
    }
  }

  // ------------------------------------------------------ the server object

  /** The shared server object; each method is one atomic step of one goroutine. */
  class Server {
    const cfg: Config
    var downloads: nat
    var handlers: seq<Handler>
    var closers: seq<Closer>
    var once: Once
    var shutdownDone: bool
    var listenerClosed: bool
    var doneCloses: nat
    var ttl: Ttl
    var waitReturned: bool

    ghost function View(): State
      reads this
    {
      State(downloads, handlers, closers, once, shutdownDone, listenerClosed, doneCloses, ttl, waitReturned)
    }

    constructor (config: Config)
      requires config.Valid()
      ensures cfg == config && View() == INITIAL && Inv(cfg, View())
    {
      cfg := config;
      downloads, handlers, closers, once := 0, [], [], Fresh;
      shutdownDone, listenerClosed, doneCloses, ttl, waitReturned := false, false, 0, Armed, false;
      new;
      InvInitial(cfg);
    }

    method Accept(req: Request) returns (i: nat)
      requires Inv(cfg, View())
      modifies this
      ensures i == |old(handlers)| && View() == Apply(cfg, old(View()), Arrive(req)) && Inv(cfg, View())
    {
      InvKept(cfg, View(), Arrive(req));
      i := |handlers|;
      handlers := handlers + [Arrived(req)];
    }

    /** Both routes' checks, in the order the handlers make them. */
    method RunGates(i: nat)
      requires Inv(cfg, View()) && Enabled(View(), PassGates(i))
      modifies this
      ensures View() == Apply(cfg, old(View()), PassGates(i)) && Inv(cfg, View())
    {
      InvKept(cfg, View(), PassGates(i));
      var req := handlers[i].req;
      var codeOk := true;
      if cfg.pairingCode != [] {
        codeOk := ConstantTimeEqual(req.code, cfg.pairingCode);
      }
      var resolve := req.path == RESOLVE_PATH;
      var next := Passed(req);
      if !req.get || (!resolve && req.path != cfg.path) {
        next := Finished(req, None, NotFound);
      } else if req.contentLength > 0 {
        next := Finished(req, None, UploadRejected);
      } else if !codeOk {
        next := Finished(req, None, Forbidden);
      } else if resolve {
        next := Finished(req, None, ResolvedUrl);
      }
      handlers := handlers[i := next];
    }

    method AddDownload(i: nat)
      requires Inv(cfg, View()) && Enabled(View(), TakeTicket(i))
      modifies this
      ensures View() == Apply(cfg, old(View()), TakeTicket(i)) && Inv(cfg, View())
    {
      InvKept(cfg, View(), TakeTicket(i));
      downloads := downloads + 1;
      handlers := handlers[i := Ticketed(handlers[i].req, downloads)];
    }

    method Respond(i: nat)
      requires Inv(cfg, View()) && Enabled(View(), Write(i))
      modifies this
      ensures View() == Apply(cfg, old(View()), Write(i)) && Inv(cfg, View())
    {
      InvKept(cfg, View(), Write(i));
      handlers := handlers[i := Responded(handlers[i].req, handlers[i].n)];
    }

    /** The handler's tail: the last copy and every refusal launch a Close. */
    method Conclude(i: nat)
      requires Inv(cfg, View()) && Enabled(View(), Finish(i))
      modifies this
      ensures View() == Apply(cfg, old(View()), Finish(i)) && Inv(cfg, View())
    {
      InvKept(cfg, View(), Finish(i));
      var n := handlers[i].n;
      if n > cfg.maxDownloads {
        handlers := handlers[i := Finished(handlers[i].req, Some(n), Gone)];
        closers := closers + [Closer(FromHandler(i), Called)];
      } else {
        handlers := handlers[i := Finished(handlers[i].req, Some(n), Baseline)];
        if n == cfg.maxDownloads {
          closers := closers + [Closer(FromHandler(i), Called)];
        }
      }
    }

    /** The TTL goroutine's select: the timer branch launches a Close, the done branch does not. */
    method TtlSelect(timerFired: bool)
      requires Inv(cfg, View()) && ttl == Armed && (timerFired || doneCloses > 0)
      modifies this
      ensures View() == Apply(cfg, old(View()), if timerFired then TtlExpire else TtlNoticeDone) && Inv(cfg, View())
    {
      InvKept(cfg, View(), if timerFired then TtlExpire else TtlNoticeDone);
      if timerFired {
        ttl := Fired;
        closers := closers + [Closer(FromTtl, Called)];
      } else {
        ttl := Exited;
      }
    }

    /**
     One step of the Close call c: enter the once or skip it, then the three effects in
     order. A caller that finds the once busy is blocked, so the step is not enabled.
     */
    method CloseStep(c: nat) returns (ghost a: Action)
      requires Inv(cfg, View()) && CloserReady(View(), c)
      modifies this
      ensures Enabled(old(View()), a) && ActionOfCloser(a, c)
      ensures View() == Apply(cfg, old(View()), a) && Inv(cfg, View())
    {
      a := NextOfCloser(View(), c);
      NextIsEnabled(View(), c);
      InvKept(cfg, View(), a);
      hide Inv, Enabled, Gate, Verdict;
      match closers[c].pc {
        case Called =>
          if once == Fresh {
            once := Running(c);
            closers := closers[c := closers[c].(pc := ShuttingDown)];
          } else {
            closers := closers[c := closers[c].(pc := Returned)];
          }
        case ShuttingDown =>
          shutdownDone := true;
          closers := closers[c := closers[c].(pc := Unlistening)];
        case Unlistening =>
          listenerClosed := true;
          closers := closers[c := closers[c].(pc := Signalling)];
        case Signalling =>
          doneCloses := doneCloses + 1;
          closers := closers[c := closers[c].(pc := Leaving)];
        case Leaving =>
          once := Over;
          closers := closers[c := closers[c].(pc := Returned)];
      }
    }

    /** A caller of Close from outside, such as the interrupt handler. */
    method CallCloseFromOutside()
      requires Inv(cfg, View())
      modifies this
      ensures View() == Apply(cfg, old(View()), CallClose) && Inv(cfg, View())
    {
      InvKept(cfg, View(), CallClose);
      closers := closers + [Closer(FromCaller, Called)];
    }
  }
}
