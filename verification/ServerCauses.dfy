/**
 Why the server does what it does: which events launch a Close, that nothing else brings it
 down, and that every finished request got the answer it deserved.
 */
module ServerCauses {
  import opened Prelude
  import opened ShareServer

  // ------------------------------------------------- what launches a Close

  /** A Close exists only for a reason: its handler's last ticket, the fired timer, or a caller. */
  ghost predicate Justified(cfg: Config, s: State, origin: Origin) {
    match origin
    case FromHandler(i) => i < |s.handlers| && EndsWithLastTicket(cfg, s.handlers[i])
    case FromTtl => s.ttl == Fired
    case FromCaller => true
  }

  /** And for each reason but a caller at most one. */
  ghost predicate ClosersCaused(cfg: Config, s: State) {
    && (forall c | 0 <= c < |s.closers| :: Justified(cfg, s, s.closers[c].origin))
    && (forall c, d | 0 <= c < d < |s.closers| && s.closers[c].origin == s.closers[d].origin ::
          s.closers[c].origin == FromCaller)
  }

  lemma ReasonsRemain(cfg: Config, s: State, a: Action, origin: Origin)
    requires Enabled(s, a) && Justified(cfg, s, origin)
    ensures Justified(cfg, Apply(cfg, s, a), origin)
  {
    hide Gate, Verdict;
  }

  /** One step adds at most one Close, at the end; which one, and why, depends on the action alone. */
  function Launched(cfg: Config, s: State, a: Action): seq<Origin>
    requires Enabled(s, a)
  {
    match a
    case Finish(i) => if s.handlers[i].n >= cfg.maxDownloads then [FromHandler(i)] else []
    case TtlExpire => [FromTtl]
    case CallClose => [FromCaller]
    case _ => []
  }

  function Origins(closers: seq<Closer>): (r: seq<Origin>)
    ensures |r| == |closers| && forall c | 0 <= c < |closers| :: r[c] == closers[c].origin
  {
    seq(|closers|, c requires 0 <= c < |closers| => closers[c].origin)
  }

  lemma StepLaunches(cfg: Config, s: State, a: Action)
    requires Enabled(s, a)
    ensures Origins(Apply(cfg, s, a).closers) == Origins(s.closers) + Launched(cfg, s, a)
  {
    hide Gate, Verdict;
  }

  lemma NewReason(cfg: Config, s: State, a: Action)
    requires Enabled(s, a) && Launched(cfg, s, a) != []
    ensures Justified(cfg, Apply(cfg, s, a), Launched(cfg, s, a)[0])
    ensures Launched(cfg, s, a)[0] != FromCaller ==> !Justified(cfg, s, Launched(cfg, s, a)[0])
  {
    hide Gate, Verdict;
  }

  lemma CausesKept(cfg: Config, s: State, a: Action)
    requires ClosersCaused(cfg, s) && Enabled(s, a)
    ensures ClosersCaused(cfg, Apply(cfg, s, a))
  {
    hide Apply, Enabled, Justified, Launched;
    var s' := Apply(cfg, s, a);
    StepLaunches(cfg, s, a);
    var new_ := Launched(cfg, s, a);
    AtMostOne(cfg, s, a);
    if new_ != [] { NewReason(cfg, s, a); }
    var n := |s.closers|;
    assert forall c | 0 <= c < |s'.closers| :: s'.closers[c].origin == Origins(s'.closers)[c];
    assert forall c | 0 <= c < n :: s'.closers[c].origin == s.closers[c].origin;
    forall c | 0 <= c < |s'.closers|
      ensures Justified(cfg, s', s'.closers[c].origin)
    {
      if c < n { ReasonsRemain(cfg, s, a, s.closers[c].origin); }
    }
  }

  lemma AtMostOne(cfg: Config, s: State, a: Action)
    requires Enabled(s, a)
    ensures |Launched(cfg, s, a)| <= 1
  {
  }

  lemma NoneAtFirst(cfg: Config)
    ensures ClosersCaused(cfg, INITIAL)
  {
  }

  /**
   In every reachable state each Close has its cause: a handler that finished with the last
   ticket or one past it, the fired timer, or a caller; and no two have the same handler or timer.
   */
  lemma {:induction false} EveryCloseHasItsCause(cfg: Config, st: nat -> State, act: nat -> Action, k: nat)
    requires Behaviour(cfg, st, act)
    ensures ClosersCaused(cfg, st(k))
  {
    hide *;
    RunStep(cfg, st, act, 0);
    if k == 0 {
      NoneAtFirst(cfg);
    } else {
      EveryCloseHasItsCause(cfg, st, act, k - 1);
      RunStep(cfg, st, act, k - 1);
      CausesKept(cfg, st(k - 1), act(k - 1));
    }
  }

  /** A caller has called Close within the first k steps. */
  ghost predicate Called(act: nat -> Action, k: nat) { exists j: nat :: j < k && act(j) == CallClose }

  lemma {:induction false} CallersCalled(cfg: Config, st: nat -> State, act: nat -> Action, k: nat)
    requires Behaviour(cfg, st, act)
    ensures HasCloser(st(k), FromCaller) <==> Called(act, k)
  {
    hide Behaviour, Apply, Enabled;
    RunStep(cfg, st, act, 0);
    if k > 0 {
      CallersCalled(cfg, st, act, k - 1);
      RunStep(cfg, st, act, k - 1);
      var s, s', a := st(k - 1), st(k), act(k - 1);
      StepLaunches(cfg, s, a);
      ByOrigin(s.closers, FromCaller);
      ByOrigin(s'.closers, FromCaller);
    }
  }

  lemma ByOrigin(closers: seq<Closer>, origin: Origin)
    ensures (exists c | 0 <= c < |closers| :: closers[c].origin == origin) <==> origin in Origins(closers)
  {
    if c :| 0 <= c < |closers| && closers[c].origin == origin { assert Origins(closers)[c] == origin; }
  }

  /** Exactly which Closes exist in a reachable state. */
  lemma ClosesExactly(cfg: Config, st: nat -> State, act: nat -> Action, k: nat)
    requires Behaviour(cfg, st, act)
    ensures forall i: nat :: HasCloser(st(k), FromHandler(i)) <==>
              i < |st(k).handlers| && EndsWithLastTicket(cfg, st(k).handlers[i])
    ensures HasCloser(st(k), FromTtl) <==> st(k).ttl == Fired
    ensures HasCloser(st(k), FromCaller) <==> Called(act, k)
    ensures forall c, d | 0 <= c < d < |st(k).closers| && st(k).closers[c].origin == st(k).closers[d].origin ::
              st(k).closers[c].origin == FromCaller
  {
    EveryCloseHasItsCause(cfg, st, act, k);
    AlwaysInv(cfg, st, act, k);
    CallersCalled(cfg, st, act, k);
    hide Behaviour, Called, EndsWithLastTicket, TicketsExact, HandlersSound, CopiesConserved, OnceSound;
    var s := st(k);
    forall i: nat
      ensures HasCloser(s, FromHandler(i)) <==> i < |s.handlers| && EndsWithLastTicket(cfg, s.handlers[i])
    {
      if HasCloser(s, FromHandler(i)) {
        var c :| 0 <= c < |s.closers| && s.closers[c].origin == FromHandler(i);
        assert Justified(cfg, s, s.closers[c].origin);
      }
    }
    if HasCloser(s, FromTtl) {
      var c :| 0 <= c < |s.closers| && s.closers[c].origin == FromTtl;
      assert Justified(cfg, s, s.closers[c].origin);
    }
  }

  lemma NoOriginNoCloser(s: State)
    ensures (forall origin :: !HasCloser(s, origin)) ==> s.closers == []
  {
    if s.closers != [] { assert HasCloser(s, s.closers[0].origin); }
  }

  /**
   Nothing else brings the server down: while nobody called Close, the timer is armed and no
   handler finished with the last ticket, it is up, whatever requests it turned away.
   */
  lemma NothingElseCloses(cfg: Config, st: nat -> State, act: nat -> Action, k: nat)
    requires Behaviour(cfg, st, act) && !Called(act, k) && st(k).ttl == Armed
    requires forall i | 0 <= i < |st(k).handlers| :: !EndsWithLastTicket(cfg, st(k).handlers[i])
    ensures st(k).closers == [] && st(k).once == Fresh
    ensures st(k).doneCloses == 0 && !st(k).listenerClosed && !st(k).shutdownDone && !st(k).waitReturned
  {
    ClosesExactly(cfg, st, act, k);
    AlwaysInv(cfg, st, act, k);
    hide Behaviour, Called, EndsWithLastTicket, TicketsExact, HandlersSound, CopiesConserved;
    var s := st(k);
    NoOriginNoCloser(s);
  }

  /** In particular as long as fewer tickets are out than there are copies. */
  lemma UpWhileCopiesLast(cfg: Config, st: nat -> State, act: nat -> Action, k: nat)
    requires Behaviour(cfg, st, act) && !Called(act, k) && st(k).ttl == Armed && st(k).downloads < cfg.maxDownloads
    ensures st(k).closers == [] && st(k).once == Fresh && st(k).doneCloses == 0 && !st(k).listenerClosed
  {
    AlwaysInv(cfg, st, act, k);
    var s := st(k);
    forall i | 0 <= i < |s.handlers|
      ensures !EndsWithLastTicket(cfg, s.handlers[i])
    {
      var t := TicketOf(s.handlers[i]);
      if t.Some? { assert Holds(s, i, t.value); }
    }
    hide Behaviour, Inv;
    NothingElseCloses(cfg, st, act, k);
  }

  // ------------------------------------------------------ who is answered what

  /** The requests that arrived within the first k steps, in order. */
  ghost function Arrivals(act: nat -> Action, k: nat): seq<Request> {
    if k == 0 then []
    else Arrivals(act, k - 1) + match act(k - 1) { case Arrive(req) => [req] case _ => [] }
  }

  function Requests(hs: seq<Handler>): (r: seq<Request>)
    ensures |r| == |hs| && forall i | 0 <= i < |hs| :: r[i] == hs[i].req
  {
    seq(|hs|, i requires 0 <= i < |hs| => hs[i].req)
  }

  lemma StepKeepsRequests(cfg: Config, s: State, a: Action)
    requires Enabled(s, a)
    ensures Requests(Apply(cfg, s, a).handlers)
         == Requests(s.handlers) + match a { case Arrive(req) => [req] case _ => [] }
  {
    hide Gate, Verdict;
  }

  /** Handler i serves the i-th request that arrived, from its arrival to its end. */
  lemma {:induction false} HandlersServeArrivals(cfg: Config, st: nat -> State, act: nat -> Action, k: nat)
    requires Behaviour(cfg, st, act)
    ensures Requests(st(k).handlers) == Arrivals(act, k)
  {
    hide Behaviour, Apply, Enabled;
    RunStep(cfg, st, act, 0);
    if k > 0 {
      HandlersServeArrivals(cfg, st, act, k - 1);
      RunStep(cfg, st, act, k - 1);
      StepKeepsRequests(cfg, st(k - 1), act(k - 1));
    }
  }

  /** The answer a request deserves, by what it asked for and its place in the queue of tickets. */
  ghost predicate Deserves(cfg: Config, req: Request, ticket: Option<nat>, response: Response) {
    var known := req.get && (req.path == RESOLVE_PATH || req.path == cfg.path);
    match response
    case NotFound => !known && ticket == None
    case UploadRejected => known && req.contentLength > 0 && ticket == None
    case Forbidden => known && req.contentLength <= 0 && !CodeAccepted(cfg, req) && ticket == None
    case ResolvedUrl =>
      req.get && req.path == RESOLVE_PATH && req.contentLength <= 0 && CodeAccepted(cfg, req) && ticket == None
    case Baseline => Authorised(cfg, req) && ticket.Some? && 1 <= ticket.value <= cfg.maxDownloads
    case Gone => Authorised(cfg, req) && ticket.Some? && ticket.value > cfg.maxDownloads
  }

  /** Every finished request, in every reachable state, was answered as it deserved. */
  lemma AnswersAreDeserved(cfg: Config, st: nat -> State, act: nat -> Action, k: nat, i: nat)
    requires Behaviour(cfg, st, act) && i < |st(k).handlers| && st(k).handlers[i].Finished?
    ensures i < |Arrivals(act, k)|
    ensures Deserves(cfg, Arrivals(act, k)[i], st(k).handlers[i].ticket, st(k).handlers[i].response)
  {
    hide *;
    AlwaysInv(cfg, st, act, k);
    HandlersServeArrivals(cfg, st, act, k);
    var h := st(k).handlers[i];
    assert Requests(st(k).handlers)[i] == h.req;
    FinishedSound(cfg, st(k), i);
    DeservedWhenSound(cfg, h);
  }

  lemma FinishedSound(cfg: Config, s: State, i: nat)
    requires Inv(cfg, s) && i < |s.handlers| && s.handlers[i].Finished?
    ensures cfg.Valid() && HandlerSound(cfg, s.handlers[i])
    ensures s.handlers[i].ticket.Some? ==> s.handlers[i].ticket.value >= 1
  {
    hide HandlerSound, OnceSound, ClosesLaunched, CopiesConserved;
    if s.handlers[i].ticket.Some? { assert Holds(s, i, s.handlers[i].ticket.value); }
  }

  lemma DeservedWhenSound(cfg: Config, h: Handler)
    requires cfg.Valid() && h.Finished? && HandlerSound(cfg, h) && (h.ticket.Some? ==> h.ticket.value >= 1)
    ensures Deserves(cfg, h.req, h.ticket, h.response)
  {
    hide Gate;
    GateAnswers(cfg, h.req);
  }

  // --------------------------------------------------------- the two routes

  ghost predicate Spells(b: Bytes, s: string) {
    |b| == |s| && forall i | 0 <= i < |s| :: (b[i] as int) == (s[i] as int)
  }

  lemma RoutesSpelledOut()
    ensures Spells(RESOLVE_PATH, "/resolve") && Spells(TOKEN_PATH_PREFIX, "/baseline/")
  {
  }
}
