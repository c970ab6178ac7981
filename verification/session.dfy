/**
 * Clients, transport and server together. The transport names each request it takes by a serial
 * number, delivers a request and a reply at most once, and answers a pending request at most once,
 * by a reply or by an error. It may lose messages and deliver in any order.
 */
module Sessions {
  import opened Options
  import opened Bytes
  import opened Wire
  import C = Clients
  import S = Servers

  type Conn = S.Conn
  type Sn = S.Sn

  /**
   * How far the server came with a request: a worker handled it with these results of the foreign
   * calls, or its read reached the disk and ended (an error code, 0 for success).
   */
  datatype Fate = Handled(env: S.Env) | Ended(code: int)

  /** What a client sent under a serial number. */
  datatype Record = Record(conn: Conn, p: C.Ptr, user: nat, msg: Msg)

  /**
   * wire and replies hold the headers under way; pending the requests whose client awaits an
   * answer; sent and outcome are history: what was sent, and what the server has made of it.
   */
  datatype System = System(clients: map<Conn, C.Client>, server: S.Server, wire: map<Sn, seq<byte>>,
                           replies: map<Sn, seq<byte>>, pending: set<Sn>, sent: map<Sn, Record>,
                           outcome: map<Sn, Fate>)

  datatype Event =
    | Local(c: Conn, ce: C.Event)
    | Send(c: Conn, sn: Sn)
    | Deliver(sn: Sn)
    | Serve(se: S.Event)
    | Answer(ok: bool)
    | Respond(sn: Sn)
    | Fault(sn: Sn, inbound: bool)
    | LoseRequest(sn: Sn)
    | LoseReply(sn: Sn)

  /** A client step that does not involve the transport. */
  ghost predicate OwnStep(s: C.Client, e: C.Event) {
    match e
    case Transmit(ok) => !ok
    case Complete(p, retval, errval) => C.At(s, p, C.Repaid) && retval == -1 && errval == EIO
    case Lose(_) => false
    case _ => true
  }

  ghost predicate Enabled(s: System, e: Event) {
    match e
    case Local(c, ce) => c in s.clients && C.Enabled(s.clients[c], ce) && OwnStep(s.clients[c], ce)
    case Send(c, sn) => c in s.clients && s.clients[c].queue != [] && sn !in s.sent
    case Deliver(sn) => sn in s.wire && sn in s.sent && S.Enabled(s.server, S.Arrive(sn, s.sent[sn].conn, s.wire[sn]))
    case Serve(se) => !se.Arrive? && !se.Reply? && S.Enabled(s.server, se)
    case Answer(ok) => s.server.finished != []
    case Respond(sn) => sn in s.replies && sn in s.pending
    case Fault(sn, inbound) => sn in s.pending && (inbound ==> sn in s.replies)
    case LoseRequest(sn) => sn in s.wire
    case LoseReply(sn) => sn in s.replies
  }

  /** The header that the client's callback unpacks. */
  ghost function Header(s: System, e: Event): seq<byte>
    requires Enabled(s, e) && (e.Respond? || e.Fault?) && Records(s)
  {
    if e.Respond? || e.inbound then s.replies[e.sn] else Encode(s.sent[e.sn].msg)
  }

  /**
   * The callback finds a request of its client at the address in the header. Without this the
   * code reads memory that is not a request, and the step could lead anywhere.
   */
  ghost predicate Safe(s: System, e: Event)
    requires Enabled(s, e) && Records(s)
  {
    e.Respond? || e.Fault? ==>
      var m := Parse(NOOP, Header(s, e));
      m.Some? && m.value.cookie >= 0 && C.At(s.clients[s.sent[e.sn].conn], m.value.cookie, C.Sent)
  }

  ghost predicate Records(s: System) {
    && s.pending <= s.sent.Keys && s.outcome.Keys <= s.sent.Keys
    && (forall sn | sn in s.sent ::
          s.sent[sn].conn in s.clients && Sendable(s.sent[sn].msg) && s.sent[sn].msg.cookie == s.sent[sn].p)
  }

  ghost predicate Parts(s: System, depth: map<Conn, nat>) {
    && (forall c | c in s.clients :: c in depth && C.Inv(s.clients[c], depth[c]))
    && S.Inv(s.server)
  }

  ghost function Step(s: System, c: Conn, ce: C.Event): System
    requires c in s.clients && C.Queue(s.clients[c]) && C.Enabled(s.clients[c], ce)
  {
    s.(clients := s.clients[c := C.Do(s.clients[c], ce)])
  }

  /** xio_send_request takes the oldest queued request of c. */
  ghost function Sending(s: System, c: Conn, sn: Sn): System
    requires c in s.clients && C.Queue(s.clients[c]) && C.Messages(s.clients[c]) && s.clients[c].queue != []
  {
    var p := s.clients[c].queue[0];
    assert C.At(s.clients[c], p, C.Queued);
    var x := s.clients[c].live[p];
    Step(s, c, C.Transmit(true)).(wire := s.wire[sn := Encode(x.msg)], pending := s.pending + {sn},
                                  sent := s.sent[sn := Record(c, p, x.user, x.msg)])
  }

  ghost function Delivering(s: System, sn: Sn): System
    requires S.Inv(s.server) && sn in s.wire && sn in s.sent
    requires S.Enabled(s.server, S.Arrive(sn, s.sent[sn].conn, s.wire[sn]))
  {
    s.(server := S.Do(s.server, S.Arrive(sn, s.sent[sn].conn, s.wire[sn])), wire := s.wire - {sn})
  }

  ghost function Serving(s: System, se: S.Event): System
    requires S.Inv(s.server) && S.Enabled(s.server, se)
  {
    s.(server := S.Do(s.server, se),
       outcome := if se.Handle? then s.outcome[se.sn := Handled(se.env)]
                  else if se.IoDone? then s.outcome[se.sn := Ended(se.code)]
                  else s.outcome)
  }

  /** The server replies to the oldest finished request. */
  ghost function Answering(s: System, ok: bool): System
    requires S.Inv(s.server) && s.server.finished != []
  {
    var sn := s.server.finished[0];
    s.(server := S.Do(s.server, S.Reply(ok)),
       replies := if ok then s.replies[sn := s.server.reqs[sn].smsg] else s.replies)
  }

  /** A callback of the client tells the caller of the request at p. */
  ghost function Completing(s: System, sn: Sn, p: int, retval: int, errval: int): System
    requires Records(s) && sn in s.sent && C.Queue(s.clients[s.sent[sn].conn])
    requires p >= 0 && C.At(s.clients[s.sent[sn].conn], p, C.Sent)
  {
    Step(s, s.sent[sn].conn, C.Complete(p, retval, errval)).(replies := s.replies - {sn}, pending := s.pending - {sn})
  }

  ghost function Do(s: System, e: Event, depth: map<Conn, nat>): System
    requires Parts(s, depth) && Records(s) && Enabled(s, e) && Safe(s, e)
  {
    match e
    case Local(c, ce) => Step(s, c, ce)
    case Send(c, sn) => Sending(s, c, sn)
    case Deliver(sn) => Delivering(s, sn)
    case Serve(se) => Serving(s, se)
    case Answer(ok) => Answering(s, ok)
    case Respond(sn) =>
      var m := Parse(NOOP, Header(s, e)).value;
      Completing(s, sn, m.cookie, m.retval, m.errval)
    case Fault(sn, inbound) => Completing(s, sn, Parse(NOOP, Header(s, e)).value.cookie, -1, EIO)
    case LoseRequest(sn) => s.(wire := s.wire - {sn})
    case LoseReply(sn) => s.(replies := s.replies - {sn})
  }

  /** e leads from s to t; from a broken state, or when a callback is misled, it may lead anywhere. */
  ghost predicate Next(s: System, e: Event, t: System, depth: map<Conn, nat>) {
    Enabled(s, e) && (Parts(s, depth) && Records(s) && Safe(s, e) ==> t == Do(s, e, depth))
  }

  // ---- what every run keeps ----

  /**
   * The result that a request must get. Open succeeds; close succeeds exactly with a service; a read
   * that does not reach the disk had no service, no memory or was refused; one that does reports its
   * size or the error.
   */
  ghost predicate Right(m: Msg, out: Option<Fate>, retval: int, errval: int) {
    match out
    case None => false
    case Some(Handled(env)) =>
      if m.opcode == S.OPEN_REQ then retval == 0 && errval == 0
      else if m.opcode == S.CLOSE_REQ then
        if env.service then retval == 0 && errval == 0 else retval == -1 && errval == EIO
      else if m.opcode == S.READ_REQ then
        if !env.service then retval == -1 && errval == EIO
        else if env.pool < 0 && env.mem < 0 then retval == -1 && errval == S.ENOMEM
        else env.io != 0 && retval == -1 && errval == EIO
      else retval == -1 && errval == EIO
    case Some(Ended(code)) =>
      m.opcode == S.READ_REQ && errval == code && retval == if code == 0 then Cast(m.size, I64) else -1
  }

  /** The opcode of the reply to a request. */
  function ReplyOp(op: int): int {
    if op == S.OPEN_REQ then S.OPEN_RSP
    else if op == S.CLOSE_REQ then S.CLOSE_RSP
    else if op == S.READ_REQ then S.READ_RSP
    else S.ERROR_RSP
  }

  ghost function Outcome(s: System, sn: Sn): Option<Fate> {
    if sn in s.outcome then Some(s.outcome[sn]) else None
  }

  /** b is a reply that carries the cookie of m, the opcode for it and its right result. */
  ghost predicate Good(b: seq<byte>, m: Msg, out: Option<Fate>) {
    exists retval: int, errval: int ::
      && Sendable(S.Answer(ReplyOp(m.opcode), retval, errval, m.cookie))
      && b == Encode(S.Answer(ReplyOp(m.opcode), retval, errval, m.cookie))
      && Right(m, out, retval, errval)
  }

  /** An awaited request is live at its client, where it was when it was sent. */
  ghost predicate Awaited(s: System, sn: Sn)
    requires sn in s.sent && s.sent[sn].conn in s.clients
  {
    var r := s.sent[sn];
    C.At(s.clients[r.conn], r.p, C.Sent) && s.clients[r.conn].live[r.p].user == r.user
  }

  ghost predicate Pending(s: System)
    requires Records(s)
  {
    && (forall sn | sn in s.pending :: Awaited(s, sn))
    && (forall a, b | a in s.pending && b in s.pending && a != b ::
          s.sent[a].conn != s.sent[b].conn || s.sent[a].p != s.sent[b].p)
  }

  ghost predicate OnWire(s: System)
    requires Records(s)
  {
    forall sn | sn in s.wire ::
      sn in s.sent && s.wire[sn] == Encode(s.sent[sn].msg) && sn !in s.server.reqs && sn !in s.replies
        && sn !in s.outcome
  }

  /** The server works on what was sent, and what it will reply is right. */
  ghost predicate Served(r: S.Request, rec: Record, out: Option<Fate>)
    requires Sendable(rec.msg)
  {
    && r.conn == rec.conn && r.header == Encode(rec.msg)
    && (r.place == S.InQueue || r.place == S.AtWorker ==> out == None)
    && (r.place == S.InIo ==>
          && out.Some? && out.value.Handled? && rec.msg.opcode == S.READ_REQ
          && r.op == S.READ_RSP && r.cookie == rec.msg.cookie && r.size == rec.msg.size)
    && (r.place == S.InFinished || r.place == S.InDone ==> Good(r.smsg, rec.msg, out))
  }

  ghost predicate AtServer(s: System)
    requires Records(s)
  {
    forall sn | sn in s.server.reqs ::
      && sn in s.sent && Served(s.server.reqs[sn], s.sent[sn], Outcome(s, sn))
      && (s.server.reqs[sn].place != S.InDone ==> sn !in s.replies)
  }

  ghost predicate OnWayBack(s: System)
    requires Records(s)
  {
    forall sn | sn in s.replies :: sn in s.sent && Good(s.replies[sn], s.sent[sn].msg, Outcome(s, sn))
  }

  /** The server is through with the request: its result cannot change any more. */
  ghost predicate Settled(s: System, sn: Sn) {
    sn !in s.wire && (sn in s.server.reqs ==> s.server.reqs[sn].place == S.InDone)
  }

  /** A caller was told EIO, or the right result of a request of its own. */
  ghost predicate Due(s: System, c: Conn, k: C.Completion) {
    || (k.retval == -1 && k.errval == EIO)
    || (exists sn :: sn in s.sent && DueBy(s, c, k, sn))
  }

  ghost predicate DueBy(s: System, c: Conn, k: C.Completion, sn: Sn)
    requires sn in s.sent
  {
    && s.sent[sn].conn == c && s.sent[sn].user == k.user && Settled(s, sn)
    && Right(s.sent[sn].msg, Outcome(s, sn), k.retval, k.errval)
  }

  ghost predicate Told(s: System) {
    forall c, i | c in s.clients && 0 <= i < |s.clients[c].log| :: Due(s, c, s.clients[c].log[i])
  }

  ghost predicate Inv(s: System, depth: map<Conn, nat>) {
    Parts(s, depth) && Records(s) && Pending(s) && OnWire(s) && AtServer(s) && OnWayBack(s) && Told(s)
  }

  // ---- correlation ----

  lemma GoodParses(b: seq<byte>, m: Msg, out: Option<Fate>)
    requires Sendable(m) && Good(b, m, out)
    ensures Parse(NOOP, b).Some? && Parse(NOOP, b).value.cookie == m.cookie
    ensures Parse(NOOP, b).value.opcode == ReplyOp(m.opcode)
    ensures Right(m, out, Parse(NOOP, b).value.retval, Parse(NOOP, b).value.errval)
  {
    hide Parse, Encode;
    var op := ReplyOp(m.opcode);
    var retval: int, errval: int :|
      && Sendable(S.Answer(op, retval, errval, m.cookie))
      && b == Encode(S.Answer(op, retval, errval, m.cookie))
      && Right(m, out, retval, errval);
    ParseEncode(NOOP, S.Answer(op, retval, errval, m.cookie));
  }

  /**
   * Request correlation: whatever answer reaches a client, its header names, by its cookie, the
   * live request that the answer is for and no other; and a reply carries that request's right
   * result, the size exactly when the read succeeded.
   */
  lemma AnswerMatches(s: System, e: Event, depth: map<Conn, nat>)
    requires Inv(s, depth) && Enabled(s, e) && (e.Respond? || e.Fault?)
    ensures Safe(s, e)
    ensures Parse(NOOP, Header(s, e)).value.cookie == s.sent[e.sn].p && Awaited(s, e.sn)
    ensures e.Respond? ==>
              var m := Parse(NOOP, Header(s, e)).value;
              && Right(s.sent[e.sn].msg, Outcome(s, e.sn), m.retval, m.errval)
              && m.opcode == ReplyOp(s.sent[e.sn].msg.opcode)
  {
    hide Parse, Encode, Right, ReplyOp, C.Inv, S.Inv, S.Enabled, C.Enabled, AtServer, OnWire, Told, Good, Typed;
    if e.Respond? || e.inbound {
      GoodParses(s.replies[e.sn], s.sent[e.sn].msg, Outcome(s, e.sn));
    } else {
      ParseEncode(NOOP, s.sent[e.sn].msg);
    }
  }

  // ---- preservation ----

  lemma OwnKeeps(s: C.Client, e: C.Event, p: C.Ptr)
    requires C.Queue(s) && C.Enabled(s, e) && OwnStep(s, e) && C.At(s, p, C.Sent)
    ensures C.At(C.Do(s, e), p, C.Sent) && C.Do(s, e).live[p] == s.live[p]
  {
    if e.Transmit? {
      assert C.At(s, s.queue[0], C.Queued);
    }
  }

  lemma OwnLog(s: C.Client, e: C.Event)
    requires C.Queue(s) && C.Enabled(s, e) && OwnStep(s, e)
    ensures var log := C.Do(s, e).log;
            || log == s.log
            || (|log| == |s.log| + 1 && log[..|s.log|] == s.log && log[|s.log|].retval == -1
               && log[|s.log|].errval == EIO)
  {
  }

  /** History only grows, and settled requests stay as they are. */
  ghost predicate Later(s: System, t: System) {
    && (forall sn | sn in s.sent :: sn in t.sent && t.sent[sn] == s.sent[sn])
    && (forall sn | sn in s.sent && Settled(s, sn) :: Settled(t, sn) && Outcome(t, sn) == Outcome(s, sn))
  }

  /** What was due is due. */
  lemma DueLater(s: System, t: System)
    requires Later(s, t)
    ensures forall c, k | Due(s, c, k) :: Due(t, c, k)
  {
    hide Right, Settled, Outcome;
    forall c, k | Due(s, c, k)
      ensures Due(t, c, k)
    {
      if !(k.retval == -1 && k.errval == EIO) {
        var sn :| sn in s.sent && DueBy(s, c, k, sn);
        assert DueBy(t, c, k, sn);
      }
    }
  }

  lemma ToldLater(s: System, t: System)
    requires Told(s) && Later(s, t)
    requires t.clients.Keys == s.clients.Keys && (forall c | c in s.clients :: t.clients[c].log == s.clients[c].log)
    ensures Told(t)
  {
    hide Due, Later;
    DueLater(s, t);
  }

  lemma PendingSame(s: System, t: System)
    requires Records(s) && Records(t) && Pending(s) && t.pending <= s.pending && t.clients == s.clients
    requires forall sn | sn in s.sent :: sn in t.sent && t.sent[sn] == s.sent[sn]
    ensures Pending(t)
  {
    forall sn | sn in t.pending
      ensures Awaited(t, sn)
    {
      assert Awaited(s, sn);
    }
  }

  // A client step: the server, the messages and the history stay.

  lemma LocalKeeps(s: System, c: Conn, ce: C.Event, depth: map<Conn, nat>)
    requires Inv(s, depth) && c in s.clients && C.Enabled(s.clients[c], ce) && OwnStep(s.clients[c], ce)
    ensures Inv(Step(s, c, ce), depth)
  {
    hide Encode, Right, C.Do, C.Enabled, S.Inv, C.Queue, C.Once, C.Messages, C.Holding, C.Admissions;
    hide Good, Typed, OwnStep, Served, Told, Pending, Outcome;
    SameOutcome(s, Step(s, c, ce));
    C.StepKeeps(s.clients[c], ce, depth[c]);
    LocalPending(s, c, ce, depth);
    LocalTold(s, c, ce, depth);
  }

  lemma LocalPending(s: System, c: Conn, ce: C.Event, depth: map<Conn, nat>)
    requires Inv(s, depth) && c in s.clients && C.Enabled(s.clients[c], ce) && OwnStep(s.clients[c], ce)
    ensures Records(Step(s, c, ce)) && Pending(Step(s, c, ce))
  {
    hide C.Do, C.Enabled, S.Inv, C.Once, C.Messages, C.Holding, C.Admissions, Good, Typed, OwnStep, Served, Told,
         Outcome, OnWire, AtServer, OnWayBack;
    forall sn | sn in s.pending
      ensures Awaited(Step(s, c, ce), sn)
    {
      if s.sent[sn].conn == c {
        OwnKeeps(s.clients[c], ce, s.sent[sn].p);
      }
    }
  }

  lemma LocalTold(s: System, c: Conn, ce: C.Event, depth: map<Conn, nat>)
    requires Inv(s, depth) && c in s.clients && C.Enabled(s.clients[c], ce) && OwnStep(s.clients[c], ce)
    ensures Told(Step(s, c, ce))
  {
    hide C.Do, C.Enabled, S.Inv, C.Once, C.Messages, C.Holding, C.Admissions, OwnStep, Records, Pending, OnWire,
         AtServer, OnWayBack, DueBy;
    var t, x := Step(s, c, ce), s.clients[c];
    OwnLog(x, ce);
    assert Later(s, t);
    DueLater(s, t);
    forall d, i | d in t.clients && 0 <= i < |t.clients[d].log|
      ensures Due(t, d, t.clients[d].log[i])
    {
      if d == c && i < |x.log| {
        assert t.clients[d].log[i] == x.log[i];
      }
      if i < |s.clients[d].log| {
        assert Due(s, d, s.clients[d].log[i]);
      }
    }
  }

  lemma SameOutcome(s: System, t: System)
    requires t.outcome == s.outcome
    ensures forall sn :: Outcome(t, sn) == Outcome(s, sn)
  {
  }

  lemma NoOutcome(s: System, sn: Sn)
    requires sn !in s.outcome
    ensures Outcome(s, sn) == None
  {
  }

  lemma LoseRequestKeeps(s: System, sn: Sn, depth: map<Conn, nat>)
    requires Inv(s, depth)
    ensures Inv(s.(wire := s.wire - {sn}), depth)
  {
    hide Encode, S.Inv, C.Inv, Good, Typed, Told, Pending, Served, Outcome;
    var t := s.(wire := s.wire - {sn});
    SameOutcome(s, t);
    PendingSame(s, t);
    ToldLater(s, t);
  }

  lemma LoseReplyKeeps(s: System, sn: Sn, depth: map<Conn, nat>)
    requires Inv(s, depth)
    ensures Inv(s.(replies := s.replies - {sn}), depth)
  {
    hide Encode, S.Inv, C.Inv, Good, Typed, Told, Pending, Served, Outcome;
    var t := s.(replies := s.replies - {sn});
    SameOutcome(s, t);
    PendingSame(s, t);
    ToldLater(s, t);
  }

  // Sending: a new serial number.

  lemma TransmitEffect(s: C.Client)
    requires C.Queue(s) && C.Messages(s) && s.queue != []
    ensures var p, t := s.queue[0], C.Do(s, C.Transmit(true));
            && C.At(s, p, C.Queued) && C.At(t, p, C.Sent) && t.live[p].user == s.live[p].user
            && Sendable(s.live[p].msg) && s.live[p].msg.cookie == p && t.log == s.log
            && forall q | q in s.live && q != p :: q in t.live && t.live[q] == s.live[q]
  {
    assert C.At(s, s.queue[0], C.Queued);
  }

  lemma SendKeeps(s: System, c: Conn, sn: Sn, depth: map<Conn, nat>)
    requires Inv(s, depth) && Enabled(s, Send(c, sn))
    ensures Inv(Sending(s, c, sn), depth)
  {
    hide C.Do, S.Inv, C.Queue, C.Once, C.Messages, C.Holding, C.Admissions;
    hide Told, Pending, OnWire, AtServer, OnWayBack, Records;
    C.StepKeeps(s.clients[c], C.Transmit(true), depth[c]);
    SendPending(s, c, sn, depth);
    SendMessages(s, c, sn, depth);
    SendTold(s, c, sn, depth);
  }

  lemma SendMessages(s: System, c: Conn, sn: Sn, depth: map<Conn, nat>)
    requires Inv(s, depth) && Enabled(s, Send(c, sn)) && Records(Sending(s, c, sn))
    ensures OnWire(Sending(s, c, sn)) && AtServer(Sending(s, c, sn)) && OnWayBack(Sending(s, c, sn))
  {
    hide Encode, C.Do, S.Inv, C.Queue, C.Once, C.Messages, C.Holding, C.Admissions, Sendable;
    hide Good, Served, Told, Pending, Outcome;
    SameOutcome(s, Sending(s, c, sn));
  }

  lemma SendTold(s: System, c: Conn, sn: Sn, depth: map<Conn, nat>)
    requires Inv(s, depth) && Enabled(s, Send(c, sn))
    ensures Told(Sending(s, c, sn))
  {
    hide Encode, C.Do, S.Inv, C.Queue, C.Once, C.Messages, C.Holding, C.Admissions, Sendable;
    hide Told, Pending, Outcome, OnWire, AtServer, OnWayBack;
    TransmitEffect(s.clients[c]);
    SameOutcome(s, Sending(s, c, sn));
    ToldLater(s, Sending(s, c, sn));
  }

  lemma SendPending(s: System, c: Conn, sn: Sn, depth: map<Conn, nat>)
    requires Inv(s, depth) && Enabled(s, Send(c, sn))
    ensures Records(Sending(s, c, sn)) && Pending(Sending(s, c, sn))
  {
    hide Encode, C.Do, S.Inv, C.Queue, C.Once, C.Messages, C.Holding, C.Admissions, Sendable;
    hide Told, Outcome, OnWire, AtServer, OnWayBack;
    TransmitEffect(s.clients[c]);
  }

  // The server's steps.

  lemma ArriveEffect(s: S.Server, sn: Sn, c: Conn, header: seq<byte>)
    requires S.Inv(s) && S.Enabled(s, S.Arrive(sn, c, header))
    ensures S.Do(s, S.Arrive(sn, c, header)).reqs == s.reqs[sn := S.Fresh(c, header)]
  {
  }

  lemma DeliverKeeps(s: System, sn: Sn, depth: map<Conn, nat>)
    requires Inv(s, depth) && Enabled(s, Deliver(sn))
    ensures Inv(Delivering(s, sn), depth)
  {
    hide Encode, S.Inv, S.Do, S.Enabled, C.Inv, Good, Sendable, Told, Pending, Outcome;
    var t := Delivering(s, sn);
    var c, header := s.sent[sn].conn, s.wire[sn];
    S.StepKeeps(s.server, S.Arrive(sn, c, header));
    ArriveEffect(s.server, sn, c, header);
    SameOutcome(s, t);
    NoOutcome(s, sn);
    PendingSame(s, t);
    DeliverTold(s, sn, depth);
  }

  lemma DeliverTold(s: System, sn: Sn, depth: map<Conn, nat>)
    requires Inv(s, depth) && Enabled(s, Deliver(sn))
    ensures Told(Delivering(s, sn))
  {
    hide Encode, S.Inv, S.Do, S.Enabled, C.Inv, Sendable, Told, Pending, Outcome, OnWire, AtServer, OnWayBack;
    var t := Delivering(s, sn);
    ArriveEffect(s.server, sn, s.sent[sn].conn, s.wire[sn]);
    SameOutcome(s, t);
    ToldLater(s, t);
  }

  /** What a server step between delivery and reply does to a request. */
  ghost predicate Moves(k: Sn, r: S.Request, q: S.Request, se: S.Event) {
    || q == r
    || (se.Take? && r.place == S.InQueue && q == r.(place := S.AtWorker))
    || (se.Handle? && k == se.sn && r.place == S.AtWorker && S.RequestOk(r) && q == S.Process(r, se.env))
    || (se.IoDone? && k == se.sn && r.place == S.InIo && S.RequestOk(r) && -I32 <= se.code < I32
       && q == S.Completed(r, se.code))
  }

  lemma ServeEffect(s: S.Server, se: S.Event, k: Sn)
    requires S.Inv(s) && S.Enabled(s, se) && !se.Arrive? && !se.Reply? && k in S.Do(s, se).reqs
    ensures k in s.reqs && Moves(k, s.reqs[k], S.Do(s, se).reqs[k], se)
    ensures se.IoDone? && k == se.sn ==> s.reqs[k].place == S.InIo && S.Do(s, se).reqs[k].place == S.InFinished
    ensures se.Handle? && k == se.sn ==> s.reqs[k].place == S.AtWorker && S.Do(s, se).reqs[k].place != S.AtWorker
  {
    hide S.Counts, S.Lists, S.Handling, Encode, Cast, S.RequestOk;
    S.Members(s);
    if se.Take? {
      S.ListsPop(s.inflight, S.AtPlace(s, S.InQueue));
    } else if se.SendComplete? {
      S.ListsPop(s.data[se.c].done, S.DoneOf(s, se.c));
    }
  }

  lemma TakeGood(r: S.Request, rec: Record, out: Option<Fate>)
    requires Sendable(rec.msg) && Served(r, rec, out) && r.place == S.InQueue
    ensures Served(r.(place := S.AtWorker), rec, out)
  {
  }

  /** process_request on a request as it was sent: a reply that is right, or a read under way. */
  lemma ProcessGood(r: S.Request, rec: Record, env: S.Env)
    requires Sendable(rec.msg) && Served(r, rec, None) && S.RequestOk(r) && r.place == S.AtWorker
    ensures Served(S.Process(r, env), rec, Some(Handled(env)))
  {
    hide Parse, Encode;
    ParseEncode(NOOP, rec.msg);
    S.HandlingTyped(r, env);
    var h := S.Handling(r, env);
    if h.finishNow {
      assert Right(rec.msg, Some(Handled(env)), h.retval, h.errval);
      assert h.cookie == rec.msg.cookie && h.op == ReplyOp(rec.msg.opcode);
      assert Sendable(S.Answer(h.op, h.retval, h.errval, rec.msg.cookie));
    }
  }

  lemma CompletedGood(r: S.Request, rec: Record, out: Option<Fate>, code: int)
    requires Sendable(rec.msg) && Served(r, rec, out) && S.RequestOk(r) && r.place == S.InIo && -I32 <= code < I32
    ensures Served(S.Completed(r, code), rec, Some(Ended(code)))
  {
    hide Parse, Encode, Cast;
    var q := S.Completed(r, code);
    assert Right(rec.msg, Some(Ended(code)), q.retval, q.errval);
    assert Sendable(S.Answer(q.op, q.retval, q.errval, rec.msg.cookie)) by { CastRange(r.size); }
  }

  lemma CastRange(i: int)
    ensures -I64 <= Cast(i, I64) < I64
  {
  }

  lemma ServeOne(s: System, se: S.Event, k: Sn, depth: map<Conn, nat>)
    requires Inv(s, depth) && Enabled(s, Serve(se)) && k in Serving(s, se).server.reqs
    ensures var t := Serving(s, se);
            && k in s.server.reqs && k in s.sent && Served(t.server.reqs[k], t.sent[k], Outcome(t, k))
            && (t.server.reqs[k].place == S.InDone <==> s.server.reqs[k].place == S.InDone)
  {
    hide Encode, S.Inv, S.Do, S.Enabled, C.Inv, Good, Sendable, Told, Pending, OnWire, OnWayBack, Served, S.Completed,
         S.Process, S.RequestOk;
    ServeEffect(s.server, se, k);
    var r, rec := s.server.reqs[k], s.sent[k];
    var q := Serving(s, se).server.reqs[k];
    assert Served(r, rec, Outcome(s, k));
    PlaceOutcome(r, rec, Outcome(s, k));
    if q != r {
      if se.Take? {
        TakeGood(r, rec, Outcome(s, k));
      } else if se.Handle? {
        ProcessGood(r, rec, se.env);
        ProcessPlace(r, se.env);
      } else {
        CompletedGood(r, rec, Outcome(s, k), se.code);
      }
    }
  }

  lemma PlaceOutcome(r: S.Request, rec: Record, out: Option<Fate>)
    requires Sendable(rec.msg) && Served(r, rec, out)
    ensures r.place == S.InQueue || r.place == S.AtWorker ==> out == None
  {
  }

  lemma ProcessPlace(r: S.Request, env: S.Env)
    requires S.RequestOk(r)
    ensures S.Process(r, env).place == S.InIo || S.Process(r, env).place == S.InFinished
  {
  }

  lemma ServeKeeps(s: System, se: S.Event, depth: map<Conn, nat>)
    requires Inv(s, depth) && Enabled(s, Serve(se))
    ensures Inv(Serving(s, se), depth)
  {
    hide Encode, S.Inv, S.Do, C.Inv, Good, Sendable, Told, Pending, OnWire, AtServer, OnWayBack, S.Enabled;
    var t := Serving(s, se);
    S.StepKeeps(s.server, se);
    ServeRecords(s, se, depth);
    PendingSame(s, t);
    ServeMessages(s, se, depth);
    ServeTold(s, se, depth);
  }

  /** The outcome of a request that no worker and not the I/O executor has does not change. */
  lemma ServeRecords(s: System, se: S.Event, depth: map<Conn, nat>)
    requires Inv(s, depth) && Enabled(s, Serve(se))
    ensures Records(Serving(s, se))
    ensures forall k ::
              || Outcome(Serving(s, se), k) == Outcome(s, k)
              || (k in s.server.reqs && (s.server.reqs[k].place == S.AtWorker || s.server.reqs[k].place == S.InIo))
    ensures Serving(s, se).outcome.Keys <= s.outcome.Keys + s.server.reqs.Keys
  {
    hide Encode, S.Do, C.Inv, Good, Sendable, Told, Pending, OnWire, OnWayBack, Served, S.Counts, S.Lists, S.Fields,
         S.Backed;
    S.Members(s.server);
  }

  lemma ServeMessages(s: System, se: S.Event, depth: map<Conn, nat>)
    requires Inv(s, depth) && Enabled(s, Serve(se)) && Records(Serving(s, se))
    ensures OnWire(Serving(s, se)) && AtServer(Serving(s, se)) && OnWayBack(Serving(s, se))
  {
    hide Encode, S.Inv, S.Do, S.Enabled, C.Inv, Good, Sendable, Told, Pending, Served, Outcome;
    var t := Serving(s, se);
    ServeRecords(s, se, depth);
    forall k | k in t.server.reqs
      ensures k in s.server.reqs && k in t.sent && Served(t.server.reqs[k], t.sent[k], Outcome(t, k))
      ensures t.server.reqs[k].place != S.InDone ==> k !in t.replies
    {
      ServeOne(s, se, k, depth);
    }
  }

  lemma ServeTold(s: System, se: S.Event, depth: map<Conn, nat>)
    requires Inv(s, depth) && Enabled(s, Serve(se))
    ensures Told(Serving(s, se))
  {
    hide Encode, S.Inv, S.Do, S.Enabled, C.Inv, Good, Sendable, Told, Pending, Served, Outcome, OnWire, AtServer,
         OnWayBack;
    var t := Serving(s, se);
    ServeRecords(s, se, depth);
    forall k | k in t.server.reqs
      ensures k in s.server.reqs && (t.server.reqs[k].place == S.InDone <==> s.server.reqs[k].place == S.InDone)
    {
      ServeOne(s, se, k, depth);
    }
    ToldLater(s, t);
  }

  lemma ReplyEffect(s: S.Server, ok: bool)
    requires S.Inv(s) && s.finished != []
    ensures var sn := s.finished[0];
            && sn in s.reqs && s.reqs[sn].place == S.InFinished
            && S.Do(s, S.Reply(ok)).reqs == if ok then s.reqs[sn := s.reqs[sn].(place := S.InDone)] else s.reqs - {sn}
  {
    hide S.Counts, S.Lists, S.Fields;
    S.Members(s);
    S.ListsPop(s.finished, S.AtPlace(s, S.InFinished));
  }

  lemma AnswerKeeps(s: System, ok: bool, depth: map<Conn, nat>)
    requires Inv(s, depth) && s.server.finished != []
    ensures Inv(Answering(s, ok), depth)
  {
    hide Encode, S.Inv, S.Do, C.Inv, Good, Sendable, Told, Pending, OnWire, AtServer, OnWayBack;
    var t := Answering(s, ok);
    S.StepKeeps(s.server, S.Reply(ok));
    PendingSame(s, t);
    AnswerMessages(s, ok, depth);
    ReplyEffect(s.server, ok);
    SameOutcome(s, t);
    ToldLater(s, t);
  }

  lemma AnswerMessages(s: System, ok: bool, depth: map<Conn, nat>)
    requires Inv(s, depth) && s.server.finished != []
    ensures OnWire(Answering(s, ok)) && AtServer(Answering(s, ok)) && OnWayBack(Answering(s, ok))
  {
    hide Encode, S.Inv, S.Do, C.Inv, Good, Sendable, Told, Pending, Outcome;
    ReplyEffect(s.server, ok);
    SameOutcome(s, Answering(s, ok));
  }

  // An answer reaches the client.

  lemma CompleteEffect(s: C.Client, p: C.Ptr, retval: int, errval: int)
    requires C.Queue(s) && C.At(s, p, C.Sent)
    ensures var t := C.Do(s, C.Complete(p, retval, errval));
            && t.log == s.log + [C.Completion(s.live[p].user, retval, errval)]
            && forall q | q in s.live && q != p :: q in t.live && t.live[q] == s.live[q]
  {
  }

  lemma CompletePending(s: System, sn: Sn, retval: int, errval: int, depth: map<Conn, nat>)
    requires Inv(s, depth) && sn in s.pending && Awaited(s, sn)
    ensures Records(Completing(s, sn, s.sent[sn].p, retval, errval))
    ensures Pending(Completing(s, sn, s.sent[sn].p, retval, errval))
  {
    hide Encode, C.Do, S.Inv, C.Queue, C.Once, C.Messages, C.Holding, C.Admissions, Sendable;
    hide Told, Outcome, OnWire, AtServer, OnWayBack;
    var r := s.sent[sn];
    CompleteEffect(s.clients[r.conn], r.p, retval, errval);
    var t := Completing(s, sn, r.p, retval, errval);
    forall k | k in t.pending
      ensures Awaited(t, k)
    {
      assert Awaited(s, k);
    }
  }

  lemma CompleteTold(s: System, sn: Sn, retval: int, errval: int, depth: map<Conn, nat>)
    requires Inv(s, depth) && sn in s.pending && Awaited(s, sn)
    requires (retval == -1 && errval == EIO)
               || (Settled(s, sn) && Right(s.sent[sn].msg, Outcome(s, sn), retval, errval))
    ensures Told(Completing(s, sn, s.sent[sn].p, retval, errval))
  {
    hide Encode, C.Do, S.Inv, C.Queue, C.Once, C.Messages, C.Holding, C.Admissions, Sendable, Right;
    hide Pending, OnWire, AtServer, OnWayBack;
    var r := s.sent[sn];
    var x := s.clients[r.conn];
    var t := Completing(s, sn, r.p, retval, errval);
    CompleteEffect(x, r.p, retval, errval);
    assert Later(s, t);
    DueLater(s, t);
    var last := C.Completion(r.user, retval, errval);
    assert Due(s, r.conn, last) by { assert (last.retval == -1 && last.errval == EIO) || DueBy(s, r.conn, last, sn); }
    forall c, i | c in t.clients && 0 <= i < |t.clients[c].log|
      ensures Due(t, c, t.clients[c].log[i])
    {
      if i < |s.clients[c].log| {
        assert t.clients[c].log[i] == s.clients[c].log[i];
        assert Due(s, c, s.clients[c].log[i]);
      } else {
        assert t.clients[c].log[i] == last;
      }
    }
  }

  lemma CompleteTransit(s: System, sn: Sn, retval: int, errval: int, depth: map<Conn, nat>)
    requires Inv(s, depth) && sn in s.pending && Awaited(s, sn)
    requires Records(Completing(s, sn, s.sent[sn].p, retval, errval))
    ensures var t := Completing(s, sn, s.sent[sn].p, retval, errval); OnWire(t) && AtServer(t) && OnWayBack(t)
  {
    hide Encode, C.Do, S.Inv, C.Queue, C.Once, C.Messages, C.Holding, C.Admissions, Sendable;
    hide Good, Served, Told, Pending, Outcome;
    SameOutcome(s, Completing(s, sn, s.sent[sn].p, retval, errval));
  }

  lemma CompleteKeeps(s: System, sn: Sn, retval: int, errval: int, depth: map<Conn, nat>)
    requires Inv(s, depth) && sn in s.pending && Awaited(s, sn)
    requires (retval == -1 && errval == EIO)
               || (Settled(s, sn) && Right(s.sent[sn].msg, Outcome(s, sn), retval, errval))
    ensures Inv(Completing(s, sn, s.sent[sn].p, retval, errval), depth)
  {
    hide Encode, C.Do, S.Inv, C.Queue, C.Once, C.Messages, C.Holding, C.Admissions, Sendable, Right;
    hide OnWire, AtServer, OnWayBack, Told, Pending, Outcome;
    var r := s.sent[sn];
    C.StepKeeps(s.clients[r.conn], C.Complete(r.p, retval, errval), depth[r.conn]);
    CompletePending(s, sn, retval, errval, depth);
    CompleteTransit(s, sn, retval, errval, depth);
    CompleteTold(s, sn, retval, errval, depth);
  }

  /** Every step keeps the invariant; in particular no callback is ever misled by its header. */
  lemma StepKeeps(s: System, e: Event, t: System, depth: map<Conn, nat>)
    requires Inv(s, depth) && Next(s, e, t, depth)
    ensures Safe(s, e) && Inv(t, depth)
  {
    hide Parse, Header, Right, C.Inv, S.Inv, C.Enabled, OwnStep, Told, OnWayBack, Pending;
    hide Step, Sending, Delivering, Serving, Answering, Completing;
    match e
    case Local(c, ce) => LocalKeeps(s, c, ce, depth);
    case Send(c, sn) => SendKeeps(s, c, sn, depth);
    case Deliver(sn) => DeliverKeeps(s, sn, depth);
    case Serve(se) => ServeKeeps(s, se, depth);
    case Answer(ok) => AnswerKeeps(s, ok, depth);
    case Respond(sn) =>
      AnswerMatches(s, e, depth);
      var m := Parse(NOOP, Header(s, e)).value;
      CompleteKeeps(s, sn, m.retval, m.errval, depth);
    case Fault(sn, _) =>
      AnswerMatches(s, e, depth);
      CompleteKeeps(s, sn, -1, EIO, depth);
    case LoseRequest(sn) => LoseRequestKeeps(s, sn, depth);
    case LoseReply(sn) => LoseReplyKeeps(s, sn, depth);
  }

  // ---- runs ----

  /** trace[0], es[0], trace[1], es[1], ... is an interleaving of all the parties. */
  ghost predicate Run(trace: seq<System>, es: seq<Event>, depth: map<Conn, nat>) {
    && |trace| == |es| + 1
    && (forall i | 0 <= i < |es| :: Next(trace[i], es[i], trace[i + 1], depth))
  }

  lemma {:induction false} RunKeeps(trace: seq<System>, es: seq<Event>, depth: map<Conn, nat>, n: nat)
    requires Run(trace, es, depth) && Inv(trace[0], depth) && n <= |es|
    ensures Inv(trace[n], depth)
    decreases n
  {
    hide Inv, Next;
    if n > 0 {
      RunKeeps(trace, es, depth, n - 1);
      StepKeeps(trace[n - 1], es[n - 1], trace[n], depth);
    }
  }

  /** No connection yet, fresh clients, nothing under way. */
  ghost function Initial(depth: map<Conn, nat>): System {
    System(map c | c in depth :: C.Fresh(depth[c]), S.START, map[], map[], {}, map[], map[])
  }

  lemma InitialInv(depth: map<Conn, nat>)
    ensures Inv(Initial(depth), depth)
  {
    hide C.Inv, S.Inv;
    S.StartInv();
    forall c | c in depth
      ensures C.Inv(C.Fresh(depth[c]), depth[c])
    {
      C.FreshInv(depth[c]);
    }
  }

  lemma RespondEffect(s: System, e: Event, t: System, depth: map<Conn, nat>)
    requires Inv(s, depth) && Next(s, e, t, depth) && e.Respond?
    ensures var r := s.sent[e.sn];
            && t.sent == s.sent && e.sn !in t.pending && r.conn in t.clients
            && (forall c | c in s.clients && c != r.conn :: c in t.clients && t.clients[c] == s.clients[c])
            && exists retval, errval ::
                 && Right(r.msg, Outcome(s, e.sn), retval, errval)
                 && t.clients[r.conn].log == s.clients[r.conn].log + [C.Completion(r.user, retval, errval)]
    ensures !C.Told(s.clients[s.sent[e.sn].conn], s.sent[e.sn].user)
  {
    hide Parse, Header, Right, C.Do, C.Enabled, OwnStep, Told, OnWayBack, OnWire, AtServer, C.Told, S.Inv, C.Messages,
         C.Holding, C.Admissions, C.Queue;
    AnswerMatches(s, e, depth);
    var m := Parse(NOOP, Header(s, e)).value;
    CompleteEffect(s.clients[s.sent[e.sn].conn], s.sent[e.sn].p, m.retval, m.errval);
  }

  /**
   * In every interleaving, a response completes exactly the request whose serial number it
   * answers: one caller is told, for the first time and with that request's right result, and
   * no other client is touched.
   */
  lemma EveryResponse(trace: seq<System>, es: seq<Event>, depth: map<Conn, nat>, n: nat)
    requires Run(trace, es, depth) && trace[0] == Initial(depth) && n < |es| && es[n].Respond?
    ensures Inv(trace[n], depth)
    ensures var s, t, sn := trace[n], trace[n + 1], es[n].sn;
            var r := s.sent[sn];
            && t.sent == s.sent && sn !in t.pending && r.conn in t.clients
            && (forall c | c in s.clients && c != r.conn :: c in t.clients && t.clients[c] == s.clients[c])
            && exists retval, errval ::
                 && Right(r.msg, Outcome(s, sn), retval, errval)
                 && t.clients[r.conn].log == s.clients[r.conn].log + [C.Completion(r.user, retval, errval)]
    ensures !C.Told(trace[n].clients[trace[n].sent[es[n].sn].conn], trace[n].sent[es[n].sn].user)
  {
    hide Next, Right, Outcome, Told, OnWayBack, OnWire, AtServer, C.Told, S.Inv, C.Inv, Initial;
    InitialInv(depth);
    RunKeeps(trace, es, depth, n);
    RespondEffect(trace[n], es[n], trace[n + 1], depth);
  }

  lemma StaysAnswered(s: System, e: Event, t: System, depth: map<Conn, nat>, sn: Sn)
    requires Inv(s, depth) && Next(s, e, t, depth) && sn in s.sent
    requires sn !in s.pending || ((e.Respond? || e.Fault?) && e.sn == sn)
    ensures sn in t.sent && sn !in t.pending
  {
    hide Parse, Header, C.Inv, S.Inv, C.Enabled, S.Enabled, OwnStep, Told, OnWayBack, OnWire, AtServer, C.Do, S.Do;
    StepKeeps(s, e, t, depth);
  }

  lemma {:induction false} StaysAnsweredLater(trace: seq<System>, es: seq<Event>, depth: map<Conn, nat>, i: nat,
          j: nat, sn: Sn)
    requires Run(trace, es, depth) && trace[0] == Initial(depth) && i <= j <= |es|
    requires sn in trace[i].sent && sn !in trace[i].pending
    ensures sn in trace[j].sent && sn !in trace[j].pending
    decreases j
  {
    hide Next, Inv, Initial;
    if i < j {
      StaysAnsweredLater(trace, es, depth, i, j - 1, sn);
      InitialInv(depth);
      RunKeeps(trace, es, depth, j - 1);
      StaysAnswered(trace[j - 1], es[j - 1], trace[j], depth, sn);
    }
  }

  /** No two answers of a run, responses or errors, are for the same request. */
  lemma AnsweredOnce(trace: seq<System>, es: seq<Event>, depth: map<Conn, nat>, i: nat, j: nat)
    requires Run(trace, es, depth) && trace[0] == Initial(depth) && i < j < |es|
    requires (es[i].Respond? || es[i].Fault?) && (es[j].Respond? || es[j].Fault?)
    ensures es[i].sn != es[j].sn
  {
    hide Initial, Safe, Do, Parts, C.Enabled, S.Enabled, OwnStep, Told, OnWire, AtServer, OnWayBack, Pending;
    InitialInv(depth);
    RunKeeps(trace, es, depth, i);
    assert Next(trace[i], es[i], trace[i + 1], depth) && Next(trace[j], es[j], trace[j + 1], depth);
    StaysAnswered(trace[i], es[i], trace[i + 1], depth, es[i].sn);
    StaysAnsweredLater(trace, es, depth, i + 1, j, es[i].sn);
  }

  /** A read of 1 to 2^63 - 1 bytes returns its size exactly when its I/O succeeded, and a negative number otherwise. */
  lemma ReadResult(m: Msg, out: Option<Fate>, retval: int, errval: int)
    requires m.opcode == S.READ_REQ && 0 < m.size < I64 && Right(m, out, retval, errval)
    ensures retval == m.size <==> out == Some(Ended(0))
    ensures retval < 0 <==> out != Some(Ended(0))
  {
  }

  /** From 2^63 bytes on the size does not fit ssize_t, and a successful read reports a negative number. */
  lemma HugeRead(m: Msg, retval: int, errval: int)
    requires m.opcode == S.READ_REQ && I64 <= m.size < TWO_64 && Right(m, Some(Ended(0)), retval, errval)
    ensures retval == m.size - TWO_64 && retval < 0
  {
  }
}
