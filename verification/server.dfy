/**
 * NetworkXioServer with its work queue and I/O handlers, on values. A request is named by the
 * serial number of the transport message it serves. Each step is what one thread does between
 * two points where it hands a request on: the transport thread, a worker or an I/O completion
 * thread.
 */
module Servers {
  import opened Bytes
  import opened Wire

  type Conn = nat
  type Sn = nat

  const ENOMEM := 12
  const EBADMSG := 74

  // NetworkXioMsgOpcode
  const OPEN_REQ := 1
  const OPEN_RSP := 2
  const CLOSE_REQ := 3
  const CLOSE_RSP := 4
  const READ_REQ := 5
  const READ_RSP := 6
  const ERROR_RSP := 7

  /** Who owns a request: the inflight queue, a worker, the I/O executor, the finished queue, ncd_done_reqs. */
  datatype Place = InQueue | AtWorker | InIo | InFinished | InDone

  datatype Request = Request(conn: Conn, header: seq<byte>, place: Place, op: int, cookie: int,
                             size: int, retval: int, errval: int, smsg: seq<byte>)

  /** NetworkXioClientData */
  datatype ClientData = ClientData(refcnt: int, disconnected: bool, done: seq<Sn>)

  /** `data` holds the client data not deleted, `known` the connections ever set up, `torn` those torn down. */
  datatype Server = Server(reqs: map<Sn, Request>, inflight: seq<Sn>, working: set<Sn>, inIo: set<Sn>,
                           finished: seq<Sn>, data: map<Conn, ClientData>, known: set<Conn>, torn: set<Conn>)

  const START := Server(map[], [], {}, {}, [], map[], {}, {})

  // ---- processing one request ----

  /** Results of the foreign calls: a service handle, xio_mempool_alloc, xio_mem_alloc, IOExecFileRead. */
  datatype Env = Env(service: bool, pool: int, mem: int, io: int)

  /** The fields that a handler leaves for pack_msg, and whether the worker finishes the request. */
  datatype Handled = Handled(op: int, cookie: int, size: int, retval: int, errval: int, finishNow: bool)

  function Reading(r: Request, m: Msg, env: Env): Handled {
    if !env.service then Handled(READ_RSP, m.cookie, r.size, -1, EIO, true)
    else if env.pool < 0 && env.mem < 0 then Handled(READ_RSP, m.cookie, r.size, -1, ENOMEM, true)
    else if env.io != 0 then Handled(READ_RSP, m.cookie, m.size, -1, EIO, true)
    else Handled(READ_RSP, m.cookie, m.size, r.retval, r.errval, false)
  }

  /** process_request */
  ghost function Handling(r: Request, env: Env): Handled {
    match Parse(NOOP, r.header)
    case None => Handled(ERROR_RSP, r.cookie, r.size, -1, EBADMSG, true)
    case Some(m) =>
      if m.opcode == OPEN_REQ then Handled(OPEN_RSP, m.cookie, r.size, 0, 0, true)
      else if m.opcode == CLOSE_REQ then
        if env.service then Handled(CLOSE_RSP, m.cookie, r.size, 0, 0, true)
        else Handled(CLOSE_RSP, m.cookie, r.size, -1, EIO, true)
      else if m.opcode == READ_REQ then Reading(r, m, env)
      else Handled(ERROR_RSP, m.cookie, r.size, -1, EIO, true)
  }

  /** The message that pack_msg sends for a request. */
  function Answer(op: int, retval: int, errval: int, cookie: int): Msg {
    Msg(op, [], 0, 0, retval, errval, cookie, 0)
  }

  ghost predicate RequestOk(r: Request) {
    0 <= r.cookie < TWO_64 && 0 <= r.size < TWO_64 && -I32 <= r.op < I32
  }

  ghost function Process(r: Request, env: Env): Request
    requires RequestOk(r)
  {
    var h := Handling(r, env);
    var q := r.(op := h.op, cookie := h.cookie, size := h.size, retval := h.retval, errval := h.errval);
    if h.finishNow then
      HandlingTyped(r, env);
      q.(place := InFinished, smsg := Encode(Answer(h.op, h.retval, h.errval, h.cookie)))
    else q.(place := InIo)
  }

  lemma HandlingTyped(r: Request, env: Env)
    requires RequestOk(r)
    ensures var h := Handling(r, env);
            && 0 <= h.cookie < TWO_64 && 0 <= h.size < TWO_64 && -I32 <= h.op < I32
            && (h.finishNow ==> Sendable(Answer(h.op, h.retval, h.errval, h.cookie)))
  {
    hide Parse;
    if Parse(NOOP, r.header).Some? {
      ParseTyped(NOOP, r.header);
    }
  }

  /** gxio_completion_handler for a read: size_t to ssize_t on success. */
  ghost function Completed(r: Request, code: int): Request
    requires RequestOk(r) && -I32 <= code < I32
  {
    var retval, errval := if code == 0 then Cast(r.size, I64) else -1, code;
    r.(retval := retval, errval := errval, place := InFinished, smsg := Encode(Answer(r.op, retval, errval, r.cookie)))
  }

  // ---- steps ----

  datatype Event =
    | Connect(c: Conn)
    | Arrive(sn: Sn, c: Conn, header: seq<byte>)
    | Take
    | Handle(sn: Sn, env: Env)
    | IoDone(sn: Sn, code: int)
    | Reply(ok: bool)
    | SendComplete(c: Conn)
    | Disconnect(c: Conn)

  /** When the step can happen; the transport opens and tears down a connection once and delivers in between. */
  ghost predicate Enabled(s: Server, e: Event) {
    match e
    case Connect(c) => c !in s.known
    case Arrive(sn, c, _) => c in s.data && !s.data[c].disconnected && sn !in s.reqs
    case Take => s.inflight != []
    case Handle(sn, _) => sn in s.working
    case IoDone(sn, code) => sn in s.inIo && -I32 <= code < I32
    case Reply(_) => s.finished != []
    case SendComplete(c) => c in s.data && s.data[c].done != []
    case Disconnect(c) => c in s.data && !s.data[c].disconnected
  }

  function Fresh(c: Conn, header: seq<byte>): Request {
    Request(c, header, InQueue, 0, 0, 0, 0, 0, [])
  }

  /** free_request */
  ghost function Free(s: Server, sn: Sn): Server
    requires sn in s.reqs && s.reqs[sn].conn in s.data
  {
    var c := s.reqs[sn].conn;
    var d := s.data[c].(refcnt := s.data[c].refcnt - 1);
    s.(reqs := s.reqs - {sn}, data := if d.disconnected && d.refcnt == 0 then s.data - {c} else s.data[c := d])
  }

  ghost function Do(s: Server, e: Event): Server
    requires Inv(s) && Enabled(s, e)
  {
    match e
    case Connect(c) => s.(data := s.data[c := ClientData(0, false, [])], known := s.known + {c})
    case Arrive(sn, c, header) =>
      s.(reqs := s.reqs[sn := Fresh(c, header)], inflight := s.inflight + [sn],
         data := s.data[c := s.data[c].(refcnt := s.data[c].refcnt + 1)])
    case Take =>
      var sn := s.inflight[0];
      s.(reqs := s.reqs[sn := s.reqs[sn].(place := AtWorker)], inflight := s.inflight[1..], working := s.working + {sn})
    case Handle(sn, env) =>
      var r := Process(s.reqs[sn], env);
      var t := s.(reqs := s.reqs[sn := r], working := s.working - {sn});
      if r.place == InIo then t.(inIo := s.inIo + {sn}) else t.(finished := s.finished + [sn])
    case IoDone(sn, code) =>
      s.(reqs := s.reqs[sn := Completed(s.reqs[sn], code)], inIo := s.inIo - {sn}, finished := s.finished + [sn])
    case Reply(ok) =>
      var sn := s.finished[0];
      var t := s.(finished := s.finished[1..]);
      if ok then
        var c := s.reqs[sn].conn;
        t.(reqs := s.reqs[sn := s.reqs[sn].(place := InDone)],
           data := s.data[c := s.data[c].(done := s.data[c].done + [sn])])
      else Free(t, sn)
    case SendComplete(c) =>
      Free(s.(data := s.data[c := s.data[c].(done := s.data[c].done[1..])]), s.data[c].done[0])
    case Disconnect(c) =>
      s.(data := if s.data[c].refcnt == 0 then s.data - {c} else s.data[c := s.data[c].(disconnected := true)],
         torn := s.torn + {c})
  }

  // ---- the invariant ----

  /** A queue holds each request of a place once. */
  ghost predicate Lists(q: seq<Sn>, members: set<Sn>) {
    && (forall i | 0 <= i < |q| :: q[i] in members)
    && (forall sn | sn in members :: sn in q)
    && (forall i, j | 0 <= i < j < |q| :: q[i] != q[j])
  }

  ghost function AtPlace(s: Server, place: Place): set<Sn> {
    set sn | sn in s.reqs && s.reqs[sn].place == place
  }

  ghost function Owned(s: Server, c: Conn): set<Sn> {
    set sn | sn in s.reqs && s.reqs[sn].conn == c
  }

  ghost function DoneOf(s: Server, c: Conn): set<Sn> {
    set sn | sn in s.reqs && s.reqs[sn].conn == c && s.reqs[sn].place == InDone
  }

  /** Every request is in exactly one place, once. */
  ghost predicate Places(s: Server) {
    && Lists(s.inflight, AtPlace(s, InQueue))
    && s.working == AtPlace(s, AtWorker)
    && s.inIo == AtPlace(s, InIo)
    && Lists(s.finished, AtPlace(s, InFinished))
    && (forall c | c in s.data :: Lists(s.data[c].done, DoneOf(s, c)))
  }

  /** No request refers to deleted client data. */
  ghost predicate Backed(s: Server) {
    forall sn | sn in s.reqs :: s.reqs[sn].conn in s.data
  }

  /**
   * ncd_refcnt counts the requests not freed, and client data exists exactly from connection to
   * the later of teardown and the last request's end.
   */
  ghost predicate Counts(s: Server) {
    && s.data.Keys <= s.known && s.torn <= s.known
    && (forall c | c in s.data :: s.data[c].refcnt == |Owned(s, c)| && (s.data[c].disconnected <==> c in s.torn))
    && (forall c | c in s.known :: c in s.data <==> c !in s.torn || Owned(s, c) != {})
  }

  ghost predicate Fields(s: Server) {
    forall sn | sn in s.reqs :: RequestOk(s.reqs[sn])
  }

  ghost predicate Inv(s: Server) {
    Places(s) && Backed(s) && Counts(s) && Fields(s)
  }

  // ---- preservation ----

  lemma ListsPush(q: seq<Sn>, m: set<Sn>, sn: Sn)
    requires Lists(q, m) && sn !in m
    ensures Lists(q + [sn], m + {sn})
  {
    assert forall i | 0 <= i < |q| :: (q + [sn])[i] == q[i];
    assert (q + [sn])[|q|] == sn;
  }

  lemma ListsPop(q: seq<Sn>, m: set<Sn>)
    requires Lists(q, m) && q != []
    ensures q[0] in m && Lists(q[1..], m - {q[0]})
  {
    forall sn | sn in m - {q[0]}
      ensures sn in q[1..]
    {
      var i :| 0 <= i < |q| && q[i] == sn;
      assert q[1..][i - 1] == sn;
    }
  }

  /** The step puts a request that is new, or was elsewhere, to another place. */
  ghost predicate Puts(s: Server, t: Server, sn: Sn, r: Request) {
    t.reqs == s.reqs[sn := r] && (sn in s.reqs ==> s.reqs[sn].place != r.place && s.reqs[sn].conn == r.conn)
  }

  lemma PutsPlaces(s: Server, t: Server, sn: Sn, r: Request)
    requires Puts(s, t, sn, r)
    ensures AtPlace(t, r.place) == AtPlace(s, r.place) + {sn} && sn !in AtPlace(s, r.place)
    ensures sn in s.reqs ==> AtPlace(t, s.reqs[sn].place) == AtPlace(s, s.reqs[sn].place) - {sn}
    ensures forall p | p != r.place && !(sn in s.reqs && s.reqs[sn].place == p) :: AtPlace(t, p) == AtPlace(s, p)
    ensures forall c | c != r.conn || (r.place != InDone && !(sn in s.reqs && s.reqs[sn].place == InDone)) ::
              DoneOf(t, c) == DoneOf(s, c)
    ensures r.place == InDone ==> DoneOf(t, r.conn) == DoneOf(s, r.conn) + {sn} && sn !in DoneOf(s, r.conn)
    ensures sn in s.reqs ==> forall c :: Owned(t, c) == Owned(s, c)
    ensures sn !in s.reqs ==>
              Owned(t, r.conn) == Owned(s, r.conn) + {sn} && forall c | c != r.conn :: Owned(t, c) == Owned(s, c)
  {
  }

  lemma DropsPlaces(s: Server, t: Server, sn: Sn)
    requires sn in s.reqs && t.reqs == s.reqs - {sn}
    ensures forall p :: AtPlace(t, p) == if p == s.reqs[sn].place then AtPlace(s, p) - {sn} else AtPlace(s, p)
    ensures s.reqs[sn].place == InDone ==> DoneOf(t, s.reqs[sn].conn) == DoneOf(s, s.reqs[sn].conn) - {sn}
    ensures forall c | c != s.reqs[sn].conn || s.reqs[sn].place != InDone :: DoneOf(t, c) == DoneOf(s, c)
    ensures Owned(t, s.reqs[sn].conn) == Owned(s, s.reqs[sn].conn) - {sn}
    ensures forall c | c != s.reqs[sn].conn :: Owned(t, c) == Owned(s, c)
  {
  }

  lemma Members(s: Server)
    ensures forall sn, p {:trigger sn in AtPlace(s, p)} ::
              sn in AtPlace(s, p) <==> sn in s.reqs && s.reqs[sn].place == p
    ensures forall sn, c {:trigger sn in Owned(s, c)} :: sn in Owned(s, c) <==> sn in s.reqs && s.reqs[sn].conn == c
    ensures forall sn, c {:trigger sn in DoneOf(s, c)} ::
              sn in DoneOf(s, c) ==> sn in s.reqs && s.reqs[sn].conn == c && s.reqs[sn].place == InDone
  {
  }

  lemma SameRequests(s: Server, t: Server)
    requires t.reqs == s.reqs
    ensures forall p :: AtPlace(t, p) == AtPlace(s, p)
    ensures forall c :: Owned(t, c) == Owned(s, c) && DoneOf(t, c) == DoneOf(s, c)
  {
  }

  lemma Idle(s: Server, c: Conn)
    requires Owned(s, c) == {}
    ensures DoneOf(s, c) == {}
    ensures forall sn | sn in s.reqs :: s.reqs[sn].conn != c
  {
    assert DoneOf(s, c) <= Owned(s, c);
    assert forall sn | sn in s.reqs && s.reqs[sn].conn == c :: sn in Owned(s, c);
  }

  lemma ConnectKeeps(s: Server, e: Event)
    requires Inv(s) && Enabled(s, e) && e.Connect?
    ensures Inv(Do(s, e))
  {
    hide AtPlace, Lists, Owned, DoneOf;
    var t := Do(s, e);
    SameRequests(s, t);
    Members(s);
    assert Owned(s, e.c) == {};
    Idle(s, e.c);
    NoList();
  }

  lemma NoList()
    ensures Lists([], {})
  {
  }

  lemma ArriveKeeps(s: Server, e: Event)
    requires Inv(s) && Enabled(s, e) && e.Arrive?
    ensures Inv(Do(s, e))
  {
    hide AtPlace, Owned, DoneOf, Lists, Counts, Places;
    ArrivePlaces(s, e);
    ArriveCounts(s, e);
  }

  lemma ArrivePlaces(s: Server, e: Event)
    requires Inv(s) && Enabled(s, e) && e.Arrive?
    ensures Places(Do(s, e))
  {
    hide AtPlace, Owned, DoneOf, Lists, Counts, Fields;
    var t := Do(s, e);
    Members(s);
    PutsPlaces(s, t, e.sn, Fresh(e.c, e.header));
    ListsPush(s.inflight, AtPlace(s, InQueue), e.sn);
  }

  lemma ArriveCounts(s: Server, e: Event)
    requires Inv(s) && Enabled(s, e) && e.Arrive?
    ensures Counts(Do(s, e))
  {
    hide Owned, Places, Fields, Backed;
    ArriveOwned(s, e);
  }

  lemma ArriveOwned(s: Server, e: Event)
    requires Inv(s) && Enabled(s, e) && e.Arrive?
    ensures |Owned(Do(s, e), e.c)| == |Owned(s, e.c)| + 1 && Owned(Do(s, e), e.c) != {}
    ensures forall c | c != e.c :: Owned(Do(s, e), c) == Owned(s, c)
  {
    hide Inv, Owned;
    OwnedGrows(s, Do(s, e), e.sn, Fresh(e.c, e.header));
  }

  lemma OwnedGrows(s: Server, t: Server, sn: Sn, r: Request)
    requires sn !in s.reqs && t.reqs == s.reqs[sn := r]
    ensures Owned(t, r.conn) == Owned(s, r.conn) + {sn} && sn !in Owned(s, r.conn)
    ensures forall c | c != r.conn :: Owned(t, c) == Owned(s, c)
  {
  }

  lemma TakeKeeps(s: Server, e: Event)
    requires Inv(s) && Enabled(s, e) && e.Take?
    ensures Inv(Do(s, e))
  {
    hide AtPlace, Owned, DoneOf, Lists;
    var t := Do(s, e);
    Members(s);
    ListsPop(s.inflight, AtPlace(s, InQueue));
    PutsPlaces(s, t, s.inflight[0], t.reqs[s.inflight[0]]);
  }

  lemma HandleKeeps(s: Server, e: Event)
    requires Inv(s) && Enabled(s, e) && e.Handle?
    ensures Inv(Do(s, e))
  {
    hide AtPlace, Owned, DoneOf, Lists, Handling, Encode;
    var t := Do(s, e);
    Members(s);
    PutsPlaces(s, t, e.sn, t.reqs[e.sn]);
    HandlingTyped(s.reqs[e.sn], e.env);
    if t.reqs[e.sn].place == InFinished {
      ListsPush(s.finished, AtPlace(s, InFinished), e.sn);
    }
  }

  lemma IoDoneKeeps(s: Server, e: Event)
    requires Inv(s) && Enabled(s, e) && e.IoDone?
    ensures Inv(Do(s, e))
  {
    hide AtPlace, Owned, DoneOf, Lists, Encode, Cast;
    var t := Do(s, e);
    Members(s);
    PutsPlaces(s, t, e.sn, t.reqs[e.sn]);
    ListsPush(s.finished, AtPlace(s, InFinished), e.sn);
  }

  /** Before and after free_request on a request sn, as far as the counting goes. */
  ghost predicate Freeing(s: Server, t: Server, sn: Sn)
    requires sn in s.reqs && s.reqs[sn].conn in s.data
  {
    var c := s.reqs[sn].conn;
    var n := s.data[c].refcnt - 1;
    && t.reqs == s.reqs - {sn} && t.known == s.known && t.torn == s.torn
    && (if s.data[c].disconnected && n == 0 then t.data.Keys == s.data.Keys - {c}
        else t.data.Keys == s.data.Keys && t.data[c].refcnt == n && t.data[c].disconnected == s.data[c].disconnected)
    && (forall d | d in t.data && d != c :: t.data[d] == s.data[d])
  }

  lemma FreeCounts(s: Server, t: Server, sn: Sn)
    requires sn in s.reqs && Backed(s) && Counts(s) && Fields(s) && Freeing(s, t, sn)
    ensures Counts(t)
  {
    hide Owned, DoneOf, AtPlace, Fields;
    Members(s);
    DropsPlaces(s, t, sn);
    var c := s.reqs[sn].conn;
    assert |Owned(t, c)| == |Owned(s, c)| - 1;
  }

  lemma FreeBacked(s: Server, t: Server, sn: Sn)
    requires sn in s.reqs && Backed(s) && Counts(s) && Fields(s) && Freeing(s, t, sn)
    ensures Backed(t) && Fields(t)
  {
    hide Owned, DoneOf, AtPlace;
    Members(t);
    FreeCounts(s, t, sn);
    var c := s.reqs[sn].conn;
    if c !in t.data {
      assert Owned(t, c) == {};
      Idle(t, c);
    }
  }

  /** Freeing a request deletes the client data exactly when it was the last one of a torn-down connection. */
  lemma FreeIff(s: Server, sn: Sn)
    requires sn in s.reqs && Backed(s) && Counts(s)
    ensures s.reqs[sn].conn !in Free(s, sn).data <==>
              s.reqs[sn].conn in s.torn && Owned(s, s.reqs[sn].conn) == {sn}
    ensures forall c | c != s.reqs[sn].conn :: c in Free(s, sn).data <==> c in s.data
  {
    hide AtPlace, DoneOf;
    var c := s.reqs[sn].conn;
    assert sn in Owned(s, c);
    if |Owned(s, c)| == 1 {
      OnlyOne(Owned(s, c), sn);
    }
  }

  lemma OnlyOne(m: set<Sn>, sn: Sn)
    requires |m| == 1 && sn in m
    ensures m == {sn}
  {
    assert |m - {sn}| == 0;
  }

  lemma ReplyKeeps(s: Server, e: Event)
    requires Inv(s) && Enabled(s, e) && e.Reply?
    ensures Inv(Do(s, e))
  {
    if e.ok {
      ReplySent(s, e);
    } else {
      ReplyFailed(s, e);
    }
  }

  lemma ReplySent(s: Server, e: Event)
    requires Inv(s) && Enabled(s, e) && e.Reply? && e.ok
    ensures Inv(Do(s, e))
  {
    hide AtPlace, Owned, DoneOf, Lists;
    var t := Do(s, e);
    Members(s);
    ListsPop(s.finished, AtPlace(s, InFinished));
    var sn := s.finished[0];
    var c := s.reqs[sn].conn;
    PutsPlaces(s, t, sn, t.reqs[sn]);
    ListsPush(s.data[c].done, DoneOf(s, c), sn);
  }

  lemma ReplyFailed(s: Server, e: Event)
    requires Inv(s) && Enabled(s, e) && e.Reply? && !e.ok
    ensures Inv(Do(s, e))
  {
    hide AtPlace, Owned, DoneOf, Lists, Counts, Fields;
    var t := Do(s, e);
    Members(s);
    ListsPop(s.finished, AtPlace(s, InFinished));
    FreeCounts(s, t, s.finished[0]);
    FreeBacked(s, t, s.finished[0]);
    DropsPlaces(s, t, s.finished[0]);
  }

  lemma SendCompleteKeeps(s: Server, e: Event)
    requires Inv(s) && Enabled(s, e) && e.SendComplete?
    ensures Inv(Do(s, e))
  {
    hide AtPlace, Owned, DoneOf, Lists, Counts, Fields;
    var t := Do(s, e);
    Members(s);
    ListsPop(s.data[e.c].done, DoneOf(s, e.c));
    var sn := s.data[e.c].done[0];
    FreeCounts(s, t, sn);
    FreeBacked(s, t, sn);
    DropsPlaces(s, t, sn);
  }

  lemma DisconnectKeeps(s: Server, e: Event)
    requires Inv(s) && Enabled(s, e) && e.Disconnect?
    ensures Inv(Do(s, e))
  {
    hide Lists, AtPlace, Owned, DoneOf;
    var t := Do(s, e);
    SameRequests(s, t);
    if s.data[e.c].refcnt == 0 {
      Idle(s, e.c);
    }
  }

  lemma StepKeeps(s: Server, e: Event)
    requires Inv(s) && Enabled(s, e)
    ensures Inv(Do(s, e))
  {
    hide Inv, Do, Enabled;
    match e
    case Connect(_) => ConnectKeeps(s, e);
    case Arrive(_, _, _) => ArriveKeeps(s, e);
    case Take => TakeKeeps(s, e);
    case Handle(_, _) => HandleKeeps(s, e);
    case IoDone(_, _) => IoDoneKeeps(s, e);
    case Reply(_) => ReplyKeeps(s, e);
    case SendComplete(_) => SendCompleteKeeps(s, e);
    case Disconnect(_) => DisconnectKeeps(s, e);
  }

  // ---- runs ----

  /** The steps es lead from s to t; once ownership is broken a step may lead anywhere. */
  ghost predicate Reaches(s: Server, es: seq<Event>, t: Server)
    decreases es
  {
    if es == [] then s == t
    else Enabled(s, es[0]) && (Inv(s) ==> Reaches(Do(s, es[0]), es[1..], t))
  }

  /** Ownership and reference counts hold in every state of every run. */
  lemma {:induction false} RunKeeps(s: Server, es: seq<Event>, t: Server)
    requires Inv(s) && Reaches(s, es, t)
    ensures Inv(t)
    decreases es
  {
    hide Inv, Enabled, Do;
    if es != [] {
      StepKeeps(s, es[0]);
      RunKeeps(Do(s, es[0]), es[1..], t);
    }
  }

  lemma StartInv()
    ensures Inv(START)
  {
  }

  /** How often a request occurs in the queues, in the hands of the workers and in the I/O executor. */
  ghost function Occurrences(s: Server, sn: Sn, c: Conn): nat {
    multiset(s.inflight)[sn] + (if sn in s.working then 1 else 0) + (if sn in s.inIo then 1 else 0)
    + multiset(s.finished)[sn] + (if c in s.data then multiset(s.data[c].done)[sn] else 0)
  }

  lemma {:induction false} ListsOnce(q: seq<Sn>, m: set<Sn>, sn: Sn)
    requires Lists(q, m)
    ensures multiset(q)[sn] == if sn in m then 1 else 0
    decreases q
  {
    if q != [] {
      ListsPop(q, m);
      ListsOnce(q[1..], m - {q[0]}, sn);
      assert q == [q[0]] + q[1..];
    }
  }

  /** Every allocated request is in exactly one place, and nowhere is there a freed one. */
  lemma OnePlace(s: Server, sn: Sn)
    requires Inv(s)
    ensures sn in s.reqs ==> Occurrences(s, sn, s.reqs[sn].conn) == 1
    ensures sn in s.reqs ==> forall c | c in s.data && c != s.reqs[sn].conn :: sn !in s.data[c].done
    ensures sn !in s.reqs ==> forall c :: Occurrences(s, sn, c) == 0
  {
    hide Lists, Counts;
    ListsOnce(s.inflight, AtPlace(s, InQueue), sn);
    ListsOnce(s.finished, AtPlace(s, InFinished), sn);
    forall c | c in s.data
      ensures multiset(s.data[c].done)[sn] == if sn in DoneOf(s, c) then 1 else 0
    {
      ListsOnce(s.data[c].done, DoneOf(s, c), sn);
    }
  }

  /**
   * Ownership needs each read to be reported once. A second completion event, which
   * gxio_completion_handler treats like the first, would put the request into the finished queue
   * again; Executors.OnceWithoutFatal says when the executor sends none.
   */
  lemma SecondCompletion(s: Server, sn: Sn, code: int)
    requires Inv(s) && sn in s.reqs && s.reqs[sn].place == InFinished && -I32 <= code < I32
    ensures var t := s.(reqs := s.reqs[sn := Completed(s.reqs[sn], code)], finished := s.finished + [sn]);
            Occurrences(t, sn, s.reqs[sn].conn) == 2 && !Inv(t)
  {
    hide Counts, Encode, Cast;
    var t := s.(reqs := s.reqs[sn := Completed(s.reqs[sn], code)], finished := s.finished + [sn]);
    OnePlace(s, sn);
    assert sn in AtPlace(s, InFinished);
    ListsOnce(s.finished, AtPlace(s, InFinished), sn);
    if Inv(t) {
      OnePlace(t, sn);
      assert false;
    }
  }

  /** Client data goes only when its connection is torn down and none of its requests is left. */
  lemma FreedWhenDue(s: Server, e: Event, c: Conn)
    requires Inv(s) && Enabled(s, e) && c in s.data && c !in Do(s, e).data
    ensures c in Do(s, e).torn && Owned(Do(s, e), c) == {}
  {
    hide Do, Enabled, Places, Fields, Owned;
    StepKeeps(s, e);
    KnownGrows(s, e);
  }

  lemma KnownGrows(s: Server, e: Event)
    requires Inv(s) && Enabled(s, e)
    ensures s.known <= Do(s, e).known && s.torn <= Do(s, e).torn
  {
  }

  lemma StaysFreed(s: Server, e: Event, c: Conn)
    requires Inv(s) && Enabled(s, e) && c in s.known && c !in s.data
    ensures c in Do(s, e).known && c !in Do(s, e).data
  {
  }

  /** Deleted client data never comes back, so it is deleted once. */
  lemma {:induction false} FreedForGood(s: Server, es: seq<Event>, t: Server, c: Conn)
    requires Inv(s) && Reaches(s, es, t) && c in s.known && c !in s.data
    ensures c !in t.data
    decreases es
  {
    hide Inv, Enabled, Do;
    if es != [] {
      StepKeeps(s, es[0]);
      StaysFreed(s, es[0], c);
      FreedForGood(Do(s, es[0]), es[1..], t, c);
    }
  }

  // ---- send completions ----

  /** Replies handed to the transport for c whose completion is outstanding. */
  ghost function Outstanding(s: Server, c: Conn): seq<Sn> {
    if c in s.data then s.data[c].done else []
  }

  ghost function Replied(s: Server, e: Event, c: Conn): seq<Sn>
    requires Inv(s) && Enabled(s, e)
  {
    if e.Reply? && e.ok && s.reqs[s.finished[0]].conn == c then [s.finished[0]] else []
  }

  /** The requests that the step frees after their reply went out. */
  ghost function Retired(s: Server, e: Event, c: Conn): seq<Sn>
    requires Inv(s) && Enabled(s, e)
  {
    if e.SendComplete? && e.c == c then [s.data[c].done[0]] else []
  }

  lemma HeadsListed(s: Server, e: Event)
    requires Inv(s) && Enabled(s, e)
    ensures e.SendComplete? ==> s.data[e.c].done[0] in s.reqs && s.reqs[s.data[e.c].done[0]].conn == e.c
    ensures e.Reply? ==> s.finished[0] in s.reqs && s.reqs[s.finished[0]].conn in s.data
  {
    hide Counts, Fields;
    if e.SendComplete? {
      assert s.data[e.c].done[0] in DoneOf(s, e.c);
    } else if e.Reply? {
      assert s.finished[0] in AtPlace(s, InFinished);
    }
  }

  /** A step on client data that stays. */
  lemma DoneMoves(s: Server, e: Event, c: Conn)
    requires Inv(s) && Enabled(s, e) && (c in s.data ==> c in Do(s, e).data)
    ensures Outstanding(s, c) + Replied(s, e, c) == Retired(s, e, c) + Outstanding(Do(s, e), c)
  {
    hide Places, Owned, Fields, Process, Completed;
    HeadsListed(s, e);
  }

  lemma AnsweredStays(s: Server, e: Event, c: Conn)
    requires Inv(s) && Enabled(s, e) && c in s.data
    ensures e == Reply(true) ==> c in Do(s, e).data
  {
    hide Places, Counts, Fields;
    HeadsListed(s, e);
  }

  lemma StepInOrder(s: Server, e: Event, c: Conn)
    requires Inv(s) && Enabled(s, e)
    ensures Outstanding(s, c) + Replied(s, e, c) == Retired(s, e, c) + Outstanding(Do(s, e), c)
  {
    hide Do, Places, Counts, Fields;
    if c in s.data && c !in Do(s, e).data {
      FreedWhenDue(s, e, c);
      NothingDone(s, e, c);
      AnsweredStays(s, e, c);
    } else {
      DoneMoves(s, e, c);
    }
  }

  /** Only a failed reply and a send completion free a request, and no step moves one to another connection. */
  lemma Survives(s: Server, e: Event, sn: Sn)
    requires Inv(s) && Enabled(s, e) && sn in s.reqs
    ensures sn in Do(s, e).reqs ==> Do(s, e).reqs[sn].conn == s.reqs[sn].conn
    ensures sn in Do(s, e).reqs || (e == Reply(false) && sn == s.finished[0])
              || (e.SendComplete? && sn == s.data[e.c].done[0])
  {
    hide Lists, Counts, Fields, Handling, Encode, Cast;
  }

  lemma DoneGoes(s: Server, e: Event, c: Conn, i: nat)
    requires Inv(s) && Enabled(s, e) && c in s.data && Owned(Do(s, e), c) == {} && i < |s.data[c].done|
    ensures e.SendComplete? && e.c == c && i == 0
  {
    hide Do, Counts, Fields, Owned, AtPlace;
    Members(s);
    Members(Do(s, e));
    var sn := s.data[c].done[i];
    assert sn in DoneOf(s, c);
    Survives(s, e, sn);
    assert sn !in Owned(Do(s, e), c);
  }

  lemma NothingDone(s: Server, e: Event, c: Conn)
    requires Inv(s) && Enabled(s, e) && c in s.data && Owned(Do(s, e), c) == {}
    ensures s.data[c].done == if e.SendComplete? && e.c == c then [s.data[c].done[0]] else []
  {
    hide Do, Places, Counts, Fields, Owned;
    if s.data[c].done != [] {
      DoneGoes(s, e, c, |s.data[c].done| - 1);
    }
  }

  ghost function AllReplied(s: Server, es: seq<Event>, t: Server, c: Conn): seq<Sn>
    requires Inv(s) && Reaches(s, es, t)
    decreases es
  {
    if es == [] then []
    else StepKeeps(s, es[0]); Replied(s, es[0], c) + AllReplied(Do(s, es[0]), es[1..], t, c)
  }

  ghost function AllRetired(s: Server, es: seq<Event>, t: Server, c: Conn): seq<Sn>
    requires Inv(s) && Reaches(s, es, t)
    decreases es
  {
    if es == [] then []
    else StepKeeps(s, es[0]); Retired(s, es[0], c) + AllRetired(Do(s, es[0]), es[1..], t, c)
  }

  /**
   * on_msg_send_complete does not look at the message that completed. When the transport reports
   * completions in the order of the sends, the request it frees is still the one whose reply
   * completed: over every run the requests freed are the replies sent, in order, up to those outstanding.
   */
  lemma {:induction false} CompletionsInOrder(s: Server, es: seq<Event>, t: Server, c: Conn)
    requires Inv(s) && Reaches(s, es, t)
    ensures Outstanding(s, c) + AllReplied(s, es, t, c) == AllRetired(s, es, t, c) + Outstanding(t, c)
    decreases es
  {
    hide Inv, Enabled, Do, Outstanding, Replied, Retired;
    if es != [] {
      var u := Do(s, es[0]);
      StepKeeps(s, es[0]);
      StepInOrder(s, es[0], c);
      CompletionsInOrder(u, es[1..], t, c);
      var rest := AllReplied(u, es[1..], t, c);
      assert Outstanding(s, c) + (Replied(s, es[0], c) + rest) == (Outstanding(s, c) + Replied(s, es[0], c)) + rest;
      assert (Retired(s, es[0], c) + Outstanding(u, c)) + rest == Retired(s, es[0], c) + (Outstanding(u, c) + rest);
      var done := AllRetired(u, es[1..], t, c);
      assert Retired(s, es[0], c) + (done + Outstanding(t, c)) == (Retired(s, es[0], c) + done) + Outstanding(t, c);
    }
  }
}
