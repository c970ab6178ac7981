/** NetworkXioServer as an object: its callbacks and its threads take the steps of Servers. */
module XioServers {
  import opened Bytes
  import opened Wire
  import opened Servers

  class XioServer {
    var reqs: map<Sn, Request>
    var inflight: seq<Sn>
    var working: set<Sn>
    var inIo: set<Sn>
    var finished: seq<Sn>
    var data: map<Conn, ClientData>
    var known: set<Conn>
    var torn: set<Conn>

    ghost function Abs(): Server
      reads this
    {
      Server(reqs, inflight, working, inIo, finished, data, known, torn)
    }

    constructor ()
      ensures Abs() == START && Inv(Abs())
    {
      reqs, inflight, working, inIo := map[], [], {}, {};
      finished, data, known, torn := [], map[], {}, {};
      new;
      StartInv();
    }

    method CreateSessionConnection(c: Conn)
      requires Inv(Abs()) && Enabled(Abs(), Connect(c))
      modifies this
      ensures Abs() == Do(old(Abs()), Connect(c)) && Inv(Abs())
      ensures c in data && Owned(Abs(), c) == {} && Outstanding(Abs(), c) == []
    {
      hide Places, Backed, Fields;
      StepKeeps(Abs(), Connect(c));
      data := data[c := ClientData(0, false, [])];
      known := known + {c};
      assert |Owned(Abs(), c)| == 0;
    }

    /** on_request, with allocate_request and work_schedule. */
    method OnRequest(sn: Sn, c: Conn, header: seq<byte>)
      requires Inv(Abs()) && Enabled(Abs(), Arrive(sn, c, header))
      modifies this
      ensures Abs() == Do(old(Abs()), Arrive(sn, c, header)) && Inv(Abs())
      ensures Occurrences(Abs(), sn, c) == 1 && inflight[|inflight| - 1] == sn
      ensures c in data && data[c].refcnt == |Owned(Abs(), c)|
    {
      hide Places, Backed, Fields;
      StepKeeps(Abs(), Arrive(sn, c, header));
      reqs := reqs[sn := Request(c, header, InQueue, 0, 0, 0, 0, 0, [])];
      data := data[c := data[c].(refcnt := data[c].refcnt + 1)];
      inflight := inflight + [sn];
      OnePlace(Abs(), sn);
    }

    /** A worker of worker_routine takes the oldest request. */
    method WorkerTake() returns (sn: Sn)
      requires Inv(Abs()) && inflight != []
      modifies this
      ensures Abs() == Do(old(Abs()), Take) && Inv(Abs())
      ensures sn == old(inflight[0]) && sn in working
      ensures sn in reqs && Occurrences(Abs(), sn, reqs[sn].conn) == 1
    {
      hide Places, Backed, Counts, Fields;
      StepKeeps(Abs(), Take);
      assert inflight[0] in reqs by { Queued(Abs()); }
      sn := inflight[0];
      inflight := inflight[1..];
      working := working + {sn};
      reqs := reqs[sn := reqs[sn].(place := AtWorker)];
      OnePlace(Abs(), sn);
    }

    /** The rest of the worker's turn: req->work.func, then the finished queue unless an I/O is under way. */
    method WorkerRun(sn: Sn, env: Env)
      requires Inv(Abs()) && sn in working
      modifies this
      ensures Abs() == Do(old(Abs()), Handle(sn, env)) && Inv(Abs())
      ensures sn !in working && sn in reqs && Occurrences(Abs(), sn, reqs[sn].conn) == 1
      ensures sn in inIo || (finished != [] && finished[|finished| - 1] == sn)
    {
      hide Places, Backed, Counts, Fields, Handling, Parse, Encode;
      ghost var s := Abs();
      StepKeeps(s, Handle(sn, env));
      WorkingOk(s, sn);
      var r, finishNow := ProcessRequest(reqs[sn], env);
      reqs := reqs[sn := r];
      working := working - {sn};
      if finishNow {
        finished := finished + [sn];
      } else {
        inIo := inIo + {sn};
      }
      OnePlace(Abs(), sn);
    }

    /** One event in gxio_completion_handler. */
    method CompletionEvent(sn: Sn, code: int)
      requires Inv(Abs()) && Enabled(Abs(), IoDone(sn, code))
      modifies this
      ensures Abs() == Do(old(Abs()), IoDone(sn, code)) && Inv(Abs())
      ensures sn !in inIo && sn in reqs && Occurrences(Abs(), sn, reqs[sn].conn) == 1
      ensures finished[|finished| - 1] == sn
      ensures reqs[sn].errval == code && (code != 0 ==> reqs[sn].retval == -1)
      ensures code == 0 && sn in old(reqs) && 0 <= old(reqs)[sn].size < I64 ==> reqs[sn].retval == old(reqs)[sn].size
    {
      hide Places, Backed, Counts, Fields, Encode;
      ghost var s := Abs();
      StepKeeps(s, IoDone(sn, code));
      InIoOk(s, sn);
      var r := reqs[sn];
      if code == 0 {
        r := r.(retval := Cast(r.size, I64), errval := 0);
      } else {
        r := r.(retval := -1, errval := code);
      }
      r := PackReply(r);
      reqs := reqs[sn := r.(place := InFinished)];
      inIo := inIo - {sn};
      finished := finished + [sn];
      OnePlace(Abs(), sn);
    }

    /**
     * free_request, which deallocate_request ends in: the request is gone, and with it the client
     * data if and only if the connection was torn down and this was its last request.
     */
    method FreeRequest(sn: Sn)
      requires sn in reqs && reqs[sn].conn in data && Backed(Abs()) && Counts(Abs())
      modifies this
      ensures Abs() == Free(old(Abs()), sn)
      ensures sn !in reqs && forall k | k != sn :: k in reqs <==> k in old(reqs)
      ensures old(reqs[sn].conn) !in data <==>
                old(reqs[sn].conn) in torn && old(Owned(Abs(), reqs[sn].conn)) == {sn}
      ensures forall c | c != old(reqs[sn].conn) :: c in data <==> c in old(data)
    {
      FreeIff(Abs(), sn);
      hide Counts, Owned;
      var c := reqs[sn].conn;
      data := data[c := data[c].(refcnt := data[c].refcnt - 1)];
      if data[c].disconnected && data[c].refcnt == 0 {
        data := data - {c};
      }
      reqs := reqs - {sn};
      assert data == Free(old(Abs()), sn).data;
    }

    /** get_finished and xio_send_reply; ok is whether xio_send_response took the reply. */
    method XioSendReply(ok: bool) returns (sn: Sn)
      requires Inv(Abs()) && finished != []
      modifies this
      ensures Abs() == Do(old(Abs()), Reply(ok)) && Inv(Abs()) && sn == old(finished[0]) && sn in old(reqs)
      ensures ok ==> var c := old(reqs)[sn].conn; Outstanding(Abs(), c) == Outstanding(old(Abs()), c) + [sn]
      ensures !ok ==> Gone(old(Abs()), sn, Abs())
    {
      hide Places, Fields, Counts, Owned;
      StepKeeps(Abs(), Reply(ok));
      Queued(Abs());
      ghost var s := Abs();
      sn := finished[0];
      finished := finished[1..];
      SameCounts(s, Abs());
      if ok {
        var c := reqs[sn].conn;
        data := data[c := data[c].(done := data[c].done + [sn])];
        reqs := reqs[sn := reqs[sn].(place := InDone)];
      } else {
        FreeRequest(sn);
      }
    }

    method OnMsgSendComplete(c: Conn) returns (sn: Sn)
      requires Inv(Abs()) && Enabled(Abs(), SendComplete(c))
      modifies this
      ensures Abs() == Do(old(Abs()), SendComplete(c)) && Inv(Abs()) && sn == old(data[c].done[0])
      ensures sn in old(reqs) && Gone(old(Abs()), sn, Abs())
    {
      hide Places, Fields, Counts, Owned;
      StepKeeps(Abs(), SendComplete(c));
      Queued(Abs());
      ghost var s := Abs();
      sn := data[c].done[0];
      data := data[c := data[c].(done := data[c].done[1..])];
      SameCounts(s, Abs());
      FreeRequest(sn);
    }

    method DestroySessionConnection(c: Conn)
      requires Inv(Abs()) && Enabled(Abs(), Disconnect(c))
      modifies this
      ensures Abs() == Do(old(Abs()), Disconnect(c)) && Inv(Abs())
      ensures c !in data <==> old(Owned(Abs(), c)) == {}
    {
      hide Places, Backed, Fields;
      ghost var s := Abs();
      StepKeeps(s, Disconnect(c));
      data := data[c := data[c].(disconnected := true)];
      if data[c].refcnt == 0 {
        data := data - {c};
        assert data == s.data - {c};
      }
      torn := torn + {c};
    }
  }

  /** sn is freed, and the client data with it exactly when it was due. */
  ghost predicate Gone(s: Server, sn: Sn, t: Server)
    requires sn in s.reqs
  {
    && sn !in t.reqs && (forall k | k != sn :: k in t.reqs <==> k in s.reqs)
    && (s.reqs[sn].conn !in t.data <==> s.reqs[sn].conn in s.torn && Owned(s, s.reqs[sn].conn) == {sn})
  }

  /** A change of a queue or a done list does not touch the counts. */
  lemma SameCounts(s: Server, t: Server)
    requires Backed(s) && Counts(s) && t.reqs == s.reqs && t.known == s.known && t.torn == s.torn
    requires t.data.Keys == s.data.Keys
    requires forall c | c in s.data :: t.data[c] == s.data[c].(done := t.data[c].done)
    ensures Backed(t) && Counts(t) && forall k :: Owned(t, k) == Owned(s, k)
  {
    SameRequests(s, t);
  }

  lemma Queued(s: Server)
    requires Inv(s)
    ensures s.inflight != [] ==> s.inflight[0] in s.reqs
    ensures s.finished != [] ==> s.finished[0] in s.reqs
    ensures forall c | c in s.data && s.data[c].done != [] ::
              s.data[c].done[0] in s.reqs && s.reqs[s.data[c].done[0]].conn == c
  {
  }

  lemma WorkingOk(s: Server, sn: Sn)
    requires Inv(s) && sn in s.working
    ensures sn in s.reqs && RequestOk(s.reqs[sn])
  {
  }

  lemma InIoOk(s: Server, sn: Sn)
    requires Inv(s) && sn in s.inIo
    ensures sn in s.reqs && RequestOk(s.reqs[sn])
  {
  }

  /** pack_msg for a request: its reply header. */
  method PackReply(r: Request) returns (q: Request)
    requires Sendable(Answer(r.op, r.retval, r.errval, r.cookie))
    ensures q == r.(smsg := Encode(Answer(r.op, r.retval, r.errval, r.cookie)))
  {
    var o := new XioMsg(r.op);
    o.retval, o.errval, o.cookie := r.retval, r.errval, r.cookie;
    var b := o.PackMsg();
    assert o.Abs() == Answer(r.op, r.retval, r.errval, r.cookie);
    return r.(smsg := b.value);
  }

  /** A reply made at once, with these fields, in the finished queue. */
  ghost predicate Finishes(req: Request, r: Request, op: int, cookie: int, size: int, retval: int, errval: int) {
    && Sendable(Answer(op, retval, errval, cookie))
    && r == req.(place := InFinished, op := op, cookie := cookie, size := size, retval := retval, errval := errval,
                 smsg := Encode(Answer(op, retval, errval, cookie)))
  }

  /**
   * process_request; the result is also put to the place its new owner looks in. A header that does
   * not unpack is answered with EBADMSG, an open with success, a close with success exactly if there
   * is a service, an unknown opcode with EIO. A read fails at once without a service, without memory
   * or when the executor refuses it, and else is under way with its cookie and size and no reply.
   */
  method ProcessRequest(req: Request, env: Env) returns (r: Request, finishNow: bool)
    requires RequestOk(req)
    ensures r == Process(req, env) && finishNow == Handling(req, env).finishNow
    ensures match Parse(NOOP, req.header)
            case None => finishNow && Finishes(req, r, ERROR_RSP, req.cookie, req.size, -1, EBADMSG)
            case Some(m) =>
              if m.opcode == OPEN_REQ then finishNow && Finishes(req, r, OPEN_RSP, m.cookie, req.size, 0, 0)
              else if m.opcode == CLOSE_REQ then
                && finishNow
                && (env.service ==> Finishes(req, r, CLOSE_RSP, m.cookie, req.size, 0, 0))
                && (!env.service ==> Finishes(req, r, CLOSE_RSP, m.cookie, req.size, -1, EIO))
              else if m.opcode == READ_REQ then
                if !env.service then finishNow && Finishes(req, r, READ_RSP, m.cookie, req.size, -1, EIO)
                else if env.pool < 0 && env.mem < 0 then
                  finishNow && Finishes(req, r, READ_RSP, m.cookie, req.size, -1, ENOMEM)
                else if env.io != 0 then finishNow && Finishes(req, r, READ_RSP, m.cookie, m.size, -1, EIO)
                else !finishNow && r == req.(place := InIo, op := READ_RSP, cookie := m.cookie, size := m.size)
              else finishNow && Finishes(req, r, ERROR_RSP, m.cookie, req.size, -1, EIO)
  {
    hide Parse, Encode;
    var im := new XioMsg(0);
    HandlingTyped(req, env);
    var u := im.UnpackMsg(req.header);
    r := req;
    finishNow := true;
    if u != Accepted {
      r := r.(op := ERROR_RSP, retval := -1, errval := EBADMSG);
    } else {
      r := r.(cookie := im.cookie);
      if im.opcode == OPEN_REQ {
        r := r.(op := OPEN_RSP, retval := 0, errval := 0);
      } else if im.opcode == CLOSE_REQ {
        r := r.(op := CLOSE_RSP, retval := 0, errval := 0);
        if !env.service {
          r := r.(retval := -1, errval := EIO);
        }
      } else if im.opcode == READ_REQ {
        r, finishNow := HandleRead(r, im.size, env);
      } else {
        r := r.(op := ERROR_RSP, retval := -1, errval := EIO);
      }
    }
    if finishNow {
      r := PackReply(r);
      r := r.(place := InFinished);
    } else {
      r := r.(place := InIo);
    }
  }

  /**
   * handle_read up to its pack_msg: the read fails at once exactly without a service, without
   * memory or when the executor refuses it; then -1 and the error are set, ENOMEM exactly for want
   * of memory. Otherwise the request is under way with its size and no result yet.
   */
  method HandleRead(req: Request, size: int, env: Env) returns (r: Request, failed: bool)
    ensures failed <==> !env.service || (env.pool < 0 && env.mem < 0) || env.io != 0
    ensures failed ==> r.retval == -1 && (r.errval == EIO || r.errval == ENOMEM)
    ensures failed ==> (r.errval == ENOMEM <==> env.service && env.pool < 0 && env.mem < 0)
    ensures r.size == if env.service && (env.pool >= 0 || env.mem >= 0) then size else req.size
    ensures !failed ==> r == req.(op := READ_RSP, size := size)
    ensures r == req.(op := READ_RSP, size := r.size, retval := r.retval, errval := r.errval)
  {
    r := req.(op := READ_RSP);
    if !env.service {
      return r.(retval := -1, errval := EIO), true;
    }
    var ret := env.pool;
    if ret < 0 {
      ret := env.mem;
      if ret < 0 {
        return r.(retval := -1, errval := ENOMEM), true;
      }
    }
    r := r.(size := size);
    ret := env.io;
    if ret != 0 {
      r := r.(retval := -1, errval := EIO);
    }
    return r, ret != 0;
  }
}
