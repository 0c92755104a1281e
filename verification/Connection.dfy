/** The reactor's registration and output path: EpollEvent's interest mask, EPoller's bookkeeping
    of what the kernel watches, and TcpConnection's partial writes. */
module Connection {
  import opened Basics
  import opened ByteBuffer

  datatype Interest = Interest(read: bool, write: bool)
  const NONE := Interest(false, false)

  datatype Statu = New | Added | Deleted
  datatype Operation = CtlAdd | CtlMod | CtlDel
  /** An epoll entry: the mask, and data.ptr. */
  datatype Entry = Entry(interest: Interest, event: EpollEvent)

  class Poller {
    var distributers: map<int, EpollEvent>
    /** The kernel's side of the epoll descriptor, and the epoll_ctl calls it has refused. */
    var kernel: map<int, Entry>
    var refused: nat

    constructor ()
      ensures Valid() && distributers == map[] && kernel == map[] && refused == 0
    {
      distributers, kernel, refused := map[], map[], 0;
    }

    /** The table holds exactly the events that are not New, under their descriptor; the kernel
        watches exactly the Added ones. `stale` is a descriptor whose mask has changed since. */
    ghost predicate Consistent(stale: set<int>)
      reads this, distributers.Values
    {
      && kernel.Keys <= distributers.Keys
      && forall fd <- distributers :: Listed(fd, fd in stale)
    }

    ghost predicate Listed(fd: int, stale: bool)
      requires fd in distributers
      reads this, distributers[fd]
    {
      var e := distributers[fd];
      && e.fd == fd && e.poller == this && e.statu != New
      && (e.statu == Added <==> fd in kernel)
      && (fd in kernel ==> kernel[fd].event == e && (stale || kernel[fd].interest == e.events))
    }

    ghost predicate Valid()
      reads this, distributers.Values
    {
      Consistent({})
    }

    /** ::epoll_ctl: EEXIST and ENOENT are the refusals. */
    method Ctl(op: Operation, e: EpollEvent)
      modifies this`kernel, this`refused
      ensures var ok := op == CtlAdd <==> e.fd !in old(kernel);
              && refused == old(refused) + (if ok then 0 else 1)
              && kernel == if !ok then old(kernel)
                           else if op == CtlDel then old(kernel) - {e.fd}
                           else old(kernel)[e.fd := Entry(e.events, e)]
    {
      if (op == CtlAdd) != (e.fd !in kernel) {
        refused := refused + 1;
      } else if op == CtlDel {
        kernel := kernel - {e.fd};
      } else {
        kernel := kernel[e.fd := Entry(e.events, e)];
      }
    }

    method UpdateEvent(e: EpollEvent)
      requires Consistent({e.fd}) && e.Owned() && e.poller == this
      modifies this, e`statu
      ensures Valid() && e.Owned() && refused == old(refused)
      ensures e.statu == if old(e.statu) == Added && e.events == NONE then Deleted else Added
      ensures kernel == if old(e.statu) == Added && e.events == NONE then old(kernel) - {e.fd}
                        else old(kernel)[e.fd := Entry(e.events, e)]
      ensures distributers == old(distributers)[e.fd := e]
    {
      ghost var table := distributers;
      if e.statu == New || e.statu == Deleted {
        if e.statu == New {
          distributers := distributers[e.fd := e];
        }
        e.statu := Added;
        Ctl(CtlAdd, e);
      } else if e.IsNoneEvent() {
        Ctl(CtlDel, e);
        e.statu := Deleted;
      } else {
        Ctl(CtlMod, e);
      }
      assert forall fd <- distributers :: fd != e.fd ==> fd in table && distributers[fd] == table[fd];
    }

    method RemoveEvent(e: EpollEvent)
      requires Valid() && e.Owned() && e.poller == this
      modifies this, e`statu
      ensures Valid() && e.Owned() && refused == old(refused) && e.statu == New
      ensures kernel == old(kernel) - {e.fd} && distributers == old(distributers) - {e.fd}
    {
      ghost var table := distributers;
      distributers := distributers - {e.fd};
      if e.statu == Added {
        Ctl(CtlDel, e);
      }
      e.statu := New;
      assert forall fd <- distributers :: fd != e.fd && fd in table && distributers[fd] == table[fd];
    }
  }

  class EpollEvent {
    const fd: int
    const poller: Poller
    var events: Interest
    var statu: Statu

    constructor (poller: Poller, fd: int)
      ensures this.poller == poller && this.fd == fd && events == NONE && statu == New
    {
      this.poller, this.fd, events, statu := poller, fd, NONE, New;
    }

    /** The event is the only one on its descriptor that the poller has listed: the descriptor
        is not reused while the event lives. */
    ghost predicate Owned()
      reads this, poller
    {
      && (statu != New <==> fd in poller.distributers)
      && (fd in poller.distributers ==> poller.distributers[fd] == this)
    }

    ghost predicate Valid()
      reads this, poller, poller.distributers.Values
    {
      poller.Valid() && Owned()
    }

    predicate IsNoneEvent()
      reads this
    {
      events == NONE
    }

    predicate IsWriting()
      reads this
    {
      events.write
    }

    /** Whether the kernel watches the descriptor, and for what. */
    ghost function Watched(): Option<Interest>
      reads this, poller
    {
      if fd in poller.kernel then Some(poller.kernel[fd].interest) else None
    }

    /** events_ = mask; update(). A Deleted event is added again even when the mask is empty. */
    method SetEvents(mask: Interest)
      requires Valid()
      modifies this, poller
      ensures Valid() && events == mask && poller.refused == old(poller.refused)
      ensures Watched() == if old(statu) == Added && mask == NONE then None else Some(mask)
      ensures statu == if old(statu) == Added && mask == NONE then Deleted else Added
      ensures poller.kernel - {fd} == old(poller.kernel) - {fd}
      ensures poller.distributers == old(poller.distributers)[fd := this]
    {
      events := mask;
      poller.UpdateEvent(this);
    }
  }

  function Written(bytes: Bytes, room: nat): (n: nat)
    ensures n <= |bytes| && n <= room && (n == |bytes| || n == room)
  {
    if room < |bytes| then room else |bytes|
  }

  datatype State = Connecting | Connected | Disconnecting | Disconnected

  /** `room` in the operations is how many bytes the socket takes before write() stops short. */
  class TcpConnection {
    const event: EpollEvent
    const outputBuffer: Buffer
    const inputBuffer: Buffer
    var state: State
    /** What the peer will read, and whether our side has been shut down for writing. */
    var wire: Bytes
    var shut: bool
    /** History: the messages given to sendInLoop, and whether handleClose has run. */
    ghost var sent: Bytes
    ghost var closed: bool

    ghost function Repr(): set<object>
      reads this, outputBuffer, inputBuffer
    {
      {this, event, event.poller, outputBuffer, outputBuffer.data, inputBuffer, inputBuffer.data}
    }

    /** No byte is lost, doubled or reordered, however short the writes; while the connection
        has not been closed, it waits for writability exactly when output is pending. */
    ghost predicate Valid()
      reads Repr(), event.poller.distributers.Values
    {
      && event.Valid() && outputBuffer.Valid() && inputBuffer.Valid()
      && outputBuffer != inputBuffer && outputBuffer.data != inputBuffer.data
      && sent == wire + outputBuffer.Contents()
      && (event.events.write ==> outputBuffer.Contents() != [])
      && (!closed && outputBuffer.Contents() != [] ==> event.events.write)
    }

    constructor (poller: Poller, fd: int)
      requires poller.Valid() && fd !in poller.distributers
      ensures Valid() && fresh(Repr() - {poller}) && event.poller == poller && event.fd == fd
      ensures state == Connecting && wire == sent == [] && !closed && event.statu == New
    {
      event := new EpollEvent(poller, fd);
      outputBuffer := new Buffer();
      inputBuffer := new Buffer();
      state, wire, shut, sent, closed := Connecting, [], false, [], false;
    }

    /** What every operation keeps: the invariant, no refused epoll_ctl, the other descriptors. */
    twostate predicate Keeps()
      reads Repr(), event.poller.distributers.Values
    {
      Valid() && fresh(Repr() - old(Repr())) && PollerKept()
    }

    twostate predicate PollerKept()
      reads event, event.poller
    {
      && event.poller.refused == old(event.poller.refused)
      && event.poller.kernel - {event.fd} == old(event.poller.kernel) - {event.fd}
      && event.poller.distributers - {event.fd} == old(event.poller.distributers) - {event.fd}
    }

    method ConnectEstablished()
      requires Valid()
      modifies Repr()
      ensures Keeps() && sent == old(sent) && state == Connected
      ensures event.Watched() == Some(Interest(true, old(event.events.write)))
      ensures wire == old(wire) && shut == old(shut) && closed == old(closed)
      ensures inputBuffer.Contents() == old(inputBuffer.Contents())
    {
      state := Connected;
      event.SetEvents(event.events.(read := true));
    }

    method Send(message: Bytes, room: nat)
      requires Valid()
      modifies Repr()
      ensures Keeps() && sent == old(sent) + (if old(state) == Connected then message else []) && state == old(state)
      ensures old(state) != Connected ==> wire == old(wire) && event.Watched() == old(event.Watched())
      ensures shut == old(shut) && closed == old(closed) && inputBuffer.Contents() == old(inputBuffer.Contents())
    {
      if state == Connected {
        SendInLoop(message, room);
      }
    }

    /** Nothing is pending and nothing is waited for: a message may be written at once. */
    ghost predicate Idle()
      reads event, outputBuffer, outputBuffer.data
      requires outputBuffer.Valid()
    {
      !event.IsWriting() && outputBuffer.Contents() == []
    }

    /** Queues what write() did not take and waits for writability. */
    method Enqueue(rest: Bytes)
      requires event.Valid() && outputBuffer.Valid()
      modifies event, event.poller, outputBuffer, outputBuffer.data
      ensures event.Valid() && PollerKept()
      ensures event.events == old(event.events).(write := true)
      ensures event.Watched() == if old(event.IsWriting()) then old(event.Watched()) else Some(event.events)
      ensures outputBuffer.Valid() && outputBuffer.Contents() == old(outputBuffer.Contents()) + rest
      ensures outputBuffer.data == old(outputBuffer.data) || fresh(outputBuffer.data)
    {
      outputBuffer.Append(rest);
      if !event.IsWriting() {
        event.SetEvents(event.events.(write := true));
      }
    }

    method SendInLoop(message: Bytes, room: nat)
      requires Valid()
      modifies Repr()
      ensures Keeps() && sent == old(sent) + message && state == old(state)
      ensures wire == old(wire) + if old(Idle()) then message[..Written(message, room)] else []
      ensures event.Watched() ==
              if !old(event.IsWriting()) && message != [] && !(old(Idle()) && room >= |message|)
              then Some(old(event.events).(write := true)) else old(event.Watched())
      ensures shut == old(shut) && closed == old(closed) && inputBuffer.Contents() == old(inputBuffer.Contents())
    {
      var nwrote := 0;
      if !event.IsWriting() && outputBuffer.ReadableBytes() == 0 {
        nwrote := Written(message, room);
        wire := wire + message[..nwrote];
      }
      sent := sent + message;
      ghost var pending := outputBuffer.Contents();
      assert sent == wire + pending + message[nwrote..];
      if nwrote < |message| {
        Enqueue(message[nwrote..]);
        Assoc(wire, pending, message[nwrote..]);
      }
    }

    method ShutdownInLoop()
      modifies this`shut
      ensures shut == (old(shut) || !event.IsWriting())
    {
      if !event.IsWriting() {
        shut := true;
      }
    }

    /** write() from the front of the output buffer. */
    method Flush(room: nat)
      requires outputBuffer.Valid()
      modifies this`wire, outputBuffer`readerIndex
      ensures outputBuffer.Valid()
      ensures var n := Written(old(outputBuffer.Contents()), room);
              wire == old(wire) + old(outputBuffer.Contents())[..n]
              && outputBuffer.Contents() == old(outputBuffer.Contents())[n..]
    {
      var bytes := outputBuffer.Peek(outputBuffer.ReadableBytes());
      var n := Written(bytes, room);
      wire := wire + bytes[..n];
      outputBuffer.Retrieve(n);
    }

    /** Everything has been written. */
    method StopWriting()
      requires event.Valid()
      modifies event, event.poller, this`shut
      ensures event.Valid() && PollerKept() && event.events == old(event.events).(write := false)
      ensures shut == (old(shut) || state == Disconnecting)
    {
      event.SetEvents(event.events.(write := false));
      if state == Disconnecting {
        ShutdownInLoop();
      }
    }

    method HandleWrite(room: nat)
      requires Valid()
      modifies Repr()
      ensures Keeps() && sent == old(sent) && state == old(state)
      ensures wire == if old(event.IsWriting()) then
                        old(wire) + old(outputBuffer.Contents())[..Written(old(outputBuffer.Contents()), room)]
                      else old(wire)
      ensures shut == (old(shut) || (old(event.IsWriting()) && wire == sent && state == Disconnecting))
      ensures event.events == old(event.events).(write := old(event.events.write) && wire != sent)
      ensures closed == old(closed) && inputBuffer.Contents() == old(inputBuffer.Contents())
    {
      if event.IsWriting() {
        ghost var pending := outputBuffer.Contents();
        Flush(room);
        assert wire + outputBuffer.Contents() == old(wire) + pending;
        if outputBuffer.ReadableBytes() == 0 {
          StopWriting();
        }
      }
    }

    /** `arrived` is what readv delivers; the message callback's effects are further operations. */
    method HandleRead(arrived: Option<Bytes>)
      requires Valid()
      requires arrived.Some? ==> |arrived.value| <= inputBuffer.WritableBytes() + EXTRA_SIZE
      modifies Repr()
      ensures Keeps() && sent == old(sent) && wire == old(wire) && state == old(state)
      ensures closed == (old(closed) || arrived == Some([])) && shut == old(shut)
      ensures arrived != Some([]) ==> event.events == old(event.events) && event.Watched() == old(event.Watched())
      ensures inputBuffer.Contents() == old(inputBuffer.Contents()) + if arrived.Some? then arrived.value else []
    {
      var n := inputBuffer.ReadFd(arrived);
      if n == 0 {
        HandleClose();
      }
    }

    method HandleClose()
      requires Valid()
      modifies Repr()
      ensures Keeps() && sent == old(sent) && wire == old(wire) && state == old(state) && closed && shut == old(shut)
      ensures event.Watched() == if old(event.statu) == Added then None else Some(NONE)
      ensures inputBuffer.Contents() == old(inputBuffer.Contents())
    {
      closed := true;
      event.SetEvents(NONE);
    }

    /** Afterwards neither the kernel nor the poller knows the descriptor. */
    method ConnectDestroyed()
      requires Valid()
      modifies Repr()
      ensures Keeps() && sent == old(sent) && wire == old(wire) && state == Disconnected
      ensures outputBuffer.Contents() == old(outputBuffer.Contents()) && event.events == NONE
      ensures event.Watched() == None && event.fd !in event.poller.distributers && event.statu == New
      ensures shut == old(shut) && inputBuffer.Contents() == old(inputBuffer.Contents())
    {
      state, closed := Disconnected, true;
      event.SetEvents(NONE);
      event.poller.RemoveEvent(event);
    }
  }

  /** sendInLoop may still be queued when connectDestroyed runs. It then registers the descriptor
      again exactly when it cannot write its whole message at once. */
  method LateSend(c: TcpConnection, message: Bytes, room: nat)
    requires c.Valid()
    modifies c.Repr()
    ensures c.Valid()
    ensures c.event.Watched() ==
            if message == [] || (old(c.outputBuffer.Contents()) == [] && room >= |message|)
            then None else Some(Interest(false, true))
  {
    c.ConnectDestroyed();
    c.SendInLoop(message, room);
  }

  datatype Op =
    | Establish
    | CallSend(message: Bytes, room: nat)
    | QueuedSend(message: Bytes, room: nat)
    | Writable(room: nat)
    | Readable(arrived: Option<Bytes>)
    | Close
    | Destroy

  function StateAfter(op: Op, state: State): State {
    if op.Establish? then Connected else if op.Destroy? then Disconnected else state
  }

  /** The messages that reach sendInLoop, in order. */
  function Messages(ops: seq<Op>, state: State): Bytes {
    if ops == [] then []
    else
      var now := match ops[0]
        case CallSend(message, _) => if state == Connected then message else []
        case QueuedSend(message, _) => message
        case _ => [];
      now + Messages(ops[1..], StateAfter(ops[0], state))
  }

  method Perform(c: TcpConnection, op: Op)
    requires c.Valid()
    modifies c.Repr()
    ensures c.Keeps() && c.state == StateAfter(op, old(c.state))
    ensures c.sent == old(c.sent) + Messages([op], old(c.state))
  {
    match op
    case Establish => c.ConnectEstablished();
    case CallSend(message, room) => c.Send(message, room);
    case QueuedSend(message, room) => c.SendInLoop(message, room);
    case Writable(room) => c.HandleWrite(room);
    case Readable(arrived) =>
      if arrived.Some? {
        c.HandleRead(Some(Take(arrived.value, c.inputBuffer.WritableBytes() + EXTRA_SIZE)));
      } else {
        c.HandleRead(None);
      }
    case Close => c.HandleClose();
    case Destroy => c.ConnectDestroyed();
  }

  lemma MessagesFirst(ops: seq<Op>, state: State)
    requires ops != []
    ensures Messages(ops, state) == Messages([ops[0]], state) + Messages(ops[1..], StateAfter(ops[0], state))
  {
    assert [ops[0]][1..] == [];
  }

  /** Over any run, the bytes on the wire and the output buffer are together exactly the messages
      in order, and no epoll_ctl is refused. */
  method Run(c: TcpConnection, ops: seq<Op>)
    requires c.Valid()
    modifies c.Repr()
    ensures c.Valid() && c.event.poller.refused == old(c.event.poller.refused)
    ensures c.wire + c.outputBuffer.Contents() == old(c.sent) + Messages(ops, old(c.state))
  {
    ghost var all := old(c.sent) + Messages(ops, old(c.state));
    for i := 0 to |ops|
      invariant c.Valid() && fresh(c.Repr() - old(c.Repr()))
      invariant c.event.poller.refused == old(c.event.poller.refused)
      invariant c.sent + Messages(ops[i..], c.state) == all
    {
      MessagesFirst(ops[i..], c.state);
      assert ops[i..][1..] == ops[i + 1..];
      Assoc(c.sent, Messages([ops[i]], c.state), Messages(ops[i + 1..], StateAfter(ops[i], c.state)));
      Perform(c, ops[i]);
    }
  }
}
