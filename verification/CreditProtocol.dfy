/**
 * Two endpoints running the client's windows against each other over FIFO channels: a receiver that grants credit
 * back, and a sender of DATA. The sender is the client's pump or anything else that keeps within the windows, with
 * padding or without. Either side may forget a stream at any time.
 */
module CreditProtocol {
  import opened Common
  import opened FlowControl

  /** DATA of a stream; `padding` is what a padded frame's payload is longer than its data. */
  datatype Data = Data(id: nat, bytes: seq<Byte>, padding: nat) {
    /** What flow control counts: the whole payload. */
    function Billed(): nat { |bytes| + padding }
  }

  /** A WINDOW_UPDATE; id 0 is the connection. */
  datatype Grant = Grant(id: nat, increment: int)

  datatype Net = Net(
    connSend: int,
    send: map<nat, SendWindow>,
    body: map<nat, seq<Byte>>,
    sent: map<nat, nat>,
    connRecv: RecvWindow,
    recv: map<nat, RecvWindow>,
    got: map<nat, seq<Byte>>,
    data: seq<Data>,
    grants: seq<Grant>)

  /**
   * `Open` starts a stream, `Pump` sends the client's next DATA frame, `Send` any frame within both windows; the
   * others pop a channel or drop a stream.
   */
  datatype Step = Open(id: nat, bytes: seq<Byte>) | Pump(id: nat, maxFrameSize: nat)
      | Send(id: nat, n: nat, padding: nat)
                | Deliver | Accept | SenderForgets(id: nat) | ReceiverForgets(id: nat)

  function Start(): Net
  {
    Net(DEFAULT_WINDOW, map[], map[], map[], NewRecvWindow(), map[], map[], [], [])
  }

  function ChunkSize(s: Net, id: nat, maxFrameSize: nat): nat
    requires id in s.send && id in s.body && id in s.sent && s.sent[id] <= |s.body[id]|
  {
    NextDataChunkSize(maxFrameSize, Min(s.send[id].available, s.connSend), |s.body[id]| - s.sent[id])
  }

  /** The sender's bookkeeping for a DATA frame of `n` bytes and some padding. */
  function SendData(s: Net, id: nat, n: nat, padding: nat): Net
    requires id in s.send && id in s.body && id in s.sent && s.sent[id] + n <= |s.body[id]|
  {
    s.(connSend := s.connSend - (n + padding), send := s.send[id := s.send[id].Consume(n + padding)],
       sent := s.sent[id := s.sent[id] + n],
       data := s.data + [Data(id, s.body[id][s.sent[id]..s.sent[id] + n], padding)])
  }

  /** A frame within the body and both windows. */
  predicate MaySend(s: Net, id: nat, n: nat, padding: nat)
  {
    id in s.send && id in s.body && id in s.sent && s.sent[id] + n <= |s.body[id]|
    && n + padding <= s.send[id].available && n + padding <= s.connSend
  }

  function GrantFrames(id: nat, increment: Option<int>): seq<Grant>
  {
    if increment.Some? then [Grant(id, increment.value)] else []
  }

  /** Inbound DATA: bill both windows, reject an overrun, append, replenish. */
  function ReceiveData(s: Net): Result<Net>
    requires s.data != []
  {
    var id, n := s.data[0].id, s.data[0].Billed();
    var conn := s.connRecv.Consume(n);
    var (conn', inc0) := conn.Replenish();
    if conn.available < 0 then Err
    else if id !in s.recv || id !in s.got then
      Ok(s.(connRecv := conn', data := s.data[1..], grants := s.grants + GrantFrames(0, inc0)))
    else
      var stream := s.recv[id].Consume(n);
      var (stream', inc) := stream.Replenish();
      if stream.available < 0 then Err
      else Ok(s.(connRecv := conn', recv := s.recv[id := stream'], got := s.got[id := s.got[id] + s.data[0].bytes],
                 data := s.data[1..], grants := s.grants + (GrantFrames(0, inc0) + GrantFrames(id, inc))))
  }

  /** Inbound WINDOW_UPDATE at the sender; for an unknown stream it is dropped. */
  function ReceiveGrant(s: Net): Result<Net>
    requires s.grants != []
  {
    var g := s.grants[0];
    var rest := s.(grants := s.grants[1..]);
    if g.increment < 0 then Err
    else if g.id == 0 then
      match ApplyUpdate(s.connSend, g.increment)
      case Err => Err
      case Ok(a) => Ok(rest.(connSend := a))
    else if g.id !in s.send then Ok(rest)
    else
      match s.send[g.id].Update(g.increment)
      case Err => Err
      case Ok(w) => Ok(rest.(send := s.send[g.id := w]))
  }

  /** One step; a step that is not enabled changes nothing. `Err` is a flow-control error. */
  function Next(s: Net, step: Step): Result<Net>
  {
    match step
    case Open(id, bytes) =>
      if id == 0 || id in s.body then Ok(s)
      else Ok(s.(send := s.send[id := NewSendWindow(DEFAULT_WINDOW)], body := s.body[id := bytes],
                 sent := s.sent[id := 0],
                 recv := s.recv[id := NewRecvWindow()], got := s.got[id := []]))
    case Pump(id, maxFrameSize) =>
      if id !in s.send || id !in s.body || id !in s.sent || s.sent[id] > |s.body[id]| then Ok(s)
      else
        var n := ChunkSize(s, id, maxFrameSize);
        if n == 0 then Ok(s) else Ok(SendData(s, id, n, 0))
    case Send(id, n, padding) => if MaySend(s, id, n, padding) then Ok(SendData(s, id, n, padding)) else Ok(s)
    case Deliver => if s.data == [] then Ok(s) else ReceiveData(s)
    case Accept => if s.grants == [] then Ok(s) else ReceiveGrant(s)
    case SenderForgets(id) => Ok(s.(send := s.send - {id}))
    case ReceiverForgets(id) => Ok(s.(recv := s.recv - {id}))
  }

  function Run(s: Net, steps: seq<Step>): Result<Net>
    decreases |steps|
  {
    if steps == [] then Ok(s)
    else match Next(s, steps[0])
         case Err => Err
         case Ok(s') => Run(s', steps[1..])
  }

  // ----- what is in flight -----

  function DataTotal(data: seq<Data>): nat
  {
    if data == [] then 0 else data[0].Billed() + DataTotal(data[1..])
  }

  /** What flow control counts for one stream. */
  function DataCost(data: seq<Data>, id: nat): nat
  {
    if data == [] then 0 else (if data[0].id == id then data[0].Billed() else 0) + DataCost(data[1..], id)
  }

  /** Something in flight is for the stream. */
  predicate Carries(data: seq<Data>, id: nat)
  {
    data != [] && (data[0].id == id || Carries(data[1..], id))
  }

  function DataOf(data: seq<Data>, id: nat): seq<Byte>
  {
    if data == [] then []
    else (if data[0].id == id then data[0].bytes else []) + DataOf(data[1..], id)
  }

  function GrantsOf(grants: seq<Grant>, id: nat): int
  {
    if grants == [] then 0
    else (if grants[0].id == id then grants[0].increment else 0) + GrantsOf(grants[1..], id)
  }

  lemma {:induction false} BilledAppend(data: seq<Data>, x: Data, id: nat)
    ensures DataTotal(data + [x]) == DataTotal(data) + x.Billed()
    ensures DataCost(data + [x], id) == DataCost(data, id) + (if x.id == id then x.Billed() else 0)
    ensures Carries(data + [x], id) <==> Carries(data, id) || x.id == id
  {
    if data == [] {
      assert [] + [x] == [x];
    } else {
      BilledAppend(data[1..], x, id);
      assert (data + [x])[1..] == data[1..] + [x];
    }
  }

  lemma {:induction false} DataAppend(data: seq<Data>, x: Data, id: nat)
    ensures DataOf(data + [x], id) == DataOf(data, id) + (if x.id == id then x.bytes else [])
  {
    if data == [] {
      assert [] + [x] == [x];
      OneFrame(x, id);
    } else {
      DataAppend(data[1..], x, id);
      assert (data + [x])[1..] == data[1..] + [x];
      Associate(if data[0].id == id then data[0].bytes else [], DataOf(data[1..], id),
                if x.id == id then x.bytes else []);
    }
  }

  lemma OneFrame(x: Data, id: nat)
    ensures DataOf([x], id) == if x.id == id then x.bytes else []
  {
    assert [x][1..] == [];
  }

  lemma {:induction false} GrantsConcat(x: seq<Grant>, y: seq<Grant>, id: nat)
    ensures GrantsOf(x + y, id) == GrantsOf(x, id) + GrantsOf(y, id)
  {
    if x == [] {
      assert x + y == y;
    } else {
      GrantsConcat(x[1..], y, id);
      assert (x + y)[1..] == x[1..] + y;
    }
  }

  lemma {:induction false} GrantsPositive(grants: seq<Grant>, id: nat)
    requires forall g :: g in grants ==> g.increment > 0
    ensures GrantsOf(grants, id) >= 0
    ensures grants != [] && grants[0].id == id ==> GrantsOf(grants, id) >= grants[0].increment
  {
    if grants != [] {
      GrantsPositive(grants[1..], id);
    }
  }

  // ----- the invariant -----

  /** Half the initial window, below which the receiver grants everything back. */
  const THRESHOLD: int := 32767

  ghost predicate Healthy(w: RecvWindow)
  {
    w.initial == DEFAULT_WINDOW && THRESHOLD <= w.available <= DEFAULT_WINDOW
  }

  ghost predicate ConnCredit(s: Net)
  {
    && Healthy(s.connRecv) && s.connSend >= 0
    && s.connRecv.available == s.connSend + GrantsOf(s.grants, 0) + DataTotal(s.data)
  }

  /** The receiver's window covers what is in flight, exactly while the sender still keeps the stream. */
  ghost predicate StreamCredit(s: Net, id: nat)
  {
    && (id in s.send ==> s.send[id].available >= 0)
    && (id in s.recv ==> Healthy(s.recv[id]) && DataCost(s.data, id) <= s.recv[id].available)
    && (id in s.recv && id in s.send ==>
          s.recv[id].available == s.send[id].available + GrantsOf(s.grants, id) + DataCost(s.data, id))
    && (id in s.send ==> s.send[id].available + GrantsOf(s.grants, id) <= DEFAULT_WINDOW)
  }

  /** A stream nothing in flight is for. */
  lemma {:induction false} NoneInFlight(data: seq<Data>, id: nat)
    requires !Carries(data, id)
    ensures DataOf(data, id) == [] && DataCost(data, id) == 0
  {
    if data != [] {
      NoneInFlight(data[1..], id);
    }
  }

  /** What has arrived, followed by what is in flight, is what has been sent. */
  ghost predicate Delivery(s: Net, id: nat)
  {
    && (id in s.body <==> id in s.sent) && (id in s.body <==> id in s.got)
    && (id in s.send || id in s.recv || Carries(s.data, id) || GrantsOf(s.grants, id) != 0 ==> id in s.body)
    && (id in s.body ==> id != 0 && s.sent[id] <= |s.body[id]|)
    && (id in s.recv ==> s.got[id] + DataOf(s.data, id) == s.body[id][..s.sent[id]])
  }

  ghost predicate StreamInv(s: Net, id: nat)
  {
    StreamCredit(s, id) && Delivery(s, id)
  }

  ghost predicate Inv(s: Net)
  {
    && ConnCredit(s)
    && (forall g :: g in s.grants ==> g.increment > 0)
    && (forall x :: x in s.data ==> x.id != 0)
    && 0 !in s.body && 0 !in s.send && 0 !in s.recv
    && forall id :: id != 0 ==> StreamInv(s, id)
  }

  // ----- every step keeps it -----

  lemma OpenKeeps(s: Net, id: nat, bytes: seq<Byte>)
    requires Inv(s) && id != 0 && id !in s.body
    ensures Inv(Next(s, Open(id, bytes)).value)
  {
    var s' := Next(s, Open(id, bytes)).value;
    assert StreamInv(s, id);
    NoneInFlight(s.data, id);
    forall k | k != 0
      ensures StreamInv(s', k)
    {
      assert StreamInv(s, k);
    }
  }

  /** A stream's share of a frame sent on `id`. */
  lemma SendKeepsStream(s: Net, id: nat, n: nat, padding: nat, k: nat)
    requires Inv(s) && id != 0 && k != 0 && MaySend(s, id, n, padding) && StreamInv(s, k)
    ensures StreamInv(SendData(s, id, n, padding), k)
  {
    var x := Data(id, s.body[id][s.sent[id]..s.sent[id] + n], padding);
    BilledAppend(s.data, x, k);
    DataAppend(s.data, x, k);
    GrantsPositive(s.grants, k);
    if k == id {
      assert s.body[k][..s.sent[k]] + x.bytes == s.body[k][..s.sent[k] + n];
      if k in s.recv {
        Associate(s.got[k], DataOf(s.data, k), x.bytes);
      }
    } else {
      assert DataOf(s.data, k) + [] == DataOf(s.data, k);
    }
  }

  lemma SendKeeps(s: Net, id: nat, n: nat, padding: nat)
    requires Inv(s) && id != 0 && MaySend(s, id, n, padding)
    ensures Inv(SendData(s, id, n, padding))
  {
    BilledAppend(s.data, Data(id, s.body[id][s.sent[id]..s.sent[id] + n], padding), 0);
    forall k | k != 0
      ensures StreamInv(SendData(s, id, n, padding), k)
    {
      assert StreamInv(s, k);
      SendKeepsStream(s, id, n, padding, k);
    }
  }

  /** The client's pump is a sender that keeps within the windows. */
  lemma PumpKeeps(s: Net, id: nat, maxFrameSize: nat)
    requires Inv(s) && id in s.send
    ensures Inv(Next(s, Pump(id, maxFrameSize)).value)
  {
    assert id != 0 && StreamInv(s, id);
    if ChunkSize(s, id, maxFrameSize) > 0 {
      SendKeeps(s, id, ChunkSize(s, id, maxFrameSize), 0);
    }
  }

  lemma Associate(x: seq<Byte>, y: seq<Byte>, z: seq<Byte>)
    ensures x + (y + z) == x + y + z
  {
  }

  /** A healthy window that covers a frame stays healthy once replenished, and its grant is what it grew by. */
  lemma ReplenishHealthy(w: RecvWindow, n: nat)
    requires Healthy(w) && n <= w.available
    ensures var (w', inc) := w.Consume(n).Replenish();
            && Healthy(w') && (inc.Some? ==> inc.value > 0)
            && w'.available == w.available - n + (if inc.Some? then inc.value else 0)
  {
  }

  lemma GrantFramesOf(id: nat, inc: Option<int>, k: nat)
    ensures GrantsOf(GrantFrames(id, inc), k) == if inc.Some? && k == id then inc.value else 0
  {
    if inc.Some? {
      assert GrantFrames(id, inc)[1..] == [];
    }
  }

  lemma UnknownKeeps(s: Net)
    requires Inv(s) && s.data != [] && s.data[0].id !in s.recv
    ensures ReceiveData(s).Ok? && Inv(ReceiveData(s).value)
  {
    var x := s.data[0];
    ReplenishHealthyConn(s);
    var (conn, inc0) := s.connRecv.Consume(x.Billed()).Replenish();
    var s' := ReceiveData(s).value;
    GrantsConcat(s.grants, GrantFrames(0, inc0), 0);
    GrantFramesOf(0, inc0, 0);
    forall k | k != 0
      ensures StreamInv(s', k)
    {
      assert StreamInv(s, k);
      GrantsConcat(s.grants, GrantFrames(0, inc0), k);
      GrantFramesOf(0, inc0, k);
    }
  }

  lemma ReplenishHealthyConn(s: Net)
    requires Inv(s) && s.data != []
    ensures s.data[0].Billed() <= s.connRecv.available
    ensures var (w', inc) := s.connRecv.Consume(s.data[0].Billed()).Replenish();
            && Healthy(w') && (inc.Some? ==> inc.value > 0)
            && w'.available == s.connRecv.available - s.data[0].Billed() + (if inc.Some? then inc.value else 0)
  {
    GrantsPositive(s.grants, 0);
    ReplenishHealthy(s.connRecv, s.data[0].Billed());
  }

  lemma KnownKeeps(s: Net)
    requires Inv(s) && s.data != [] && s.data[0].id in s.recv
    ensures ReceiveData(s).Ok? && Inv(ReceiveData(s).value)
  {
    var id, n := s.data[0].id, s.data[0].Billed();
    assert StreamInv(s, id);
    ReplenishHealthyConn(s);
    ReplenishHealthy(s.recv[id], n);
    var (conn, inc0) := s.connRecv.Consume(n).Replenish();
    var (stream, inc) := s.recv[id].Consume(n).Replenish();
    NewGrants(s.grants, id, inc0, inc, 0);
    forall k | k != 0
      ensures StreamInv(ReceiveData(s).value, k)
    {
      assert StreamInv(s, k);
      KnownKeepsStream(s, k);
    }
  }

  lemma KnownKeepsStream(s: Net, k: nat)
    requires Inv(s) && s.data != [] && s.data[0].id in s.recv && ReceiveData(s).Ok? && k != 0 && StreamInv(s, k)
    ensures StreamInv(ReceiveData(s).value, k)
  {
    var id, n := s.data[0].id, s.data[0].Billed();
    assert StreamInv(s, id);
    ReplenishHealthy(s.recv[id], n);
    var (conn, inc0) := s.connRecv.Consume(n).Replenish();
    var (stream, inc) := s.recv[id].Consume(n).Replenish();
    NewGrants(s.grants, id, inc0, inc, k);
    if k == id {
      Associate(s.got[k], s.data[0].bytes, DataOf(s.data[1..], k));
    }
  }

  lemma NewGrants(grants: seq<Grant>, id: nat, inc0: Option<int>, inc: Option<int>, k: nat)
    requires id != 0
    ensures GrantsOf(grants + (GrantFrames(0, inc0) + GrantFrames(id, inc)), k)
         == GrantsOf(grants, k) + (if inc0.Some? && k == 0 then inc0.value else 0)
           + (if inc.Some? && k == id then inc.value else 0)
  {
    GrantsConcat(grants, GrantFrames(0, inc0) + GrantFrames(id, inc), k);
    GrantsConcat(GrantFrames(0, inc0), GrantFrames(id, inc), k);
    GrantFramesOf(0, inc0, k);
    GrantFramesOf(id, inc, k);
  }

  lemma AcceptKeeps(s: Net)
    requires Inv(s) && s.grants != []
    ensures ReceiveGrant(s).Ok? && Inv(ReceiveGrant(s).value)
  {
    var g := s.grants[0];
    GrantsPositive(s.grants, g.id);
    GrantsPositive(s.grants[1..], g.id);
    if g.id != 0 {
      assert StreamInv(s, g.id);
    }
    var s' := ReceiveGrant(s).value;
    forall k | k != 0
      ensures StreamInv(s', k)
    {
      assert StreamInv(s, k);
    }
  }

  lemma ForgetKeeps(s: Net, id: nat)
    requires Inv(s)
    ensures Inv(Next(s, SenderForgets(id)).value) && Inv(Next(s, ReceiverForgets(id)).value)
  {
    forall k | k != 0
      ensures StreamInv(Next(s, SenderForgets(id)).value, k) && StreamInv(Next(s, ReceiverForgets(id)).value, k)
    {
      assert StreamInv(s, k);
    }
  }

  lemma StepKeeps(s: Net, step: Step)
    requires Inv(s)
    ensures Next(s, step).Ok? && Inv(Next(s, step).value)
  {
    match step
    case Open(id, bytes) => if id != 0 && id !in s.body { OpenKeeps(s, id, bytes); }
    case Pump(id, m) => if id in s.send { PumpKeeps(s, id, m); }
    case Send(id, n, padding) => if MaySend(s, id, n, padding) { SendKeeps(s, id, n, padding); }
    case Deliver => if s.data != [] { if s.data[0].id in s.recv { KnownKeeps(s); } else { UnknownKeeps(s); } }
    case Accept => if s.grants != [] { AcceptKeeps(s); }
    case SenderForgets(id) => ForgetKeeps(s, id);
    case ReceiverForgets(id) => ForgetKeeps(s, id);
  }

  /** No run from a fresh connection ever trips a flow-control error, and the credit equations hold throughout. */
  lemma {:induction false} RunsKeepCredit(s: Net, steps: seq<Step>)
    requires Inv(s)
    ensures Run(s, steps).Ok? && Inv(Run(s, steps).value)
    decreases |steps|
  {
    if steps != [] {
      StepKeeps(s, steps[0]);
      RunsKeepCredit(Next(s, steps[0]).value, steps[1..]);
    }
  }

  lemma StartHolds()
    ensures Inv(Start())
  {
    forall k | k != 0
      ensures StreamInv(Start(), k)
    {
    }
  }

  // ----- no deadlock -----

  /** Delivering what is in flight empties both channels; each DATA frame causes at most two grants. */
  function Drain(s: Net): (steps: seq<Step>)
    decreases 3 * |s.data| + |s.grants|
  {
    if s.grants != [] then
      match ReceiveGrant(s)
      case Err => []
      case Ok(s') => [Accept] + Drain(s')
    else if s.data != [] then
      match ReceiveData(s)
      case Err => []
      case Ok(s') => [Deliver] + Drain(s')
    else []
  }

  lemma RunCons(s: Net, step: Step, rest: seq<Step>)
    requires Next(s, step).Ok?
    ensures Run(s, [step] + rest) == Run(Next(s, step).value, rest)
  {
    assert ([step] + rest)[1..] == rest;
  }

  lemma {:induction false} RunConcat(s: Net, x: seq<Step>, y: seq<Step>)
    requires Run(s, x).Ok?
    ensures Run(s, x + y) == Run(Run(s, x).value, y)
    decreases |x|
  {
    if x == [] {
      assert x + y == y;
    } else {
      RunConcat(Next(s, x[0]).value, x[1..], y);
      assert (x + y)[1..] == x[1..] + y;
    }
  }

  /** Both channels are empty, and no stream was opened, forgotten or fed on the way. */
  ghost predicate Drained(s: Net, d: Net)
  {
    && d.data == [] && d.grants == []
    && d.send.Keys == s.send.Keys && d.recv.Keys == s.recv.Keys && d.body == s.body && d.sent == s.sent
  }

  /** What draining one frame leaves, and that it is one frame fewer to drain. */
  ghost predicate DrainsTo(s: Net, s': Net)
  {
    && 3 * |s'.data| + |s'.grants| < 3 * |s.data| + |s.grants|
    && s'.send.Keys == s.send.Keys && s'.recv.Keys == s.recv.Keys && s'.body == s.body && s'.sent == s.sent
  }

  lemma AcceptDrains(s: Net)
    requires Inv(s) && s.grants != []
    ensures ReceiveGrant(s).Ok? && Inv(ReceiveGrant(s).value) && DrainsTo(s, ReceiveGrant(s).value)
  {
    AcceptKeeps(s);
  }

  lemma DeliverDrains(s: Net)
    requires Inv(s) && s.data != []
    ensures ReceiveData(s).Ok? && Inv(ReceiveData(s).value) && DrainsTo(s, ReceiveData(s).value)
  {
    if s.data[0].id in s.recv {
      KnownKeeps(s);
    } else {
      UnknownKeeps(s);
    }
  }

  lemma {:induction false} DrainEmpties(s: Net)
    requires Inv(s)
    ensures Run(s, Drain(s)).Ok? && Inv(Run(s, Drain(s)).value) && Drained(s, Run(s, Drain(s)).value)
    decreases 3 * |s.data| + |s.grants|
  {
    if s.grants != [] {
      AcceptDrains(s);
      var s' := ReceiveGrant(s).value;
      DrainEmpties(s');
      RunCons(s, Accept, Drain(s'));
    } else if s.data != [] {
      DeliverDrains(s);
      var s' := ReceiveData(s).value;
      DrainEmpties(s');
      RunCons(s, Deliver, Drain(s'));
    }
  }

  /** A stream both sides keep can always be driven until its whole body has arrived. */
  lemma {:induction false} CanFinish(s: Net, id: nat) returns (steps: seq<Step>)
    requires Inv(s) && id in s.send && id in s.recv
    ensures id in s.body && id in s.sent
    ensures var r := Run(s, steps);
            r.Ok? && id in r.value.got && r.value.got[id] == s.body[id]
    decreases if id in s.body && id in s.sent then |s.body[id]| - s.sent[id] else 0
  {
    assert StreamInv(s, id);
    DrainEmpties(s);
    var d := Run(s, Drain(s)).value;
    assert id in d.send.Keys && id in d.recv.Keys && StreamInv(d, id);
    if s.sent[id] == |s.body[id]| {
      steps := Drain(s);
      assert d.got[id] + DataOf(d.data, id) == d.got[id];
    } else {
      StepKeeps(d, Pump(id, 1));
      var p := Next(d, Pump(id, 1)).value;
      var more := CanFinish(p, id);
      steps := Drain(s) + ([Pump(id, 1)] + more);
      RunConcat(s, Drain(s), [Pump(id, 1)] + more);
      RunCons(d, Pump(id, 1), more);
    }
  }

  /**
   * From every reachable state the channels can drain, and then every stream both sides still know
   * may send at least 32767 bytes: a body is never stuck.
   */
  lemma NeverStuck(steps: seq<Step>)
    ensures var r := Run(Start(), steps);
            && r.Ok?
            && var d := Run(r.value, Drain(r.value));
               && d.Ok? && d.value.data == [] && d.value.grants == []
               && forall id :: id in r.value.send && id in r.value.recv ==>
                    id in d.value.send && Min(d.value.send[id].available, d.value.connSend) >= THRESHOLD
  {
    StartHolds();
    RunsKeepCredit(Start(), steps);
    var r := Run(Start(), steps).value;
    DrainEmpties(r);
    var d := Run(r, Drain(r)).value;
    forall id | id in r.send && id in r.recv
      ensures id in d.send && Min(d.send[id].available, d.connSend) >= THRESHOLD
    {
      assert id in d.send.Keys && id in d.recv.Keys;
      assert StreamInv(d, id);
    }
  }

  lemma PrefixArrived(s: Net, id: nat)
    requires StreamInv(s, id) && id in s.recv
    ensures id in s.got && id in s.body && s.got[id] <= s.body[id]
  {
    assert s.got[id] <= s.got[id] + DataOf(s.data, id);
  }

  /** In every reachable state what a stream has received is a prefix of its body. */
  lemma ReceivedIsPrefix(steps: seq<Step>, id: nat)
    ensures var r := Run(Start(), steps);
            && r.Ok?
            && (id in r.value.recv ==>
                  id in r.value.got && id in r.value.body && r.value.got[id] <= r.value.body[id])
  {
    StartHolds();
    RunsKeepCredit(Start(), steps);
    var s := Run(Start(), steps).value;
    if id in s.recv {
      assert id != 0 && StreamInv(s, id);
      PrefixArrived(s, id);
    }
  }
}
