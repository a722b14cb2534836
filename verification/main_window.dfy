/**
 The main window's bookkeeping: the reference-count protocol of queued
 split-group requests, the redraw and close flags, and the dialog registry
 filled by `AddDialog`.
 */
module MainWindow {

  type ChannelId = nat
  type GroupId = nat
  type InstrumentId = nat

  /** Reference counts of the channels, as `AddRef`/`Release` move them; absent means 0. */
  type RefCounts = map<ChannelId, int>

  function Count(w: RefCounts, c: ChannelId): int
  {
    if c in w then w[c] else 0
  }

  function AddRef(w: RefCounts, c: ChannelId): (r: RefCounts)
    ensures Count(r, c) == Count(w, c) + 1
    ensures forall d :: d != c ==> Count(r, d) == Count(w, d)
  {
    w[c := Count(w, c) + 1]
  }

  function Release(w: RefCounts, c: ChannelId): (r: RefCounts)
    ensures Count(r, c) == Count(w, c) - 1
    ensures forall d :: d != c ==> Count(r, d) == Count(w, d)
  {
    w[c := Count(w, c) - 1]
  }

  datatype Direction = DirLeft | DirRight | DirUp | DirDown
  datatype StreamDescriptor = StreamDescriptor(channel: ChannelId, stream: nat)

  /** A request to split a waveform group; it holds one reference to its stream's channel. */
  datatype SplitGroupRequest = SplitGroupRequest(group: GroupId, direction: Direction, stream: StreamDescriptor)

  /** The constructor takes a reference to the stream's channel. */
  function Construct(w: RefCounts, group: GroupId, direction: Direction, stream: StreamDescriptor)
    : (r: (RefCounts, SplitGroupRequest))
    ensures r.1 == SplitGroupRequest(group, direction, stream)
    ensures Count(r.0, stream.channel) == Count(w, stream.channel) + 1
    ensures forall d :: d != stream.channel ==> Count(r.0, d) == Count(w, d)
  {
    (AddRef(w, stream.channel), SplitGroupRequest(group, direction, stream))
  }

  /** The copy constructor takes one more reference; assignment does not exist. */
  function Copy(w: RefCounts, req: SplitGroupRequest): (r: (RefCounts, SplitGroupRequest))
    ensures r.1 == req
    ensures Count(r.0, req.stream.channel) == Count(w, req.stream.channel) + 1
    ensures forall d :: d != req.stream.channel ==> Count(r.0, d) == Count(w, d)
  {
    (AddRef(w, req.stream.channel), req)
  }

  /** The destructor gives its reference back. */
  function Destroy(w: RefCounts, req: SplitGroupRequest): (r: RefCounts)
    ensures Count(r, req.stream.channel) == Count(w, req.stream.channel) - 1
    ensures forall d :: d != req.stream.channel ==> Count(r, d) == Count(w, d)
  {
    Release(w, req.stream.channel)
  }

  /** The channels referenced by live requests, one occurrence per request. */
  function Held(q: seq<SplitGroupRequest>): (h: multiset<ChannelId>)
    ensures |h| == |q|
  {
    if |q| == 0 then multiset{} else Held(q[..|q| - 1]) + multiset{q[|q| - 1].stream.channel}
  }

  /** Every channel's count is its count before any request existed plus one per live request. */
  ghost predicate Balanced(w: RefCounts, base: RefCounts, q: seq<SplitGroupRequest>)
  {
    forall c :: Count(w, c) == Count(base, c) + Held(q)[c]
  }

  /**
   `push_back` of a temporary: the temporary is built, copied into the queue
   and destroyed, so the queue gains one request and its channel one reference.
   */
  function QueueSplitGroup(w: RefCounts, q: seq<SplitGroupRequest>, group: GroupId, direction: Direction, stream: StreamDescriptor)
    : (r: (RefCounts, seq<SplitGroupRequest>))
    ensures r.1 == q + [SplitGroupRequest(group, direction, stream)]
    ensures Count(r.0, stream.channel) == Count(w, stream.channel) + 1
    ensures forall d :: d != stream.channel ==> Count(r.0, d) == Count(w, d)
  {
    var (w1, temp) := Construct(w, group, direction, stream);
    var (w2, stored) := Copy(w1, temp);
    (Destroy(w2, temp), q + [stored])
  }

  /** Queueing a request keeps the counts balanced against the live requests. */
  lemma {:induction false} QueueSplitGroupBalanced(
    w: RefCounts, base: RefCounts, q: seq<SplitGroupRequest>, group: GroupId, direction: Direction, stream: StreamDescriptor)
    requires Balanced(w, base, q)
    ensures
      var r := QueueSplitGroup(w, q, group, direction, stream);
      Balanced(r.0, base, r.1)
  {
    var r := QueueSplitGroup(w, q, group, direction, stream);
    assert r.1[..|r.1| - 1] == q;
    assert Held(r.1) == Held(q) + multiset{stream.channel};
  }

  /** Copying every request (as a growing vector does): one more reference per request. */
  function CopyAll(w: RefCounts, q: seq<SplitGroupRequest>): (r: RefCounts)
    ensures forall c :: Count(r, c) == Count(w, c) + Held(q)[c]
    decreases |q|
  {
    if |q| == 0 then w else AddRef(CopyAll(w, q[..|q| - 1]), q[|q| - 1].stream.channel)
  }

  /** Destroying every request (the old storage, or the queue once served): one fewer per request. */
  function DestroyAll(w: RefCounts, q: seq<SplitGroupRequest>): (r: RefCounts)
    ensures forall c :: Count(r, c) == Count(w, c) - Held(q)[c]
    decreases |q|
  {
    if |q| == 0 then w else Release(DestroyAll(w, q[..|q| - 1]), q[|q| - 1].stream.channel)
  }

  /** Moving the queue to new storage copies then destroys each request: every count is as before. */
  lemma ReallocationNeutral(w: RefCounts, q: seq<SplitGroupRequest>)
    ensures forall c :: Count(DestroyAll(CopyAll(w, q), q), c) == Count(w, c)
  {
  }

  /** Once every queued request is destroyed, each channel is back to its count before any request. */
  lemma ClearingReleasesAll(w: RefCounts, base: RefCounts, q: seq<SplitGroupRequest>)
    requires Balanced(w, base, q)
    ensures forall c :: Count(DestroyAll(w, q), c) == Count(base, c)
  {
  }

  /** The main window's redraw and close flags. */
  datatype Flags = Flags(needRender: bool, clearPersistence: bool, sessionClosing: bool)

  function SetNeedRender(f: Flags): (r: Flags)
    ensures r.needRender && r.clearPersistence == f.clearPersistence && r.sessionClosing == f.sessionClosing
  {
    f.(needRender := true)
  }

  /** Requests a persistence clear, which needs a redraw. */
  function ClearPersistence(f: Flags): (r: Flags)
    ensures r.clearPersistence && r.needRender && r.sessionClosing == f.sessionClosing
  {
    SetNeedRender(f.(clearPersistence := true))
  }

  /** Asks for the session to close and touches nothing else. */
  function QueueCloseSession(f: Flags): (r: Flags)
    ensures r.sessionClosing && r.needRender == f.needRender && r.clearPersistence == f.clearPersistence
  {
    f.(sessionClosing := true)
  }

  /** Each flag setter is idempotent, and the two requests commute. */
  lemma FlagSettersIdempotentAndCommute(f: Flags)
    ensures ClearPersistence(ClearPersistence(f)) == ClearPersistence(f)
    ensures QueueCloseSession(QueueCloseSession(f)) == QueueCloseSession(f)
    ensures ClearPersistence(QueueCloseSession(f)) == QueueCloseSession(ClearPersistence(f))
  {
  }

  /** What the dynamic casts in `AddDialog` can find out about a dialog. */
  datatype DialogKind =
    | MeterDialog(meter: InstrumentId)
    | FunctionGeneratorDialog(generator: InstrumentId)
    | RFGeneratorDialog(rfGenerator: InstrumentId)
    | OtherDialog

  datatype Dialog = Dialog(id: nat, kind: DialogKind)

  datatype Registry = Registry(
    dialogs: set<Dialog>,
    meterDialogs: map<InstrumentId, Dialog>,
    generatorDialogs: map<InstrumentId, Dialog>,
    rfGeneratorDialogs: map<InstrumentId, Dialog>)

  /** Every keyed dialog is a registered dialog of the right kind for its key. */
  predicate WellKeyed(g: Registry)
  {
    && (forall m :: m in g.meterDialogs ==> g.meterDialogs[m] in g.dialogs && g.meterDialogs[m].kind == MeterDialog(m))
    && (forall m :: m in g.generatorDialogs ==>
          g.generatorDialogs[m] in g.dialogs && g.generatorDialogs[m].kind == FunctionGeneratorDialog(m))
    && (forall m :: m in g.rfGeneratorDialogs ==>
          g.rfGeneratorDialogs[m] in g.dialogs && g.rfGeneratorDialogs[m].kind == RFGeneratorDialog(m))
  }

  /** Registers a dialog, and keys meter and generator dialogs by their instrument. */
  function AddDialog(g: Registry, dlg: Dialog): (r: Registry)
    ensures r.dialogs == g.dialogs + {dlg}
    ensures dlg.kind.MeterDialog? ==> dlg.kind.meter in r.meterDialogs && r.meterDialogs[dlg.kind.meter] == dlg
    ensures dlg.kind.FunctionGeneratorDialog? ==>
      dlg.kind.generator in r.generatorDialogs && r.generatorDialogs[dlg.kind.generator] == dlg
    ensures dlg.kind.RFGeneratorDialog? ==>
      dlg.kind.rfGenerator in r.rfGeneratorDialogs && r.rfGeneratorDialogs[dlg.kind.rfGenerator] == dlg
    ensures dlg.kind.MeterDialog? ==> r.meterDialogs == g.meterDialogs[dlg.kind.meter := dlg]
    ensures dlg.kind.FunctionGeneratorDialog? ==> r.generatorDialogs == g.generatorDialogs[dlg.kind.generator := dlg]
    ensures dlg.kind.RFGeneratorDialog? ==> r.rfGeneratorDialogs == g.rfGeneratorDialogs[dlg.kind.rfGenerator := dlg]
    ensures !dlg.kind.MeterDialog? ==> r.meterDialogs == g.meterDialogs
    ensures !dlg.kind.FunctionGeneratorDialog? ==> r.generatorDialogs == g.generatorDialogs
    ensures !dlg.kind.RFGeneratorDialog? ==> r.rfGeneratorDialogs == g.rfGeneratorDialogs
    ensures WellKeyed(g) ==> WellKeyed(r)
  {
    var g1 := g.(dialogs := g.dialogs + {dlg});
    match dlg.kind
    case MeterDialog(m) => g1.(meterDialogs := g.meterDialogs[m := dlg])
    case FunctionGeneratorDialog(m) => g1.(generatorDialogs := g.generatorDialogs[m := dlg])
    case RFGeneratorDialog(m) => g1.(rfGeneratorDialogs := g.rfGeneratorDialogs[m := dlg])
    case OtherDialog => g1
  }

  /** Adding the same dialog twice is the same as adding it once. */
  lemma AddDialogIdempotent(g: Registry, dlg: Dialog)
    ensures AddDialog(AddDialog(g, dlg), dlg) == AddDialog(g, dlg)
  {
  }
}
