/** The life of control connections on the server, as the atomic steps of its
    goroutines: NewControl, writer, reader, manager and stopper of
    src/ngrok/server/control.go, the registries of registry.go, tunnels of
    tunnel.go, NewProxy of main.go and the public handlers. Everything a run can do
    is a sequence of these steps, in any order that their guards allow. */
module Lifecycle {
  import opened Options

  type Ctl = nat
  type Tun = nat
  type Conn = nat
  type HandlerId = nat

  const POOL_SIZE := 10

  // ----- The state -----

  datatype Msg = AuthResp(ok: bool) | ReqProxy | NewTunnel(ok: bool) | Pong

  /** Where NewControl is: refused, waiting for the control it replaced, about to
      answer, about to ask for a proxy, or done with everything started. */
  datatype Start = Rejected | Waiting | AuthDue | ProxyDue | Started

  datatype Writer = Unstarted | Alive | Dead

  /** Messages taken from the out channel, those written, and the one in hand. */
  datatype Wire = Wire(writer: Writer, sent: seq<Msg>, written: seq<Msg>, inHand: Option<Msg>)

  datatype Manager = NotStarted | Idle | Making(t: Tun) | Made(t: Tun) | Replying(m: Msg) | Refused | Exited

  /** Where stopper is; each state implies that the channels before it are closed. */
  datatype Stop = Watching | Removed | NoInput | NoOutput | Tearing(next: nat) | Draining | Complete

  datatype Control = Control(id: string, replaced: Option<Ctl>, start: Start, begun: bool, stop: Stop,
                             manager: Manager, tunnels: seq<Tun>, pool: seq<Conn>, wire: Wire)

  /** A tunnel: its control, its urls, and a URL registered but not yet among them. */
  datatype Tunnel = Tunnel(ctl: Ctl, urls: seq<string>, pending: Option<string>)

  datatype Doing = Asking | AskDue | Awaiting | Using(x: Conn) | Over

  /** A public connection being served through a control. */
  datatype Handler = Handler(ctl: Ctl, doing: Doing)

  /** Where a proxy connection is. */
  datatype Place = InTransit(c: Ctl) | Pooled(c: Ctl) | HeldBy(h: HandlerId) | Closed

  datatype State = State(
    registry: map<string, Ctl>,     // controlRegistry.controls
    ctls: seq<Control>,
    urls: map<string, Tun>,         // tunnelRegistry.tunnels
    tuns: seq<Tunnel>,
    handlers: seq<Handler>,
    transit: map<Conn, Ctl>,        // NewProxy calls between the lookup and the send
    closed: set<Conn>,
    place: map<Conn, Place>)        // a record of where each connection went

  const EMPTY := State(map[], [], map[], [], [], map[], {}, map[])

  predicate InClosed(stop: Stop) {
    !stop.Watching? && !stop.Removed?
  }

  predicate OutClosed(stop: Stop) {
    InClosed(stop) && !stop.NoInput?
  }

  predicate PoolClosed(stop: Stop) {
    stop.Draining? || stop.Complete?
  }

  function With(s: State, c: Ctl, k: Control): State
    requires c < |s.ctls|
  {
    s.(ctls := s.ctls[c := k])
  }

  /** A send on the out channel meets a writer that is ready. */
  predicate Accepts(k: Control) {
    k.wire.writer == Alive && k.wire.inHand == None && !OutClosed(k.stop)
  }

  function Sent(k: Control, m: Msg): Control {
    k.(wire := k.wire.(sent := k.wire.sent + [m], inHand := Some(m)))
  }

  // ----- NewControl -----

  datatype StartAction = Reject | Register(id: string) | StartWriter(c: Ctl) | SendAuth(c: Ctl) | SendFirstReq(c: Ctl)

  const NEW_WIRE := Wire(Unstarted, [], [], None)

  function NewCtl(id: string, replaced: Option<Ctl>): Control {
    Control(id, replaced, Waiting, false, Watching, NotStarted, [], [], NEW_WIRE)
  }

  /** ControlRegistry.Add: the old control loses its id and begins to shut down. */
  function Add(s: State, id: string): State {
    var c := |s.ctls|;
    if id in s.registry && s.registry[id] < c then
      var r := s.registry[id];
      s.(registry := s.registry[id := c],
         ctls := s.ctls[r := s.ctls[r].(id := "", begun := true)] + [NewCtl(id, Some(r))])
    else s.(registry := s.registry[id := c], ctls := s.ctls + [NewCtl(id, None)])
  }

  function StartStep(s: State, a: StartAction): Option<State> {
    match a
    case Reject =>
      Some(s.(ctls := s.ctls + [NewCtl("", None).(start := Rejected, wire := NEW_WIRE.(written := [AuthResp(false)]))]))
    case Register(id) =>
      if id == "" then None else Some(Add(s, id))
    case StartWriter(c) =>
      if c < |s.ctls| && s.ctls[c].start == Waiting
         && match s.ctls[c].replaced { case None => true case Some(r) => r < |s.ctls| && s.ctls[r].stop == Complete }
      then Some(With(s, c, s.ctls[c].(start := AuthDue, wire := NEW_WIRE.(writer := Alive))))
      else None
    case SendAuth(c) =>
      if c < |s.ctls| && s.ctls[c].start == AuthDue && Accepts(s.ctls[c])
      then Some(With(s, c, Sent(s.ctls[c], AuthResp(true)).(start := ProxyDue)))
      else None
    case SendFirstReq(c) =>
      if c < |s.ctls| && s.ctls[c].start == ProxyDue && Accepts(s.ctls[c])
      then Some(With(s, c, Sent(s.ctls[c], ReqProxy).(start := Started, manager := Idle)))
      else None
  }

  // ----- writer and reader -----

  datatype WireAction = Write(c: Ctl) | WriteFails(c: Ctl) | WriterExits(c: Ctl) | ReaderExits(c: Ctl)

  function WireStep(s: State, a: WireAction): Option<State> {
    if a.c >= |s.ctls| then None
    else
      var k := s.ctls[a.c];
      match a
      case Write(c) =>
        if k.wire.writer == Alive && k.wire.inHand.Some?
        then Some(With(s, c, k.(wire := k.wire.(written := k.wire.written + [k.wire.inHand.value], inHand := None))))
        else None
      case WriteFails(c) =>
        if k.wire.writer == Alive && k.wire.inHand.Some?
        then Some(With(s, c, k.(wire := k.wire.(writer := Dead), begun := true)))
        else None
      case WriterExits(c) =>
        if k.wire.writer == Alive && k.wire.inHand == None && OutClosed(k.stop)
        then Some(With(s, c, k.(wire := k.wire.(writer := Dead), begun := true)))
        else None
      case ReaderExits(c) =>
        if k.start == Started then Some(With(s, c, k.(begun := true))) else None
  }

  // ----- manager -----

  datatype ManageAction = LoseHeartbeat(c: Ctl) | ReadPing(c: Ctl) | ReadRequest(c: Ctl) | RegisterUrl(c: Ctl, url: string)
                        | AppendUrl(c: Ctl) | Adopt(c: Ctl) | FailTunnel(c: Ctl) | Reply(c: Ctl, more: bool)
                        | Settle(c: Ctl) | ManagerExits(c: Ctl)

  /** A tunnel object for the next protocol. */
  function Make(s: State, c: Ctl, k: Control): State
    requires c < |s.ctls|
  {
    With(s, c, k.(manager := Making(|s.tuns|))).(tuns := s.tuns + [Tunnel(c, [], None)])
  }

  function ManageStep(s: State, a: ManageAction): Option<State> {
    if a.c >= |s.ctls| then None
    else
      var k := s.ctls[a.c];
      match a
      case LoseHeartbeat(c) =>
        if k.manager == Idle then Some(With(s, c, k.(begun := true))) else None
      case ReadPing(c) =>
        if k.manager == Idle && !InClosed(k.stop) then Some(With(s, c, k.(manager := Replying(Pong)))) else None
      case ReadRequest(c) =>
        if k.manager == Idle && !InClosed(k.stop) then Some(Make(s, c, k)) else None
      case RegisterUrl(c, url) =>
        if k.manager.Making? && k.manager.t < |s.tuns| && s.tuns[k.manager.t].pending == None && url !in s.urls
        then Some(s.(urls := s.urls[url := k.manager.t], tuns := s.tuns[k.manager.t := s.tuns[k.manager.t].(pending := Some(url))]))
        else None
      case AppendUrl(c) =>
        if k.manager.Making? && k.manager.t < |s.tuns| && s.tuns[k.manager.t].pending.Some?
        then
          var t := k.manager.t;
          Some(With(s, c, k.(manager := Made(t)))
               .(tuns := s.tuns[t := s.tuns[t].(urls := s.tuns[t].urls + [s.tuns[t].pending.value], pending := None)]))
        else None
      case Adopt(c) =>
        if k.manager.Made?
        then Some(With(s, c, k.(tunnels := k.tunnels + [k.manager.t], manager := Replying(NewTunnel(true)))))
        else None
      case FailTunnel(c) =>
        if k.manager.Making? && k.manager.t < |s.tuns| && s.tuns[k.manager.t].pending == None
        then Some(With(s, c, k.(manager := Replying(NewTunnel(false)))))
        else None
      case Reply(c, more) =>
        if k.manager.Replying? && Accepts(k)
        then
          var m, k' := k.manager.m, Sent(k, k.manager.m);
          Some(if m == NewTunnel(true) && more then Make(s, c, k')
               else With(s, c, k'.(manager := if m == NewTunnel(false) then Refused else Idle)))
        else None
      case Settle(c) =>
        if k.manager == Refused
        then Some(With(s, c, k.(manager := Idle, begun := k.begun || k.tunnels == [])))
        else None
      case ManagerExits(c) =>
        if k.manager == Idle && InClosed(k.stop) then Some(With(s, c, k.(manager := Exited, begun := true))) else None
  }

  // ----- stopper -----

  datatype StopAction = Deregister(c: Ctl) | CloseIn(c: Ctl) | CloseOut(c: Ctl) | CloseConn(c: Ctl) | TearUrl(c: Ctl)
                      | TearNext(c: Ctl) | ClosePool(c: Ctl) | DrainOne(c: Ctl) | Finish(c: Ctl)

  function StopStep(s: State, a: StopAction): Option<State> {
    if a.c >= |s.ctls| || s.ctls[a.c].start != Started then None
    else
      var k := s.ctls[a.c];
      match a
      case Deregister(c) =>
        if k.stop.Watching? && k.begun
        then Some(With(s, c, k.(stop := Removed)).(registry := s.registry - {k.id}))
        else None
      case CloseIn(c) =>
        if k.stop.Removed? then Some(With(s, c, k.(stop := NoInput))) else None
      case CloseOut(c) =>
        if k.stop.NoInput? && k.manager == Exited then Some(With(s, c, k.(stop := NoOutput))) else None
      case CloseConn(c) =>
        if k.stop.NoOutput? && k.wire.writer == Dead then Some(With(s, c, k.(stop := Tearing(0)))) else None
      case TearUrl(c) =>
        if k.stop.Tearing? && k.stop.next < |k.tunnels| && k.tunnels[k.stop.next] < |s.tuns|
           && s.tuns[k.tunnels[k.stop.next]].urls != []
        then
          var t := k.tunnels[k.stop.next];
          Some(s.(urls := s.urls - {s.tuns[t].urls[0]}, tuns := s.tuns[t := s.tuns[t].(urls := s.tuns[t].urls[1..])]))
        else None
      case TearNext(c) =>
        if k.stop.Tearing? && k.stop.next < |k.tunnels| && k.tunnels[k.stop.next] < |s.tuns|
           && s.tuns[k.tunnels[k.stop.next]].urls == []
        then Some(With(s, c, k.(stop := Tearing(k.stop.next + 1))))
        else None
      case ClosePool(c) =>
        if k.stop.Tearing? && k.stop.next >= |k.tunnels| then Some(With(s, c, k.(stop := Draining))) else None
      case DrainOne(c) =>
        if k.stop.Draining? && k.pool != []
        then Some(With(s, c, k.(pool := k.pool[1..])).(closed := s.closed + {k.pool[0]}, place := s.place[k.pool[0] := Closed]))
        else None
      case Finish(c) =>
        if k.stop.Draining? && k.pool == [] then Some(With(s, c, k.(stop := Complete))) else None
  }

  // ----- NewProxy -----

  datatype ProxyAction = Arrive(x: Conn, id: string) | Enter(x: Conn)

  function ProxyStep(s: State, a: ProxyAction): Option<State> {
    match a
    case Arrive(x, id) =>
      if x in s.place then None
      else if id in s.registry
      then Some(s.(transit := s.transit[x := s.registry[id]], place := s.place[x := InTransit(s.registry[id])]))
      else Some(s.(closed := s.closed + {x}, place := s.place[x := Closed]))
    case Enter(x) =>
      if x !in s.transit || s.transit[x] >= |s.ctls| then None
      else
        var c := s.transit[x];
        var k, s' := s.ctls[c], s.(transit := s.transit - {x});
        if PoolClosed(k.stop) || |k.pool| >= POOL_SIZE
        then Some(s'.(closed := s.closed + {x}, place := s.place[x := Closed]))
        else Some(With(s', c, k.(pool := k.pool + [x])).(place := s.place[x := Pooled(c)]))
  }

  // ----- The public handlers -----

  datatype HandleAction = Take(h: HandlerId) | FindEmpty(h: HandlerId) | AskForProxy(h: HandlerId)
                        | AskAnother(h: HandlerId) | GiveUp(h: HandlerId) | Release(h: HandlerId, retry: bool)

  /** A public connection arrives for a tunnel. */
  function Connect(s: State, t: Tun): Option<State> {
    if t < |s.tuns| then Some(s.(handlers := s.handlers + [Handler(s.tuns[t].ctl, Asking)])) else None
  }

  function Doings(s: State, h: HandlerId, d: Doing): State
    requires h < |s.handlers|
  {
    s.(handlers := s.handlers[h := s.handlers[h].(doing := d)])
  }

  function HandleStep(s: State, a: HandleAction): Option<State> {
    if a.h >= |s.handlers| || s.handlers[a.h].ctl >= |s.ctls| then None
    else
      var c, d := s.handlers[a.h].ctl, s.handlers[a.h].doing;
      var k := s.ctls[c];
      match a
      case Take(h) =>
        if (d.Asking? || d.Awaiting?) && k.pool != []
        then Some(Doings(With(s, c, k.(pool := k.pool[1..])), h, Using(k.pool[0])).(place := s.place[k.pool[0] := HeldBy(h)]))
        else None
      case FindEmpty(h) =>
        if d.Asking? && k.pool == [] && !PoolClosed(k.stop) then Some(Doings(s, h, AskDue)) else None
      case AskForProxy(h) =>
        if d.AskDue? && Accepts(k) then Some(Doings(With(s, c, Sent(k, ReqProxy)), h, Awaiting)) else None
      case AskAnother(h) =>
        if d.Using? && Accepts(k) then Some(With(s, c, Sent(k, ReqProxy))) else None
      case GiveUp(h) =>
        if d.Using? || d.Over? then None else Some(Doings(s, h, Over))
      case Release(h, retry) =>
        if d.Using?
        then Some(Doings(s, h, if retry then Asking else Over).(closed := s.closed + {d.x}, place := s.place[d.x := Closed]))
        else None
  }

  // ----- Runs -----

  datatype Action = OfStart(start: StartAction) | OfWire(wire: WireAction) | OfManage(manage: ManageAction)
                  | OfStop(stop: StopAction) | OfProxy(proxy: ProxyAction) | OfConnect(t: Tun)
                  | OfHandle(handle: HandleAction)

  function Step(s: State, a: Action): Option<State> {
    match a
    case OfStart(b) => StartStep(s, b)
    case OfWire(b) => WireStep(s, b)
    case OfManage(b) => ManageStep(s, b)
    case OfStop(b) => StopStep(s, b)
    case OfProxy(b) => ProxyStep(s, b)
    case OfConnect(t) => Connect(s, t)
    case OfHandle(b) => HandleStep(s, b)
  }

  /** A run: from the empty state, each step possible and leading to the next state. */
  ghost predicate IsRun(states: seq<State>, actions: seq<Action>) {
    && |states| == |actions| + 1
    && states[0] == EMPTY
    && forall i :: 0 <= i < |actions| ==> Step(states[i], actions[i]) == Some(states[i + 1])
  }

  // ----- Replacement and the control registry -----

  /** What a control's step must keep of the directory. */
  ghost predicate CtlOk(s: State, c: Ctl)
    requires c < |s.ctls|
  {
    var k := s.ctls[c];
    && (k.stop != Watching ==> k.start == Started)
    && (k.replaced.Some? ==> k.replaced.value < c && s.ctls[k.replaced.value].start != Rejected)
    && (k.start in {AuthDue, ProxyDue, Started} && k.replaced.Some? ==> s.ctls[k.replaced.value].stop == Complete)
    && (k.start != Rejected && k.stop == Watching && k.id != "" ==> k.id in s.registry && s.registry[k.id] == c)
    && (k.start != Rejected && k.id == "" ==> k.begun)
  }

  /** The registry names controls by their present ids, never by the empty one, and
      a control waits for the one it replaced, which is older. */
  ghost predicate Directory(s: State) {
    && (forall id :: id in s.registry ==> id != "" && s.registry[id] < |s.ctls| && s.ctls[s.registry[id]].id == id
                                          && s.ctls[s.registry[id]].start != Rejected)
    && (forall c :: 0 <= c < |s.ctls| ==> CtlOk(s, c))
  }

  /** Steps of the other goroutines leave the directory alone, except that any of
      them may begin a shutdown. */
  ghost predicate SameDirectory(s: State, t: State) {
    && t.registry == s.registry && |t.ctls| == |s.ctls|
    && forall c :: 0 <= c < |s.ctls| ==> SameLife(s.ctls[c], t.ctls[c])
  }

  predicate SameLife(k: Control, l: Control) {
    l.id == k.id && l.replaced == k.replaced && l.start == k.start && l.stop == k.stop && (k.begun ==> l.begun)
  }

  lemma SameKeepsDirectory(s: State, t: State)
    requires Directory(s) && SameDirectory(s, t)
    ensures Directory(t)
  {
    forall c | 0 <= c < |t.ctls| ensures CtlOk(t, c) {
      assert CtlOk(s, c);
    }
  }

  lemma WireIsElsewhere(s: State, a: WireAction)
    requires WireStep(s, a).Some?
    ensures SameDirectory(s, WireStep(s, a).value)
  {
  }

  /** Only control c changes, and of it nothing but manager, tunnels, wire and begun. */
  ghost predicate WorkOf(s: State, t: State, c: Ctl) {
    && c < |s.ctls| == |t.ctls| && t.ctls == s.ctls[c := t.ctls[c]]
    && t.ctls[c] == s.ctls[c].(manager := t.ctls[c].manager, tunnels := t.ctls[c].tunnels, wire := t.ctls[c].wire,
                               begun := t.ctls[c].begun)
    && (s.ctls[c].begun ==> t.ctls[c].begun)
    && t.registry == s.registry && t.handlers == s.handlers
    && t.place == s.place && t.transit == s.transit && t.closed == s.closed
  }

  lemma MakeIsWork(s: State, c: Ctl, k: Control)
    requires c < |s.ctls| && WorkOf(s, With(s, c, k), c)
    ensures WorkOf(s, Make(s, c, k), c)
  {
    assert With(s, c, k).ctls[c] == k;
  }

  lemma ReplyIsWork(s: State, c: Ctl, more: bool)
    requires ManageStep(s, Reply(c, more)).Some?
    ensures WorkOf(s, ManageStep(s, Reply(c, more)).value, c)
  {
    MakeIsWork(s, c, Sent(s.ctls[c], s.ctls[c].manager.m));
    hide Make;
  }

  lemma ManageIsWork(s: State, a: ManageAction)
    requires ManageStep(s, a).Some?
    ensures WorkOf(s, ManageStep(s, a).value, a.c)
  {
    if a.Reply? {
      ReplyIsWork(s, a.c, a.more);
      hide ManageStep, WorkOf;
    }
  }

  lemma ManageIsElsewhere(s: State, a: ManageAction)
    requires ManageStep(s, a).Some?
    ensures SameDirectory(s, ManageStep(s, a).value)
  {
    ManageIsWork(s, a);
    hide ManageStep;
  }

  lemma ProxyIsElsewhere(s: State, a: ProxyAction)
    requires ProxyStep(s, a).Some?
    ensures SameDirectory(s, ProxyStep(s, a).value)
  {
  }

  lemma HandleIsElsewhere(s: State, a: HandleAction)
    requires HandleStep(s, a).Some?
    ensures SameDirectory(s, HandleStep(s, a).value)
  {
  }

  lemma AddKeepsOld(s: State, id: string, c: Ctl)
    requires Directory(s) && id != "" && c < |s.ctls|
    ensures CtlOk(Add(s, id), c)
  {
    AddAt(s, id, c);
    assert CtlOk(s, c);
    var r := s.ctls[c].replaced;
    if r.Some? {
      AddAt(s, id, r.value);
    }
    hide Add;
  }

  /** Of the controls there were, only the replaced one changes. */
  lemma AddAt(s: State, id: string, c: Ctl)
    requires c < |s.ctls|
    ensures var t := Add(s, id);
      && |t.ctls| == |s.ctls| + 1 && t.registry == s.registry[id := |s.ctls|]
      && t.ctls[c] == if id in s.registry && s.registry[id] == c then s.ctls[c].(id := "", begun := true) else s.ctls[c]
  {
  }

  lemma AddKeepsNames(s: State, id: string, name: string)
    requires Directory(s) && id != "" && name in Add(s, id).registry
    ensures var t := Add(s, id); var c := t.registry[name];
      name != "" && c < |t.ctls| && t.ctls[c].id == name && t.ctls[c].start != Rejected
  {
    hide CtlOk;
  }

  lemma AddKeepsDirectory(s: State, id: string)
    requires Directory(s) && id != ""
    ensures Directory(Add(s, id))
  {
    var t := Add(s, id);
    AddKeepsNew(s, id);
    AddLength(s, id);
    hide Add, CtlOk, Directory;
    forall c | 0 <= c < |s.ctls| ensures CtlOk(t, c) {
      AddKeepsOld(s, id, c);
    }
    forall name | name in t.registry
      ensures name != "" && t.registry[name] < |t.ctls| && t.ctls[t.registry[name]].id == name
              && t.ctls[t.registry[name]].start != Rejected
    {
      AddKeepsNames(s, id, name);
    }
    DirectoryIs(t);
  }

  lemma DirectoryIs(s: State)
    requires forall name :: name in s.registry ==> name != "" && s.registry[name] < |s.ctls| && s.ctls[s.registry[name]].id == name
                                                   && s.ctls[s.registry[name]].start != Rejected
    requires forall c :: 0 <= c < |s.ctls| ==> CtlOk(s, c)
    ensures Directory(s)
  {
    hide CtlOk;
  }

  lemma AddKeepsNew(s: State, id: string)
    requires Directory(s) && id != ""
    ensures CtlOk(Add(s, id), |s.ctls|)
  {
  }

  lemma AddLength(s: State, id: string)
    ensures |Add(s, id).ctls| == |s.ctls| + 1
  {
  }

  lemma StartKeepsDirectory(s: State, a: StartAction)
    requires Directory(s) && StartStep(s, a).Some?
    ensures Directory(StartStep(s, a).value)
  {
    if a.Register? {
      AddKeepsDirectory(s, a.id);
    } else {
      hide Add;
      var t := StartStep(s, a).value;
      forall c | 0 <= c < |t.ctls| ensures CtlOk(t, c) {
        if c < |s.ctls| {
          assert CtlOk(s, c);
        }
      }
    }
  }

  /** A stopper that has deregistered goes on, and is not past its end. */
  predicate MovesOn(k: Control, l: Control) {
    && l.id == k.id && l.replaced == k.replaced && l.start == k.start && l.begun == k.begun
    && (l.stop == k.stop || (k.stop != Watching && l.stop != Watching && k.stop != Complete))
  }

  ghost predicate OnlyStops(s: State, t: State) {
    && t.registry == s.registry && |t.ctls| == |s.ctls|
    && forall c :: 0 <= c < |s.ctls| ==> MovesOn(s.ctls[c], t.ctls[c])
  }

  lemma StopMovesOn(s: State, a: StopAction)
    requires StopStep(s, a).Some? && !a.Deregister?
    ensures OnlyStops(s, StopStep(s, a).value)
  {
    var k, l := s.ctls[a.c], StopStep(s, a).value.ctls[a.c];
    assert MovesOn(k, l) && StopStep(s, a).value.ctls == s.ctls[a.c := l];
    hide StopStep, MovesOn;
    assert forall c :: 0 <= c < |s.ctls| ==> MovesOn(s.ctls[c], s.ctls[c]) by { StaysPut(); }
  }

  lemma StaysPut()
    ensures forall k :: MovesOn(k, k)
  {
  }

  lemma OnlyStopsKeepsDirectory(s: State, t: State)
    requires Directory(s) && OnlyStops(s, t)
    ensures Directory(t)
  {
    forall c | 0 <= c < |t.ctls| ensures CtlOk(t, c) {
      assert CtlOk(s, c) && MovesOn(s.ctls[c], t.ctls[c]);
      if s.ctls[c].replaced.Some? {
        assert MovesOn(s.ctls[s.ctls[c].replaced.value], t.ctls[s.ctls[c].replaced.value]);
      }
    }
  }

  lemma StopKeepsDirectory(s: State, a: StopAction)
    requires Directory(s) && StopStep(s, a).Some?
    ensures Directory(StopStep(s, a).value)
  {
    hide *;
    if a.Deregister? {
      DeregisterKeepsDirectory(s, a.c);
    } else {
      StopMovesOn(s, a);
      OnlyStopsKeepsDirectory(s, StopStep(s, a).value);
    }
  }

  lemma DeregisterKeepsDirectory(s: State, c: Ctl)
    requires Directory(s) && StopStep(s, Deregister(c)).Some?
    ensures Directory(StopStep(s, Deregister(c)).value)
  {
    var t := StopStep(s, Deregister(c)).value;
    assert CtlOk(s, c);
    forall d | 0 <= d < |t.ctls| ensures CtlOk(t, d) {
      assert CtlOk(s, d);
    }
  }

  lemma StepKeepsDirectory(s: State, a: Action)
    requires Directory(s) && Step(s, a).Some?
    ensures Directory(Step(s, a).value)
  {
    hide Directory, StartStep, WireStep, ManageStep, StopStep, ProxyStep, HandleStep, SameDirectory;
    match a
    case OfStart(b) => StartKeepsDirectory(s, b);
    case OfStop(b) => StopKeepsDirectory(s, b);
    case OfWire(b) =>
      WireIsElsewhere(s, b);
      SameKeepsDirectory(s, Step(s, a).value);
    case OfManage(b) =>
      ManageIsElsewhere(s, b);
      SameKeepsDirectory(s, Step(s, a).value);
    case OfProxy(b) =>
      ProxyIsElsewhere(s, b);
      SameKeepsDirectory(s, Step(s, a).value);
    case OfConnect(t) =>
      ConnectIsElsewhere(s, t);
      SameKeepsDirectory(s, Step(s, a).value);
    case OfHandle(b) =>
      HandleIsElsewhere(s, b);
      SameKeepsDirectory(s, Step(s, a).value);
  }

  lemma ConnectIsElsewhere(s: State, t: Tun)
    requires Connect(s, t).Some?
    ensures SameDirectory(s, Connect(s, t).value)
  {
  }

  // ----- Tunnels and their URLs -----

  /** How many of a control's tunnels its stopper has shut down. */
  function TornDown(k: Control): nat {
    match k.stop
    case Tearing(next) => if next <= |k.tunnels| then next else |k.tunnels|
    case Draining => |k.tunnels|
    case Complete => |k.tunnels|
    case _ => 0
  }

  /** A tunnel its control still answers for: being made, or waiting to be shut down. */
  predicate InPlay(k: Control, t: Tun) {
    k.manager == Making(t) || k.manager == Made(t) || t in k.tunnels[TornDown(k)..]
  }

  ghost predicate CtlUrls(s: State, c: Ctl)
    requires c < |s.ctls|
  {
    var k := s.ctls[c];
    && (k.start != Started ==> k.manager == NotStarted && k.tunnels == [])
    && (k.manager.Making? || k.manager.Made? ==>
          k.manager.t < |s.tuns| && s.tuns[k.manager.t].ctl == c && k.manager.t !in k.tunnels)
    && (k.manager.Making? ==> s.tuns[k.manager.t].urls == [])
    && (OutClosed(k.stop) ==> k.manager == Exited)
    && (k.stop.Tearing? ==> k.stop.next <= |k.tunnels|)
    && (forall i :: 0 <= i < |k.tunnels| ==> k.tunnels[i] < |s.tuns| && s.tuns[k.tunnels[i]].ctl == c)
  }

  ghost predicate Owns(s: State, t: Tun, url: string)
    requires t < |s.tuns|
  {
    url in s.tuns[t].urls || s.tuns[t].pending == Some(url)
  }

  /** A tunnel has at most one URL, which is registered as its own; and while it has
      one its control answers for it. */
  ghost predicate TunOk(s: State, t: Tun)
    requires t < |s.tuns|
  {
    var tun := s.tuns[t];
    && tun.ctl < |s.ctls|
    && |tun.urls| <= 1
    && (tun.pending.Some? ==> tun.urls == [] && s.ctls[tun.ctl].manager == Making(t))
    && (forall url :: Owns(s, t, url) ==> url in s.urls && s.urls[url] == t)
    && (tun.urls != [] ==> InPlay(s.ctls[tun.ctl], t))
  }

  /** Ownership: every registered URL is its tunnel's, and the other way round. */
  ghost predicate Ownership(s: State) {
    && (forall url :: url in s.urls ==> s.urls[url] < |s.tuns| && Owns(s, s.urls[url], url))
    && (forall c :: 0 <= c < |s.ctls| ==> CtlUrls(s, c))
    && (forall t :: 0 <= t < |s.tuns| ==> TunOk(s, t))
  }

  /** Steps of one control that touch no tunnel and leave it answering for as much. */
  lemma LocalKeepsOwnership(s: State, c: Ctl, k: Control)
    requires Ownership(s) && c < |s.ctls| && CtlUrls(With(s, c, k), c)
    requires forall t :: 0 <= t < |s.tuns| && s.tuns[t].pending.Some? && s.ctls[c].manager == Making(t) ==> k.manager == Making(t)
    requires forall t :: 0 <= t < |s.tuns| && s.tuns[t].urls != [] && InPlay(s.ctls[c], t) ==> InPlay(k, t)
    ensures Ownership(With(s, c, k))
  {
    var r := With(s, c, k);
    hide InPlay;
    forall d | 0 <= d < |r.ctls| ensures CtlUrls(r, d) {
      if d != c {
        assert CtlUrls(s, d);
      }
    }
    forall t | 0 <= t < |r.tuns| ensures TunOk(r, t) {
      assert TunOk(s, t);
      assert forall url :: Owns(r, t, url) ==> Owns(s, t, url);
    }
    forall url | url in r.urls ensures r.urls[url] < |r.tuns| && Owns(r, r.urls[url], url) {
      assert Owns(s, s.urls[url], url);
    }
  }

  predicate SameWork(k: Control, l: Control) {
    (l.start == Started <==> k.start == Started) && l.stop == k.stop && l.manager == k.manager && l.tunnels == k.tunnels
  }

  predicate NoWork(k: Control) {
    k.start != Started && k.stop == Watching && k.manager == NotStarted && k.tunnels == []
  }

  /** Steps that leave tunnels, managers and stoppers alone; new controls have none. */
  ghost predicate SameTunnels(s: State, t: State) {
    && t.urls == s.urls && t.tuns == s.tuns && |s.ctls| <= |t.ctls|
    && (forall c :: 0 <= c < |s.ctls| ==> SameWork(s.ctls[c], t.ctls[c]))
    && (forall c :: |s.ctls| <= c < |t.ctls| ==> NoWork(t.ctls[c]))
  }

  lemma SameKeepsOwnership(s: State, t: State)
    requires Ownership(s) && SameTunnels(s, t)
    ensures Ownership(t)
  {
    forall c | 0 <= c < |t.ctls| ensures CtlUrls(t, c) {
      if c < |s.ctls| {
        assert CtlUrls(s, c) && SameWork(s.ctls[c], t.ctls[c]);
      } else {
        assert NoWork(t.ctls[c]);
      }
    }
    forall u | 0 <= u < |t.tuns| ensures TunOk(t, u) {
      assert TunOk(s, u);
      var c := s.tuns[u].ctl;
      assert SameWork(s.ctls[c], t.ctls[c]);
      assert InPlay(s.ctls[c], u) ==> InPlay(t.ctls[c], u);
      assert forall url :: Owns(t, u, url) ==> Owns(s, u, url);
    }
    forall url | url in t.urls ensures t.urls[url] < |t.tuns| && Owns(t, t.urls[url], url) {
      assert Owns(s, s.urls[url], url);
    }
  }

  lemma StartIsElsewhere(s: State, a: StartAction)
    requires StartStep(s, a).Some? && !a.SendFirstReq?
    ensures SameTunnels(s, StartStep(s, a).value)
  {
    if a.Register? {
      AddIsElsewhere(s, a.id);
      hide Add, SameTunnels;
    }
  }

  lemma AddIsElsewhere(s: State, id: string)
    ensures SameTunnels(s, Add(s, id))
  {
    var t := Add(s, id);
    AddLength(s, id);
    forall c | 0 <= c < |s.ctls| ensures SameWork(s.ctls[c], t.ctls[c]) {
      AddAt(s, id, c);
      hide Add;
    }
  }

  lemma WireTunnels(s: State, a: WireAction)
    requires WireStep(s, a).Some?
    ensures SameTunnels(s, WireStep(s, a).value)
  {
  }

  lemma ProxyTunnels(s: State, a: ProxyAction)
    requires ProxyStep(s, a).Some?
    ensures SameTunnels(s, ProxyStep(s, a).value)
  {
  }

  lemma HandleTunnels(s: State, a: HandleAction)
    requires HandleStep(s, a).Some?
    ensures SameTunnels(s, HandleStep(s, a).value)
  {
  }

  lemma FirstReqKeepsOwnership(s: State, c: Ctl)
    requires Ownership(s) && StartStep(s, SendFirstReq(c)).Some?
    ensures Ownership(StartStep(s, SendFirstReq(c)).value)
  {
    assert CtlUrls(s, c);
    LocalKeepsOwnership(s, c, Sent(s.ctls[c], ReqProxy).(start := Started, manager := Idle));
  }

  /** A new tunnel object, with no URL yet. */
  lemma MakeKeepsOwnership(s: State, c: Ctl, k: Control)
    requires Ownership(s) && c < |s.ctls| && SameTunnels(s, With(s, c, k.(manager := s.ctls[c].manager)))
    requires !s.ctls[c].manager.Making? && !s.ctls[c].manager.Made? && !OutClosed(k.stop) && k.start == Started
    ensures Ownership(Make(s, c, k))
  {
    var r := Make(s, c, k);
    var n := |s.tuns|;
    assert SameWork(s.ctls[c], k.(manager := s.ctls[c].manager)) by {
      assert With(s, c, k.(manager := s.ctls[c].manager)).ctls[c] == k.(manager := s.ctls[c].manager);
    }
    forall d | 0 <= d < |r.ctls| ensures CtlUrls(r, d) {
      assert CtlUrls(s, d);
    }
    forall t | 0 <= t < |r.tuns| ensures TunOk(r, t) {
      if t < n {
        assert TunOk(s, t);
        assert forall url :: Owns(r, t, url) ==> Owns(s, t, url);
      }
    }
    forall url | url in r.urls ensures r.urls[url] < |r.tuns| && Owns(r, r.urls[url], url) {
      assert Owns(s, s.urls[url], url);
    }
  }

  lemma RegisterKeepsOwnership(s: State, c: Ctl, url: string)
    requires Ownership(s) && ManageStep(s, RegisterUrl(c, url)).Some?
    ensures Ownership(ManageStep(s, RegisterUrl(c, url)).value)
  {
    var t := s.ctls[c].manager.t;
    var r := s.(urls := s.urls[url := t], tuns := s.tuns[t := s.tuns[t].(pending := Some(url))]);
    assert CtlUrls(s, c) && TunOk(s, t);
    forall d | 0 <= d < |r.ctls| ensures CtlUrls(r, d) {
      assert CtlUrls(s, d);
    }
    forall u | 0 <= u < |r.tuns| ensures TunOk(r, u) {
      assert TunOk(s, u);
      assert forall x :: Owns(r, u, x) ==> Owns(s, u, x) || (u == t && x == url);
    }
    forall x | x in r.urls ensures r.urls[x] < |r.tuns| && Owns(r, r.urls[x], x) {
      if x != url {
        assert Owns(s, s.urls[x], x);
      }
    }
  }

  lemma AppendKeepsOwnership(s: State, c: Ctl)
    requires Ownership(s) && ManageStep(s, AppendUrl(c)).Some?
    ensures Ownership(ManageStep(s, AppendUrl(c)).value)
  {
    var r := ManageStep(s, AppendUrl(c)).value;
    var t := s.ctls[c].manager.t;
    assert CtlUrls(s, c) && TunOk(s, t);
    assert r.tuns[t].urls == [s.tuns[t].pending.value];
    forall d | 0 <= d < |r.ctls| ensures CtlUrls(r, d) {
      assert CtlUrls(s, d);
    }
    forall u | 0 <= u < |r.tuns| ensures TunOk(r, u) {
      assert TunOk(s, u);
      assert forall x :: Owns(r, u, x) ==> Owns(s, u, x);
    }
    forall x | x in r.urls ensures r.urls[x] < |r.tuns| && Owns(r, r.urls[x], x) {
      assert Owns(s, s.urls[x], x);
    }
  }

  lemma AdoptKeepsOwnership(s: State, c: Ctl)
    requires Ownership(s) && ManageStep(s, Adopt(c)).Some?
    ensures Ownership(ManageStep(s, Adopt(c)).value)
  {
    var k := s.ctls[c];
    var l := k.(tunnels := k.tunnels + [k.manager.t], manager := Replying(NewTunnel(true)));
    assert CtlUrls(s, c);
    assert l.tunnels[TornDown(l)..] == k.tunnels[TornDown(k)..] + [k.manager.t];
    LocalKeepsOwnership(s, c, l);
  }

  /** A manager with no tunnel in hand goes on to another such state. */
  lemma IdleKeepsOwnership(s: State, c: Ctl, k: Control)
    requires Ownership(s) && c < |s.ctls|
    requires !s.ctls[c].manager.Making? && !s.ctls[c].manager.Made? && !k.manager.Making? && !k.manager.Made?
    requires s.ctls[c].start == k.start == Started && (OutClosed(k.stop) ==> k.manager == Exited)
    requires k.stop == s.ctls[c].stop && k.tunnels == s.ctls[c].tunnels
    ensures Ownership(With(s, c, k))
  {
    assert CtlUrls(s, c);
    LocalKeepsOwnership(s, c, k);
  }

  lemma ReplyKeepsOwnership(s: State, c: Ctl, more: bool)
    requires Ownership(s) && ManageStep(s, Reply(c, more)).Some? && s.ctls[c].start == Started
    ensures Ownership(ManageStep(s, Reply(c, more)).value)
  {
    hide Ownership;
    var k := s.ctls[c];
    var l := Sent(k, k.manager.m);
    if k.manager.m == NewTunnel(true) && more {
      MakeKeepsOwnership(s, c, l);
    } else {
      IdleKeepsOwnership(s, c, l.(manager := if k.manager.m == NewTunnel(false) then Refused else Idle));
    }
  }

  lemma ManageKeepsOwnership(s: State, a: ManageAction)
    requires Ownership(s) && ManageStep(s, a).Some?
    ensures Ownership(ManageStep(s, a).value)
  {
    var k := s.ctls[a.c];
    assert CtlUrls(s, a.c);
    ManagerAtWork(s, a);
    hide Ownership, CtlUrls;
    match a
    case RegisterUrl(c, url) => RegisterKeepsOwnership(s, c, url);
    case AppendUrl(c) => AppendKeepsOwnership(s, c);
    case Adopt(c) => AdoptKeepsOwnership(s, c);
    case ReadRequest(c) => MakeKeepsOwnership(s, c, k);
    case Reply(c, more) => ReplyKeepsOwnership(s, c, more);
    case LoseHeartbeat(c) => IdleKeepsOwnership(s, c, k.(begun := true));
    case ReadPing(c) => IdleKeepsOwnership(s, c, k.(manager := Replying(Pong)));
    case FailTunnel(c) => FailKeepsOwnership(s, c);
    case Settle(c) => IdleKeepsOwnership(s, c, k.(manager := Idle, begun := k.begun || k.tunnels == []));
    case ManagerExits(c) => IdleKeepsOwnership(s, c, k.(manager := Exited, begun := true));
  }

  lemma ManagerAtWork(s: State, a: ManageAction)
    requires ManageStep(s, a).Some? && CtlUrls(s, a.c)
    ensures s.ctls[a.c].start == Started && !OutClosed(s.ctls[a.c].stop)
  {
  }

  lemma FailKeepsOwnership(s: State, c: Ctl)
    requires Ownership(s) && ManageStep(s, FailTunnel(c)).Some?
    ensures Ownership(ManageStep(s, FailTunnel(c)).value)
  {
    var k := s.ctls[c];
    assert CtlUrls(s, c);
    LocalKeepsOwnership(s, c, k.(manager := Replying(NewTunnel(false))));
  }

  /** Shutting down one tunnel takes away its own URL and no other's. */
  lemma TearUrlIsOwn(s: State, c: Ctl)
    requires Ownership(s) && StopStep(s, TearUrl(c)).Some?
    ensures var k := s.ctls[c]; var t := k.tunnels[k.stop.next]; var r := StopStep(s, TearUrl(c)).value;
      && s.tuns[t].ctl == c
      && forall url :: url in s.urls && s.urls[url] != t <==> url in r.urls
  {
    var k := s.ctls[c];
    assert CtlUrls(s, c);
    var t := k.tunnels[k.stop.next];
    assert TunOk(s, t);
    assert Owns(s, t, s.tuns[t].urls[0]);
    forall url | url in s.urls && s.urls[url] == t ensures url == s.tuns[t].urls[0] {
      assert Owns(s, t, url);
    }
  }

  lemma TearKeepsOwnership(s: State, c: Ctl)
    requires Ownership(s) && StopStep(s, TearUrl(c)).Some?
    ensures Ownership(StopStep(s, TearUrl(c)).value)
  {
    var k := s.ctls[c];
    var r := StopStep(s, TearUrl(c)).value;
    var t := k.tunnels[k.stop.next];
    assert CtlUrls(s, c) && TunOk(s, t);
    TearUrlIsOwn(s, c);
    forall d | 0 <= d < |r.ctls| ensures CtlUrls(r, d) {
      assert CtlUrls(s, d);
    }
    forall u | 0 <= u < |r.tuns| ensures TunOk(r, u) {
      assert TunOk(s, u);
      assert forall x :: Owns(r, u, x) ==> Owns(s, u, x) && u != t;
    }
    forall x | x in r.urls ensures r.urls[x] < |r.tuns| && Owns(r, r.urls[x], x) {
      assert Owns(s, s.urls[x], x);
    }
  }

  lemma DeregisterKeepsOwnership(s: State, c: Ctl)
    requires Ownership(s) && StopStep(s, Deregister(c)).Some?
    ensures Ownership(StopStep(s, Deregister(c)).value)
  {
    assert CtlUrls(s, c);
    LocalKeepsOwnership(s, c, s.ctls[c].(stop := Removed));
    SameKeepsOwnership(With(s, c, s.ctls[c].(stop := Removed)), StopStep(s, Deregister(c)).value);
  }

  lemma OneOff(ts: seq<Tun>, i: nat)
    requires i < |ts|
    ensures ts[i..] == [ts[i]] + ts[i + 1..]
  {
  }

  lemma TearNextKeepsOwnership(s: State, c: Ctl)
    requires Ownership(s) && StopStep(s, TearNext(c)).Some?
    ensures Ownership(StopStep(s, TearNext(c)).value)
  {
    assert CtlUrls(s, c);
    var k := s.ctls[c];
    var l := k.(stop := Tearing(k.stop.next + 1));
    OneOff(k.tunnels, k.stop.next);
    assert k.tunnels[TornDown(k)..] == [k.tunnels[k.stop.next]] + l.tunnels[TornDown(l)..];
    LocalKeepsOwnership(s, c, l);
  }

  lemma StopKeepsOwnership(s: State, a: StopAction)
    requires Ownership(s) && StopStep(s, a).Some?
    ensures Ownership(StopStep(s, a).value)
  {
    var k := s.ctls[a.c];
    assert CtlUrls(s, a.c);
    match a
    case Deregister(c) => DeregisterKeepsOwnership(s, c);
    case CloseIn(c) => LocalKeepsOwnership(s, c, k.(stop := NoInput));
    case CloseOut(c) => LocalKeepsOwnership(s, c, k.(stop := NoOutput));
    case CloseConn(c) => LocalKeepsOwnership(s, c, k.(stop := Tearing(0)));
    case TearUrl(c) => TearKeepsOwnership(s, c);
    case TearNext(c) => TearNextKeepsOwnership(s, c);
    case ClosePool(c) => LocalKeepsOwnership(s, c, k.(stop := Draining));
    case DrainOne(c) => SameKeepsOwnership(s, StopStep(s, a).value);
    case Finish(c) => LocalKeepsOwnership(s, c, k.(stop := Complete));
  }

  lemma StepKeepsOwnership(s: State, a: Action)
    requires Ownership(s) && Step(s, a).Some?
    ensures Ownership(Step(s, a).value)
  {
    hide Ownership, StartStep, WireStep, ManageStep, StopStep, ProxyStep, HandleStep, SameTunnels;
    match a
    case OfStart(b) =>
      if b.SendFirstReq? {
        FirstReqKeepsOwnership(s, b.c);
      } else {
        StartIsElsewhere(s, b);
        SameKeepsOwnership(s, Step(s, a).value);
      }
    case OfStop(b) => StopKeepsOwnership(s, b);
    case OfWire(b) =>
      WireTunnels(s, b);
      SameKeepsOwnership(s, Step(s, a).value);
    case OfManage(b) => ManageKeepsOwnership(s, b);
    case OfProxy(b) =>
      ProxyTunnels(s, b);
      SameKeepsOwnership(s, Step(s, a).value);
    case OfConnect(t) =>
      ConnectTunnels(s, t);
      SameKeepsOwnership(s, Step(s, a).value);
    case OfHandle(b) =>
      HandleTunnels(s, b);
      SameKeepsOwnership(s, Step(s, a).value);
  }

  lemma ConnectTunnels(s: State, t: Tun)
    requires Connect(s, t).Some?
    ensures SameTunnels(s, Connect(s, t).value)
  {
  }

  // ----- Proxy connections -----

  ghost predicate PoolOk(s: State, c: Ctl)
    requires c < |s.ctls|
  {
    var pool := s.ctls[c].pool;
    && |pool| <= POOL_SIZE
    && (s.ctls[c].stop == Complete ==> pool == [])
    && (forall i, j :: 0 <= i < j < |pool| ==> pool[i] != pool[j])
    && (forall i :: 0 <= i < |pool| ==> pool[i] in s.place && s.place[pool[i]] == Pooled(c))
  }

  /** A connection is really where the record says. */
  ghost predicate Placed(s: State, x: Conn)
    requires x in s.place
  {
    match s.place[x]
    case InTransit(c) => x in s.transit && s.transit[x] == c
    case Pooled(c) => c < |s.ctls| && x in s.ctls[c].pool
    case HeldBy(h) => h < |s.handlers| && s.handlers[h].doing == Using(x)
    case Closed => x in s.closed
  }

  ghost predicate HandlerOk(s: State, h: HandlerId)
    requires h < |s.handlers|
  {
    var d := s.handlers[h].doing;
    d.Using? ==> d.x in s.place && s.place[d.x] == HeldBy(h)
  }

  /** Conservation: every connection given to NewProxy is in exactly the one place
      that is recorded for it, and what is in a place was recorded there. */
  ghost predicate Conserved(s: State) {
    && (forall x :: x in s.place ==> Placed(s, x))
    && (forall x :: x in s.transit ==> x in s.place && s.place[x] == InTransit(s.transit[x]))
    && (forall x :: x in s.closed ==> x in s.place && s.place[x] == Closed)
    && (forall c :: 0 <= c < |s.ctls| ==> PoolOk(s, c))
    && (forall h :: 0 <= h < |s.handlers| ==> HandlerOk(s, h))
  }

  /** Steps that leave every place alone; new controls and handlers hold nothing. */
  ghost predicate SamePlaces(s: State, t: State) {
    && t.place == s.place && t.transit == s.transit && t.closed == s.closed
    && |s.ctls| <= |t.ctls| && |s.handlers| <= |t.handlers|
    && (forall c :: 0 <= c < |s.ctls| ==> t.ctls[c].pool == s.ctls[c].pool)
    && (forall c :: 0 <= c < |s.ctls| ==> (t.ctls[c].stop == Complete ==> s.ctls[c].pool == []))
    && (forall c :: |s.ctls| <= c < |t.ctls| ==> t.ctls[c].pool == [])
    && (forall h :: 0 <= h < |s.handlers| ==> SameHold(s.handlers[h].doing, t.handlers[h].doing))
    && (forall h :: |s.handlers| <= h < |t.handlers| ==> !t.handlers[h].doing.Using?)
  }

  predicate SameHold(d: Doing, e: Doing) {
    d == e || (!d.Using? && !e.Using?)
  }

  lemma SameKeepsConserved(s: State, t: State)
    requires Conserved(s) && SamePlaces(s, t)
    ensures Conserved(t)
  {
    forall x | x in t.place ensures Placed(t, x) {
      assert Placed(s, x);
    }
    forall c | 0 <= c < |t.ctls| ensures PoolOk(t, c) {
      if c < |s.ctls| {
        assert PoolOk(s, c);
      }
    }
    forall h | 0 <= h < |t.handlers| ensures HandlerOk(t, h) {
      if h < |s.handlers| {
        assert HandlerOk(s, h);
      }
    }
  }

  ghost predicate CompleteEmpty(s: State) {
    forall c :: 0 <= c < |s.ctls| && s.ctls[c].stop == Complete ==> s.ctls[c].pool == []
  }

  lemma ConservedEmpty(s: State)
    requires Conserved(s)
    ensures CompleteEmpty(s)
  {
    forall c | 0 <= c < |s.ctls| && s.ctls[c].stop == Complete ensures s.ctls[c].pool == [] {
      assert PoolOk(s, c);
    }
  }

  lemma AddPlaces(s: State, id: string)
    requires CompleteEmpty(s)
    ensures SamePlaces(s, Add(s, id))
  {
  }

  lemma StartPlaces(s: State, a: StartAction)
    requires CompleteEmpty(s) && StartStep(s, a).Some?
    ensures SamePlaces(s, StartStep(s, a).value)
  {
    hide Add;
    if a.Register? {
      AddPlaces(s, a.id);
      hide SamePlaces;
    }
  }

  lemma WirePlaces(s: State, a: WireAction)
    requires CompleteEmpty(s) && WireStep(s, a).Some?
    ensures SamePlaces(s, WireStep(s, a).value)
  {
  }

  lemma ManagePlaces(s: State, a: ManageAction)
    requires CompleteEmpty(s) && ManageStep(s, a).Some?
    ensures SamePlaces(s, ManageStep(s, a).value)
  {
    ManageIsWork(s, a);
    hide ManageStep;
  }

  lemma StopPlaces(s: State, a: StopAction)
    requires CompleteEmpty(s) && StopStep(s, a).Some? && !a.DrainOne?
    ensures SamePlaces(s, StopStep(s, a).value)
  {
    if a.TearUrl? {
      assert StopStep(s, a).value.ctls == s.ctls;
    } else {
      StopIsLocal(s, a);
      hide StopStep;
    }
  }

  lemma StopIsLocal(s: State, a: StopAction)
    requires StopStep(s, a).Some? && !a.DrainOne? && !a.TearUrl?
    ensures var t := StopStep(s, a).value; var k := s.ctls[a.c];
      && t.ctls == s.ctls[a.c := k.(stop := t.ctls[a.c].stop)] && (t.ctls[a.c].stop == Complete ==> k.pool == [])
      && t.handlers == s.handlers && t.place == s.place && t.transit == s.transit && t.closed == s.closed
  {
  }

  lemma ConnectPlaces(s: State, t: Tun)
    requires CompleteEmpty(s) && Connect(s, t).Some?
    ensures SamePlaces(s, Connect(s, t).value)
  {
  }

  lemma HandlePlaces(s: State, a: HandleAction)
    requires CompleteEmpty(s) && HandleStep(s, a).Some? && !a.Take? && !a.Release?
    ensures SamePlaces(s, HandleStep(s, a).value)
  {
  }

  /** Taking the first connection of a pool to another place. */
  lemma PopKeepsConserved(s: State, c: Ctl, t: State, there: Place)
    requires Conserved(s) && c < |s.ctls| && s.ctls[c].pool != []
    requires t.place == s.place[s.ctls[c].pool[0] := there] && t.transit == s.transit
    requires t.ctls == s.ctls[c := s.ctls[c].(pool := s.ctls[c].pool[1..])]
    requires match there
             case Closed => t.closed == s.closed + {s.ctls[c].pool[0]} && t.handlers == s.handlers
             case HeldBy(h) => h < |s.handlers| && !s.handlers[h].doing.Using? && t.closed == s.closed
                && t.handlers == s.handlers[h := s.handlers[h].(doing := Using(s.ctls[c].pool[0]))]
             case _ => false
    ensures Conserved(t)
  {
    var x := s.ctls[c].pool[0];
    assert PoolOk(s, c);
    forall y | y in t.place ensures Placed(t, y) {
      if y != x {
        assert Placed(s, y);
        assert y in s.ctls[c].pool ==> y in s.ctls[c].pool[1..];
      }
    }
    forall d | 0 <= d < |t.ctls| ensures PoolOk(t, d) {
      assert PoolOk(s, d);
      assert forall i :: 0 <= i < |t.ctls[d].pool| ==> t.ctls[d].pool[i] in s.ctls[d].pool && t.ctls[d].pool[i] != x;
    }
    forall g | 0 <= g < |t.handlers| ensures HandlerOk(t, g) {
      assert HandlerOk(s, g);
    }
  }

  lemma ArriveKeepsConserved(s: State, x: Conn, id: string)
    requires Conserved(s) && ProxyStep(s, Arrive(x, id)).Some?
    ensures Conserved(ProxyStep(s, Arrive(x, id)).value)
  {
    var t := ProxyStep(s, Arrive(x, id)).value;
    forall y | y in t.place ensures Placed(t, y) {
      if y != x {
        assert Placed(s, y);
      }
    }
    forall d | 0 <= d < |t.ctls| ensures PoolOk(t, d) {
      assert PoolOk(s, d);
    }
    forall g | 0 <= g < |t.handlers| ensures HandlerOk(t, g) {
      assert HandlerOk(s, g);
    }
  }

  lemma EnterKeepsConserved(s: State, x: Conn)
    requires Conserved(s) && ProxyStep(s, Enter(x)).Some?
    ensures Conserved(ProxyStep(s, Enter(x)).value)
  {
    var t := ProxyStep(s, Enter(x)).value;
    forall y | y in t.place ensures Placed(t, y) {
      if y != x {
        assert Placed(s, y);
      }
    }
    EnterPools(s, x);
    forall g | 0 <= g < |t.handlers| ensures HandlerOk(t, g) {
      assert HandlerOk(s, g);
    }
  }

  lemma EnterPools(s: State, x: Conn)
    requires Conserved(s) && ProxyStep(s, Enter(x)).Some?
    ensures var t := ProxyStep(s, Enter(x)).value; forall d :: 0 <= d < |t.ctls| ==> PoolOk(t, d)
  {
    var t := ProxyStep(s, Enter(x)).value;
    forall d | 0 <= d < |t.ctls| ensures PoolOk(t, d) {
      assert PoolOk(s, d);
    }
  }

  lemma ReleaseKeepsConserved(s: State, h: HandlerId, retry: bool)
    requires Conserved(s) && HandleStep(s, Release(h, retry)).Some?
    ensures Conserved(HandleStep(s, Release(h, retry)).value)
  {
    var t := HandleStep(s, Release(h, retry)).value;
    var x := s.handlers[h].doing.x;
    assert HandlerOk(s, h);
    forall y | y in t.place ensures Placed(t, y) {
      if y != x {
        assert Placed(s, y);
      }
    }
    forall d | 0 <= d < |t.ctls| ensures PoolOk(t, d) {
      assert PoolOk(s, d);
    }
    forall g | 0 <= g < |t.handlers| ensures HandlerOk(t, g) {
      assert HandlerOk(s, g);
    }
  }

  lemma StepKeepsConserved(s: State, a: Action)
    requires Conserved(s) && Step(s, a).Some?
    ensures Conserved(Step(s, a).value)
  {
    var t := Step(s, a).value;
    ConservedEmpty(s);
    hide Conserved, CompleteEmpty, SamePlaces;
    match a
    case OfStart(b) =>
      StartPlaces(s, b);
      SameKeepsConserved(s, t);
    case OfStop(b) =>
      if b.DrainOne? {
        PopKeepsConserved(s, b.c, t, Closed);
      } else {
        StopPlaces(s, b);
        SameKeepsConserved(s, t);
      }
    case OfWire(b) =>
      WirePlaces(s, b);
      SameKeepsConserved(s, t);
    case OfManage(b) =>
      ManagePlaces(s, b);
      SameKeepsConserved(s, t);
    case OfProxy(b) =>
      match b {
        case Arrive(x, id) => ArriveKeepsConserved(s, x, id);
        case Enter(x) => EnterKeepsConserved(s, x);
      }
    case OfConnect(b) =>
      ConnectPlaces(s, b);
      SameKeepsConserved(s, t);
    case OfHandle(b) =>
      if b.Take? {
        PopKeepsConserved(s, s.handlers[b.h].ctl, t, HeldBy(b.h));
      } else if b.Release? {
        ReleaseKeepsConserved(s, b.h, b.retry);
      } else {
        HandlePlaces(s, b);
        SameKeepsConserved(s, t);
      }
  }

  // ----- The order of messages -----

  /** How many tunnels these messages report as opened. */
  function Successes(messages: seq<Msg>): nat {
    multiset(messages)[NewTunnel(true)]
  }

  /** The messages of one control: none before the writer starts, then an answer to
      the authentication, then a request for a proxy; and on the wire a prefix of
      what was sent. */
  predicate OrderOk(start: Start, w: Wire) {
    && (start == Rejected ==> w == NEW_WIRE.(written := [AuthResp(false)]))
    && (start == Waiting ==> w == NEW_WIRE)
    && (start == AuthDue ==> w.sent == [])
    && (start == ProxyDue ==> w.sent == [AuthResp(true)])
    && (start == Started ==> |w.sent| >= 2 && w.sent[0] == AuthResp(true) && w.sent[1] == ReqProxy)
    && (start != Rejected ==> w.written <= w.sent)
    && (start != Rejected && w.writer == Alive ==> w.sent == w.written + (if w.inHand.Some? then [w.inHand.value] else []))
  }

  /** One success was sent, or is about to be, for each tunnel. */
  predicate CountOk(start: Start, manager: Manager, tunnels: seq<Tun>, sent: seq<Msg>) {
    && (start != Started ==> manager == NotStarted && tunnels == [])
    && Successes(sent) + (if manager == Replying(NewTunnel(true)) then 1 else 0) == |tunnels|
  }

  predicate WireOk(k: Control) {
    OrderOk(k.start, k.wire) && CountOk(k.start, k.manager, k.tunnels, k.wire.sent)
  }

  /** Every control is well behaved, and tunnels and handlers belong to started ones. */
  ghost predicate Protocol(s: State) {
    && (forall c :: 0 <= c < |s.ctls| ==> WireOk(s.ctls[c]))
    && (forall t :: 0 <= t < |s.tuns| ==> IsStarted(s, s.tuns[t].ctl))
    && (forall h :: 0 <= h < |s.handlers| ==> IsStarted(s, s.handlers[h].ctl))
  }

  predicate IsStarted(s: State, c: Ctl) {
    c < |s.ctls| && s.ctls[c].start == Started
  }

  lemma SentCount(sent: seq<Msg>, m: Msg)
    ensures Successes(sent + [m]) == Successes(sent) + if m == NewTunnel(true) then 1 else 0
  {
  }

  lemma OrderSent(start: Start, w: Wire, m: Msg, next: Start)
    requires OrderOk(start, w) && w.writer == Alive && w.inHand == None
    requires || (start == AuthDue && m == AuthResp(true) && next == ProxyDue)
             || (start == ProxyDue && m == ReqProxy && next == Started)
             || (start == Started && next == Started)
    ensures OrderOk(next, w.(sent := w.sent + [m], inHand := Some(m)))
  {
  }

  lemma SentOk(k: Control, m: Msg)
    requires WireOk(k) && k.start == Started && Accepts(k) && m != NewTunnel(true)
    ensures WireOk(Sent(k, m))
  {
    SentCount(k.wire.sent, m);
    OrderSent(Started, k.wire, m, Started);
    hide Successes, OrderOk;
  }

  lemma StartWires(s: State, a: StartAction)
    requires Protocol(s) && StartStep(s, a).Some?
    ensures forall c :: 0 <= c < |StartStep(s, a).value.ctls| ==> WireOk(StartStep(s, a).value.ctls[c])
  {
    hide OrderOk, CountOk;
    NewOk();
    if a.SendAuth? || a.SendFirstReq? || a.StartWriter? {
      hide WireOk;
      assert WireOk(s.ctls[a.c]);
      StartWire(s.ctls[a.c], a);
    }
  }

  lemma StartWire(k: Control, a: StartAction)
    requires WireOk(k)
    ensures a.StartWriter? && k.start == Waiting ==> WireOk(k.(start := AuthDue, wire := NEW_WIRE.(writer := Alive)))
    ensures a.SendAuth? && k.start == AuthDue && Accepts(k) ==> WireOk(Sent(k, AuthResp(true)).(start := ProxyDue))
    ensures a.SendFirstReq? && k.start == ProxyDue && Accepts(k) ==> WireOk(Sent(k, ReqProxy).(start := Started, manager := Idle))
  {
    NewOk();
    if a.SendAuth? && k.start == AuthDue && Accepts(k) {
      OrderSent(AuthDue, k.wire, AuthResp(true), ProxyDue);
      CountStart(k, AuthResp(true), ProxyDue, NotStarted);
    } else if a.SendFirstReq? && k.start == ProxyDue && Accepts(k) {
      OrderSent(ProxyDue, k.wire, ReqProxy, Started);
      CountStart(k, ReqProxy, Started, Idle);
    } else if k.start == Waiting {
      CountAuth(k);
    }
    hide OrderOk, CountOk;
  }

  lemma NewOk()
    ensures OrderOk(Rejected, NEW_WIRE.(written := [AuthResp(false)])) && OrderOk(Waiting, NEW_WIRE)
    ensures OrderOk(AuthDue, NEW_WIRE.(writer := Alive))
    ensures CountOk(Rejected, NotStarted, [], []) && CountOk(Waiting, NotStarted, [], []) && CountOk(AuthDue, NotStarted, [], [])
  {
  }

  lemma CountAuth(k: Control)
    requires WireOk(k) && k.start == Waiting
    ensures k.manager == NotStarted && k.tunnels == []
  {
  }

  lemma CountStart(k: Control, m: Msg, start: Start, manager: Manager)
    requires WireOk(k) && k.start != Started && m != NewTunnel(true) && !manager.Replying?
    requires start != Started ==> manager == NotStarted
    ensures CountOk(start, manager, k.tunnels, k.wire.sent + [m]) && (start != Started ==> k.manager == NotStarted)
  {
    SentCount(k.wire.sent, m);
    hide Successes, OrderOk;
  }

  lemma WireWires(s: State, a: WireAction)
    requires Protocol(s) && WireStep(s, a).Some?
    ensures WireOk(WireStep(s, a).value.ctls[a.c])
  {
    var k, l := s.ctls[a.c], WireStep(s, a).value.ctls[a.c];
    assert WireOk(k);
    WireOnly(s, a);
    hide WireStep, OrderOk, CountOk, Protocol;
    if l.wire != k.wire {
      OrderWrite(k.start, k.wire);
    }
  }

  /** The writer's steps: one message written, or the writer dead. */
  lemma WireOnly(s: State, a: WireAction)
    requires WireStep(s, a).Some?
    ensures var k, l := s.ctls[a.c], WireStep(s, a).value.ctls[a.c];
      var w := k.wire;
      && l == k.(wire := l.wire, begun := l.begun)
      && (l.wire != w ==>
            && w.writer == Alive
            && (|| l.wire == w.(writer := Dead)
                || (w.inHand.Some? && l.wire == w.(written := w.written + [w.inHand.value], inHand := None))))
  {
  }

  lemma OrderWrite(start: Start, w: Wire)
    requires OrderOk(start, w) && w.writer == Alive
    ensures OrderOk(start, w.(writer := Dead))
    ensures w.inHand.Some? ==> OrderOk(start, w.(written := w.written + [w.inHand.value], inHand := None))
  {
  }

  lemma ReplyWires(s: State, c: Ctl, more: bool)
    requires c < |s.ctls| && WireOk(s.ctls[c]) && ManageStep(s, Reply(c, more)).Some?
    ensures WireOk(ManageStep(s, Reply(c, more)).value.ctls[c])
  {
    var k := s.ctls[c];
    ManagerStarted(k);
    SentCount(k.wire.sent, k.manager.m);
    OrderSent(k.start, k.wire, k.manager.m, k.start);
    hide OrderOk, Successes;
  }

  lemma ManageWires(s: State, a: ManageAction)
    requires Protocol(s) && ManageStep(s, a).Some?
    ensures WireOk(ManageStep(s, a).value.ctls[a.c])
  {
    assert WireOk(s.ctls[a.c]);
    hide Protocol, OrderOk, Successes;
    if a.Reply? {
      ReplyWires(s, a.c, a.more);
    } else {
      ManagerStarted(s.ctls[a.c]);
    }
  }

  lemma ManagerStarted(k: Control)
    requires WireOk(k)
    ensures k.manager != NotStarted ==> k.start == Started
  {
  }

  lemma StopWires(s: State, a: StopAction)
    requires Protocol(s) && StopStep(s, a).Some?
    ensures WireOk(StopStep(s, a).value.ctls[a.c])
  {
    assert WireOk(s.ctls[a.c]);
    hide OrderOk, CountOk, Protocol;
  }

  /** Only control c's messages change, and no control stops being started. */
  ghost predicate OnlyWire(s: State, t: State, c: Ctl) {
    && |t.ctls| == |s.ctls| && c < |s.ctls|
    && (forall d :: 0 <= d < |s.ctls| && d != c ==> t.ctls[d] == s.ctls[d])
    && (s.ctls[c].start == Started ==> t.ctls[c].start == Started)
    && (forall u :: 0 <= u < |t.tuns| ==> (u < |s.tuns| && t.tuns[u].ctl == s.tuns[u].ctl) || IsStarted(t, t.tuns[u].ctl))
    && (forall h :: 0 <= h < |t.handlers| ==> (h < |s.handlers| && t.handlers[h].ctl == s.handlers[h].ctl) || IsStarted(t, t.handlers[h].ctl))
  }

  lemma OnlyWireKeepsProtocol(s: State, t: State, c: Ctl)
    requires Protocol(s) && OnlyWire(s, t, c) && WireOk(t.ctls[c])
    ensures Protocol(t)
  {
    hide WireOk;
    forall u | 0 <= u < |t.tuns| ensures IsStarted(t, t.tuns[u].ctl) {
      if u < |s.tuns| {
        assert IsStarted(s, s.tuns[u].ctl);
      }
    }
    forall h | 0 <= h < |t.handlers| ensures IsStarted(t, t.handlers[h].ctl) {
      if h < |s.handlers| {
        assert IsStarted(s, s.handlers[h].ctl);
      }
    }
  }

  lemma StartKeepsProtocol(s: State, a: StartAction)
    requires Protocol(s) && StartStep(s, a).Some?
    ensures Protocol(StartStep(s, a).value)
  {
    var t := StartStep(s, a).value;
    StartWires(s, a);
    StartedStays(s, a);
    hide WireOk, StartStep, IsStarted;
    forall u | 0 <= u < |t.tuns| ensures IsStarted(t, t.tuns[u].ctl) {
      assert IsStarted(s, s.tuns[u].ctl);
    }
    forall h | 0 <= h < |t.handlers| ensures IsStarted(t, t.handlers[h].ctl) {
      assert IsStarted(s, s.handlers[h].ctl);
    }
  }

  lemma StartedStays(s: State, a: StartAction)
    requires StartStep(s, a).Some?
    ensures var t := StartStep(s, a).value;
      t.tuns == s.tuns && t.handlers == s.handlers && forall c :: IsStarted(s, c) ==> IsStarted(t, c)
  {
  }

  lemma ManageKeepsProtocol(s: State, a: ManageAction)
    requires Protocol(s) && ManageStep(s, a).Some?
    ensures Protocol(ManageStep(s, a).value)
  {
    ManageWires(s, a);
    assert WireOk(s.ctls[a.c]);
    ManagerStarted(s.ctls[a.c]);
    ManageOnlyWire(s, a);
    hide *;
    OnlyWireKeepsProtocol(s, ManageStep(s, a).value, a.c);
  }

  lemma ManageOnlyWire(s: State, a: ManageAction)
    requires ManageStep(s, a).Some? && (s.ctls[a.c].manager != NotStarted ==> s.ctls[a.c].start == Started)
    ensures OnlyWire(s, ManageStep(s, a).value, a.c)
  {
    ManageIsWork(s, a);
    ManageTuns(s, a);
    hide ManageStep;
  }

  lemma ManageTuns(s: State, a: ManageAction)
    requires ManageStep(s, a).Some?
    ensures s.ctls[a.c].manager != NotStarted
    ensures |s.tuns| <= |ManageStep(s, a).value.tuns|
    ensures forall u :: 0 <= u < |s.tuns| ==> ManageStep(s, a).value.tuns[u].ctl == s.tuns[u].ctl
    ensures forall u :: |s.tuns| <= u < |ManageStep(s, a).value.tuns| ==> ManageStep(s, a).value.tuns[u].ctl == a.c
  {
  }

  lemma ProxyKeepsProtocol(s: State, a: ProxyAction)
    requires Protocol(s) && ProxyStep(s, a).Some?
    ensures Protocol(ProxyStep(s, a).value)
  {
    var t := ProxyStep(s, a).value;
    ProxyOnly(s, a);
    hide ProxyStep, WireOk;
    if t.ctls == s.ctls {
      SameProtocol(s, t);
    } else {
      var c := s.transit[a.x];
      assert WireOk(s.ctls[c]);
      PoolWires(s.ctls[c], t.ctls[c].pool);
      hide Protocol, OnlyWire;
      OnlyWireKeepsProtocol(s, t, c);
    }
  }

  /** What arrives from a proxy changes one pool at most. */
  lemma ProxyOnly(s: State, a: ProxyAction)
    requires ProxyStep(s, a).Some?
    ensures var t := ProxyStep(s, a).value;
      && t.tuns == s.tuns && t.handlers == s.handlers
      && (t.ctls != s.ctls ==>
            && a.x in s.transit && s.transit[a.x] < |s.ctls| && OnlyWire(s, t, s.transit[a.x])
            && t.ctls[s.transit[a.x]] == s.ctls[s.transit[a.x]].(pool := t.ctls[s.transit[a.x]].pool))
  {
  }

  lemma SameProtocol(s: State, t: State)
    requires Protocol(s) && t.ctls == s.ctls && t.tuns == s.tuns && t.handlers == s.handlers
    ensures Protocol(t)
  {
    hide WireOk;
    assert forall c :: IsStarted(t, c) == IsStarted(s, c);
  }

  lemma PoolWires(k: Control, pool: seq<Conn>)
    requires WireOk(k)
    ensures WireOk(k.(pool := pool))
  {
  }

  /** What a handler does to its control: at most one request for a proxy. */
  lemma HandleWires(s: State, a: HandleAction)
    requires HandleStep(s, a).Some? && s.ctls[s.handlers[a.h].ctl].start == Started && WireOk(s.ctls[s.handlers[a.h].ctl])
    ensures OnlyWire(s, HandleStep(s, a).value, s.handlers[a.h].ctl)
    ensures WireOk(HandleStep(s, a).value.ctls[s.handlers[a.h].ctl])
  {
    hide OrderOk, CountOk;
    if a.AskForProxy? || a.AskAnother? {
      SentOk(s.ctls[s.handlers[a.h].ctl], ReqProxy);
      hide WireOk;
    }
  }

  lemma HandleKeepsProtocol(s: State, a: HandleAction)
    requires Protocol(s) && HandleStep(s, a).Some?
    ensures Protocol(HandleStep(s, a).value)
  {
    var c := s.handlers[a.h].ctl;
    hide WireOk;
    assert IsStarted(s, c) && WireOk(s.ctls[c]);
    HandleWires(s, a);
    hide HandleStep, OnlyWire, Protocol;
    OnlyWireKeepsProtocol(s, HandleStep(s, a).value, c);
  }

  lemma WireOnlyWire(s: State, a: WireAction)
    requires WireStep(s, a).Some?
    ensures OnlyWire(s, WireStep(s, a).value, a.c)
  {
  }

  lemma WireKeepsProtocol(s: State, a: WireAction)
    requires Protocol(s) && WireStep(s, a).Some?
    ensures Protocol(WireStep(s, a).value)
  {
    hide Protocol, WireOk, OnlyWire;
    WireWires(s, a);
    WireOnlyWire(s, a);
    OnlyWireKeepsProtocol(s, WireStep(s, a).value, a.c);
  }

  lemma StopKeepsProtocol(s: State, a: StopAction)
    requires Protocol(s) && StopStep(s, a).Some?
    ensures Protocol(StopStep(s, a).value)
  {
    StopWires(s, a);
    hide Protocol, WireOk;
    OnlyWireKeepsProtocol(s, StopStep(s, a).value, a.c);
  }

  lemma ConnectKeepsProtocol(s: State, t: Tun)
    requires Protocol(s) && Connect(s, t).Some?
    ensures Protocol(Connect(s, t).value)
  {
    assert IsStarted(s, s.tuns[t].ctl);
    assert WireOk(s.ctls[s.tuns[t].ctl]);
    hide WireOk, Protocol;
    OnlyWireKeepsProtocol(s, Connect(s, t).value, s.tuns[t].ctl);
  }

  lemma StepKeepsProtocol(s: State, a: Action)
    requires Protocol(s) && Step(s, a).Some?
    ensures Protocol(Step(s, a).value)
  {
    hide Protocol, StartStep, WireStep, ManageStep, StopStep, ProxyStep, HandleStep;
    match a
    case OfStart(b) => StartKeepsProtocol(s, b);
    case OfManage(b) => ManageKeepsProtocol(s, b);
    case OfProxy(b) => ProxyKeepsProtocol(s, b);
    case OfHandle(b) => HandleKeepsProtocol(s, b);
    case OfWire(b) => WireKeepsProtocol(s, b);
    case OfStop(b) => StopKeepsProtocol(s, b);
    case OfConnect(t) => ConnectKeepsProtocol(s, t);
  }

  // ----- What holds in every run -----

  ghost predicate Inv(s: State) {
    Directory(s) && Ownership(s) && Conserved(s) && Protocol(s)
  }

  lemma StepKeeps(s: State, a: Action)
    requires Inv(s) && Step(s, a).Some?
    ensures Inv(Step(s, a).value)
  {
    hide Step, Directory, Ownership, Conserved, Protocol;
    StepKeepsDirectory(s, a);
    StepKeepsOwnership(s, a);
    StepKeepsConserved(s, a);
    StepKeepsProtocol(s, a);
  }

  lemma EmptyInv()
    ensures Inv(EMPTY)
  {
  }

  /** The invariants hold in every state of every run. */
  lemma {:induction false} RunKeeps(states: seq<State>, actions: seq<Action>, i: nat)
    requires IsRun(states, actions) && i < |states|
    ensures Inv(states[i])
  {
    if i == 0 {
      EmptyInv();
    } else {
      hide Step, Inv;
      RunKeeps(states, actions, i - 1);
      assert Step(states[i - 1], actions[i - 1]) == Some(states[i - 1 + 1]);
      StepKeeps(states[i - 1], actions[i - 1]);
    }
  }

  /** d was replaced by c, or by a control that was in turn replaced, and so on. */
  predicate ReplacedBefore(s: State, d: Ctl, c: Ctl)
    requires c < |s.ctls|
    decreases c
  {
    match s.ctls[c].replaced
    case None => false
    case Some(r) => r < c && (d == r || ReplacedBefore(s, d, r))
  }

  /** The shutdown of d is complete, no URL is registered for it, and its pool is empty. */
  ghost predicate Gone(s: State, d: Ctl)
    requires d < |s.ctls|
  {
    && s.ctls[d].stop == Complete && s.ctls[d].pool == []
    && forall url :: url in s.urls && s.urls[url] < |s.tuns| ==> s.tuns[s.urls[url]].ctl != d
  }

  lemma CompleteIsGone(s: State, d: Ctl)
    requires Inv(s) && d < |s.ctls| && s.ctls[d].stop == Complete
    ensures Gone(s, d)
  {
    assert PoolOk(s, d) && CtlUrls(s, d);
    forall url | url in s.urls ensures s.tuns[s.urls[url]].ctl != d {
      var t := s.urls[url];
      assert Owns(s, t, url) && TunOk(s, t);
    }
  }

  /** Replacement: in every run, when a control's manager has started, every control
      before it in its chain of replacements is gone. */
  lemma {:induction false} ChainIsGone(s: State, c: Ctl, d: Ctl)
    requires Inv(s) && c < |s.ctls| && s.ctls[c].manager != NotStarted && ReplacedBefore(s, d, c)
    ensures d < |s.ctls| && Gone(s, d)
    decreases c
  {
    var r := s.ctls[c].replaced.value;
    assert CtlOk(s, c) && WireOk(s.ctls[c]);
    CompleteIsGone(s, r);
    if d != r {
      assert CtlOk(s, r) && CtlUrls(s, r);
      ChainIsGone(s, r, d);
    }
  }

  lemma ReplacementChain(states: seq<State>, actions: seq<Action>, i: nat, c: Ctl, d: Ctl)
    requires IsRun(states, actions) && i < |states| && c < |states[i].ctls|
    requires states[i].ctls[c].manager != NotStarted && ReplacedBefore(states[i], d, c)
    ensures d < |states[i].ctls| && Gone(states[i], d)
  {
    RunKeeps(states, actions, i);
    hide *;
    ChainIsGone(states[i], c, d);
  }

  lemma OwnEntry(s: State, c: Ctl)
    requires Inv(s) && StopStep(s, Deregister(c)).Some?
    ensures var t := StopStep(s, Deregister(c)).value;
      forall id :: id in s.registry && s.registry[id] != c ==> id in t.registry && t.registry[id] == s.registry[id]
  {
    assert CtlOk(s, c);
    hide Ownership, Conserved, Protocol;
  }

  /** A stopper removes at most its own entry from the control registry, so never the
      control that replaced it. */
  lemma DeregisterIsOwn(states: seq<State>, actions: seq<Action>, i: nat, c: Ctl)
    requires IsRun(states, actions) && i < |actions| && actions[i] == OfStop(Deregister(c))
    ensures forall id :: id in states[i].registry && states[i].registry[id] != c ==>
              id in states[i + 1].registry && states[i + 1].registry[id] == states[i].registry[id]
  {
    RunKeeps(states, actions, i);
    hide Inv, StopStep;
    assert Step(states[i], actions[i]) == Some(states[i + 1]);
    OwnEntry(states[i], c);
  }

  /** Why reading the id and deleting it must be one step: a stopper that had read its
      id before it was replaced would delete its replacement. */
  lemma LateDeregister(s: State, id: string)
    requires id in s.registry && s.registry[id] < |s.ctls|
    ensures var t := Add(s, id);
      t.ctls[t.registry[id]].replaced == Some(s.registry[id]) && t.registry[id] != s.registry[id] && id !in t.registry - {id}
  {
  }

  /** Each registered URL has exactly one owner, the tunnel it is registered for; and
      a tunnel's URLs are all registered, as its own. */
  lemma OneOwner(states: seq<State>, actions: seq<Action>, i: nat, t: Tun, url: string)
    requires IsRun(states, actions) && i < |states| && t < |states[i].tuns|
    ensures Owns(states[i], t, url) <==> url in states[i].urls && states[i].urls[url] == t
  {
    RunKeeps(states, actions, i);
    hide IsRun, Directory, Conserved, Protocol;
    var s := states[i];
    assert TunOk(s, t);
    if url in s.urls {
      assert Owns(s, s.urls[url], url);
    }
  }

  /** Only two steps touch the tunnel registry: a registration adds one free URL, and
      one tunnel's shutdown removes one URL, its own. */
  lemma UrlSteps(s: State, a: Action)
    requires Inv(s) && Step(s, a).Some?
    ensures var t := Step(s, a).value;
      if a.OfManage? && a.manage.RegisterUrl?
      then a.manage.url !in s.urls && t.urls == s.urls[a.manage.url := s.ctls[a.manage.c].manager.t]
      else if a.OfStop? && a.stop.TearUrl?
      then forall url :: url in t.urls <==> url in s.urls && s.urls[url] != s.ctls[a.stop.c].tunnels[s.ctls[a.stop.c].stop.next]
      else t.urls == s.urls
  {
    InvOwns(s);
    hide Inv, Ownership, StartStep, WireStep, ProxyStep, HandleStep, Connect;
    match a
    case OfStart(b) => StartUrls(s, b);
    case OfStop(b) => StopUrls(s, b);
    case OfManage(b) => ManageUrls(s, b);
    case OfProxy(b) => ProxyTunnels(s, b);
    case OfHandle(b) => HandleTunnels(s, b);
    case OfWire(b) => WireTunnels(s, b);
    case OfConnect(t) => ConnectTunnels(s, t);
  }

  lemma StartUrls(s: State, a: StartAction)
    requires StartStep(s, a).Some?
    ensures StartStep(s, a).value.urls == s.urls
  {
  }

  lemma ManageUrls(s: State, a: ManageAction)
    requires ManageStep(s, a).Some?
    ensures if a.RegisterUrl?
            then a.url !in s.urls && ManageStep(s, a).value.urls == s.urls[a.url := s.ctls[a.c].manager.t]
            else ManageStep(s, a).value.urls == s.urls
  {
  }

  lemma StopUrls(s: State, a: StopAction)
    requires Ownership(s) && StopStep(s, a).Some?
    ensures var t := StopStep(s, a).value;
      if a.TearUrl?
      then forall url :: url in t.urls <==> url in s.urls && s.urls[url] != s.ctls[a.c].tunnels[s.ctls[a.c].stop.next]
      else t.urls == s.urls
  {
    if a.TearUrl? {
      TearUrlIsOwn(s, a.c);
    }
    hide Ownership;
  }

  lemma InvOwns(s: State)
    requires Inv(s)
    ensures Ownership(s)
  {
  }

  lemma CompleteStays(s: State, a: Action, c: Ctl)
    requires Step(s, a).Some? && c < |s.ctls| && s.ctls[c].stop == Complete
    ensures c < |Step(s, a).value.ctls| && Step(s, a).value.ctls[c].stop == Complete
  {
    hide StartStep, WireStep, ManageStep, StopStep, ProxyStep, HandleStep, Connect;
    match a
    case OfStart(b) => StartStays(s, b, c);
    case OfStop(b) => StopStays(s, b, c);
    case OfManage(b) => ManageIsElsewhere(s, b);
    case OfProxy(b) => ProxyIsElsewhere(s, b);
    case OfHandle(b) => HandleIsElsewhere(s, b);
    case OfWire(b) => WireIsElsewhere(s, b);
    case OfConnect(t) => ConnectIsElsewhere(s, t);
  }

  lemma StartStays(s: State, a: StartAction, c: Ctl)
    requires StartStep(s, a).Some? && c < |s.ctls|
    ensures c < |StartStep(s, a).value.ctls| && StartStep(s, a).value.ctls[c].stop == s.ctls[c].stop
  {
  }

  lemma StopStays(s: State, a: StopAction, c: Ctl)
    requires StopStep(s, a).Some? && c < |s.ctls| && s.ctls[c].stop == Complete
    ensures c < |StopStep(s, a).value.ctls| && StopStep(s, a).value.ctls[c].stop == Complete
  {
  }

  /** Once a control's shutdown is complete, it is complete ever after: none of its
      URLs remain, its pool is empty, and nothing enters it again. */
  lemma {:induction false} CompleteForever(states: seq<State>, actions: seq<Action>, c: Ctl, i: nat, j: nat)
    requires IsRun(states, actions) && i <= j < |states|
    requires c < |states[i].ctls| && states[i].ctls[c].stop == Complete
    ensures c < |states[j].ctls| && states[j].ctls[c].stop == Complete && Gone(states[j], c)
    decreases j
  {
    hide Gone, Step, Inv;
    if i < j {
      CompleteForever(states, actions, c, i, j - 1);
      CompleteStays(states[j - 1], actions[j - 1], c);
    }
    RunKeeps(states, actions, j);
    CompleteIsGone(states[j], c);
  }

  /** Conservation: every connection ever given to NewProxy is in exactly one place:
      on its way, once in one pool, with one handler, or closed. */
  lemma OnePlace(states: seq<State>, actions: seq<Action>, i: nat, x: Conn)
    requires IsRun(states, actions) && i < |states| && x in states[i].place
    ensures Placed(states[i], x)
    ensures var s := states[i];
      && (x in s.transit <==> s.place[x].InTransit?)
      && (x in s.closed <==> s.place[x] == Closed)
      && (forall c :: 0 <= c < |s.ctls| ==> (x in s.ctls[c].pool <==> s.place[x] == Pooled(c)))
      && (forall h :: 0 <= h < |s.handlers| ==> (s.handlers[h].doing == Using(x) <==> s.place[x] == HeldBy(h)))
  {
    RunKeeps(states, actions, i);
    var s := states[i];
    hide IsRun, Directory, Ownership, Protocol;
    assert Placed(s, x);
    forall c | 0 <= c < |s.ctls| ensures x in s.ctls[c].pool <==> s.place[x] == Pooled(c) {
      assert PoolOk(s, c);
    }
    forall h | 0 <= h < |s.handlers| ensures s.handlers[h].doing == Using(x) <==> s.place[x] == HeldBy(h) {
      assert HandlerOk(s, h);
    }
  }

  /** What is recorded stays recorded. */
  lemma PlaceStays(s: State, a: Action, x: Conn)
    requires x in s.place && Step(s, a).Some?
    ensures x in Step(s, a).value.place
  {
    hide StartStep, WireStep, ManageStep, StopStep, ProxyStep, HandleStep;
    match a
    case OfStart(b) => StartPlace(s, b);
    case OfWire(b) => WirePlace(s, b);
    case OfManage(b) => ManagePlace(s, b);
    case OfStop(b) => StopPlace(s, b, x);
    case OfProxy(b) => ProxyPlace(s, b, x);
    case OfConnect(t) =>
    case OfHandle(b) => HandlePlace(s, b, x);
  }

  lemma StartPlace(s: State, a: StartAction)
    requires StartStep(s, a).Some?
    ensures StartStep(s, a).value.place == s.place
  {
  }

  lemma WirePlace(s: State, a: WireAction)
    requires WireStep(s, a).Some?
    ensures WireStep(s, a).value.place == s.place
  {
  }

  lemma ManagePlace(s: State, a: ManageAction)
    requires ManageStep(s, a).Some?
    ensures ManageStep(s, a).value.place == s.place
  {
  }

  lemma StopPlace(s: State, a: StopAction, x: Conn)
    requires StopStep(s, a).Some? && x in s.place
    ensures x in StopStep(s, a).value.place
  {
  }

  lemma ProxyPlace(s: State, a: ProxyAction, x: Conn)
    requires ProxyStep(s, a).Some? && x in s.place
    ensures x in ProxyStep(s, a).value.place
  {
  }

  lemma HandlePlace(s: State, a: HandleAction, x: Conn)
    requires HandleStep(s, a).Some? && x in s.place
    ensures x in HandleStep(s, a).value.place
  {
  }

  /** A connection that NewProxy was given is, ever after, in one place. */
  lemma {:induction false} ArrivedForever(states: seq<State>, actions: seq<Action>, x: Conn, id: string, i: nat, j: nat)
    requires IsRun(states, actions) && i < j < |states| && actions[i] == OfProxy(Arrive(x, id))
    ensures x in states[j].place && Placed(states[j], x)
    decreases j
  {
    assert Step(states[j - 1], actions[j - 1]) == Some(states[j]);
    if i == j - 1 {
      ArriveRecords(states[i], x, id);
    } else {
      ArrivedForever(states, actions, x, id, i, j - 1);
      PlaceStays(states[j - 1], actions[j - 1], x);
    }
    hide Step, Placed;
    OnePlace(states, actions, j, x);
  }

  lemma ArriveRecords(s: State, x: Conn, id: string)
    requires Step(s, OfProxy(Arrive(x, id))).Some?
    ensures x in Step(s, OfProxy(Arrive(x, id))).value.place
  {
  }

  /** A pool holds at most ten connections, none of them twice. */
  lemma PoolBounded(states: seq<State>, actions: seq<Action>, i: nat, c: Ctl)
    requires IsRun(states, actions) && i < |states| && c < |states[i].ctls|
    ensures |states[i].ctls[c].pool| <= 10
    ensures forall j, k :: 0 <= j < k < |states[i].ctls[c].pool| ==> states[i].ctls[c].pool[j] != states[i].ctls[c].pool[k]
  {
    RunKeeps(states, actions, i);
    hide IsRun;
    assert PoolOk(states[i], c);
  }

  /** The order of messages: whatever is on a control channel starts with the answer
      to the authentication, and after a positive answer comes a request for a proxy;
      a channel that is refused gets nothing else. */
  lemma MessageOrder(states: seq<State>, actions: seq<Action>, i: nat, c: Ctl)
    requires IsRun(states, actions) && i < |states| && c < |states[i].ctls|
    ensures var written := states[i].ctls[c].wire.written;
      && (|written| > 0 ==> written[0].AuthResp?)
      && (|written| > 1 ==> written[0] == AuthResp(true) && written[1] == ReqProxy)
  {
    RunKeeps(states, actions, i);
    assert WireOk(states[i].ctls[c]);
    hide IsRun, Directory, Ownership, Conserved;
  }

  /** Every tunnel a control has is reported by one success, sent or about to be. */
  lemma OneSuccessEach(states: seq<State>, actions: seq<Action>, i: nat, c: Ctl)
    requires IsRun(states, actions) && i < |states| && c < |states[i].ctls|
    ensures var k := states[i].ctls[c];
      Successes(k.wire.sent) == |k.tunnels| - if k.manager == Replying(NewTunnel(true)) then 1 else 0
  {
    RunKeeps(states, actions, i);
    assert WireOk(states[i].ctls[c]);
    hide IsRun, Directory, Ownership, Conserved;
  }

  /** No goroutine but a handler ever sends on a closed out channel, where a send
      would panic: when it is closed, NewControl and the manager are done. */
  lemma NoSendAfterClose(states: seq<State>, actions: seq<Action>, i: nat, c: Ctl)
    requires IsRun(states, actions) && i < |states| && c < |states[i].ctls| && OutClosed(states[i].ctls[c].stop)
    ensures states[i].ctls[c].start == Started && states[i].ctls[c].manager == Exited
  {
    RunKeeps(states, actions, i);
    assert CtlUrls(states[i], c) && CtlOk(states[i], c);
    hide IsRun, Conserved, Protocol;
  }
}
