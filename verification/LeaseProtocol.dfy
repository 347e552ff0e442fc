/** The two ends of a connection joined by two FIFO queues and one clock that never runs
    backwards. Each queue is the sender's log plus the receiver's position in it. A step
    whose guard is false leaves the world alone, so every step sequence is a run. */
module LeaseProtocol {
  import opened Wrappers
  import opened Control
  import opened ControllerSession
  import opened LeaseAgent

  datatype Config = Config(policy: Policy, scale: Scaling)

  /** `down` commands of `session.sent` are consumed, and `up` messages of `agent.sent`.
      `checked` says the pump is past the expiry check of its current turn. */
  datatype World = World(
    now: int, session: Session, sessionLive: bool, agent: Agent, agentLive: bool,
    down: nat, up: nat, checked: bool)

  datatype Step =
    | Tick(elapsed: nat)
    | SessionReceive(admission: Admission, id: int, creds: seq<string>)
    | SessionOperator(event: Lifecycle, id: int, creds: seq<string>)
    | SessionForward(command: Command)
    | SessionStop
    | AgentTop
    | AgentTimeout(snapshot: bool)
    | AgentReceive(reply: Option<Telemetry>)
    | AgentHangup
    | AgentStop

  /** Registration is the first thing a connected agent sends. */
  function Start(now: int, agentId: string, version: nat): World {
    World(now, NEW_SESSION, true, SendTelemetry(NewAgent(), Register(agentId, version), true).agent,
          true, 0, 0, false)
  }

  /** What deployment commands are answered with. */
  predicate PlainReply(reply: Option<Telemetry>) {
    reply.Some? ==> reply.value.DeploymentState? || reply.value.DetailsReply?
  }

  function AfterSession(w: World, r: Reply): World {
    w.(session := r.session, sessionLive := r.error.None?)
  }

  function AfterAgent(w: World, o: Outcome): World {
    w.(agent := o.agent, agentLive := o.error.None?, checked := false)
  }

  /** The operator and the HTTP handlers reach a session only once it has registered its
      channels, and HTTP handlers push nothing that touches authority. */
  predicate Enabled(w: World, step: Step) {
    match step
    case Tick(_) => true
    case SessionReceive(_, _, _) => w.sessionLive && w.up < |w.agent.sent|
    case SessionOperator(_, _, _) => w.sessionLive && w.session.agentId.Some?
    case SessionForward(c) => w.sessionLive && w.session.agentId.Some? && !c.IsAuthority()
    case SessionStop => w.sessionLive
    case AgentTop => w.agentLive && !w.checked
    case AgentTimeout(_) => w.agentLive && w.checked
    case AgentReceive(reply) => w.agentLive && w.checked && w.down < |w.session.sent| && PlainReply(reply)
    case AgentHangup => w.agentLive && w.checked && !w.sessionLive && w.down >= |w.session.sent|
    case AgentStop => w.agentLive
  }

  function SessionReply(c: Config, w: World, step: Step): Reply
    requires step.SessionReceive? || step.SessionOperator? || step.SessionForward?
    requires Enabled(w, step)
  {
    match step
    case SessionReceive(a, id, creds) =>
      OnTelemetry(w.session, w.agent.sent[w.up], a, c.policy, w.now, id, creds, w.agentLive)
    case SessionOperator(ev, id, creds) =>
      OnLifecycle(w.session, ev, c.policy, w.now, id, creds, w.agentLive)
    case SessionForward(cmd) => PushCommand(w.session, cmd, w.agentLive)
  }

  function AgentOutcome(c: Config, w: World, step: Step): Outcome
    requires step.AgentTop? || step.AgentTimeout? || step.AgentReceive?
    requires Enabled(w, step)
  {
    match step
    case AgentTop => CheckExpiry(w.agent, w.now)
    case AgentTimeout(snapshot) => OnTimeout(w.agent, snapshot, c.scale, w.now, w.sessionLive)
    case AgentReceive(reply) => OnReceive(w.agent, w.session.sent[w.down], reply, w.sessionLive)
  }

  function After(c: Config, w: World, step: Step): World {
    if !Enabled(w, step) then w
    else match step
      case Tick(elapsed) => w.(now := w.now + elapsed)
      case SessionReceive(_, _, _) => AfterSession(w, SessionReply(c, w, step)).(up := w.up + 1)
      case SessionOperator(_, _, _) => AfterSession(w, SessionReply(c, w, step))
      case SessionForward(_) => AfterSession(w, SessionReply(c, w, step))
      case SessionStop => w.(sessionLive := false)
      case AgentTop => AfterAgent(w, AgentOutcome(c, w, step)).(checked := true)
      case AgentTimeout(_) => AfterAgent(w, AgentOutcome(c, w, step))
      case AgentReceive(_) => AfterAgent(w, AgentOutcome(c, w, step)).(down := w.down + 1)
      case AgentHangup => w.(agent := OnTransportClosed(w.agent).agent, agentLive := false)
      case AgentStop => w.(agentLive := false)
  }

  function Run(c: Config, w: World, steps: seq<Step>): World
    decreases steps
  {
    if steps == [] then w else Run(c, After(c, w, steps[0]), steps[1..])
  }

  lemma {:induction false} RunAppends(c: Config, w: World, first: seq<Step>, second: seq<Step>)
    ensures Run(c, w, first + second) == Run(c, Run(c, w, first), second)
    decreases first
  {
    if first == [] {
      assert first + second == second;
    } else {
      assert (first + second)[0] == first[0] && (first + second)[1..] == first[1..] + second;
      RunAppends(c, After(c, w, first[0]), first[1..], second);
    }
  }
}
