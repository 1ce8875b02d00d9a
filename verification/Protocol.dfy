/** The message types of daemon/src/protocol.rs. */
module Protocol {
  import opened Common
  import opened Crypto

  type Sid = string

  /** A base64 field: what it decodes to, or its text when it does not decode. */
  datatype Field<+T> = Good(value: T) | Garbled(text: string)

  function Decode<T>(f: Field<T>): Option<T> {
    match f
    case Good(value) => Some(value)
    case Garbled(_) => None
  }

  datatype ClientMsg =
    | Hello(v: nat, role: string, dev: Option<string>)
    | Ping
    | SessionList(reqId: nat)
    | SessionCreate(reqId: nat, cols: nat, rows: nat, cwd: Option<string>, cmd: Option<string>)
    | SessionAttach(reqId: nat, sid: Sid)
    | SessionKill(reqId: nat, sid: Sid)
    | Input(sid: Sid, data: Field<Bytes>)
    | Resize(sid: Sid, cols: nat, rows: nat)
    | AuthProof(pub: Field<Pub>, mac: Field<Mac>)

  datatype DaemonMsg =
    | HelloAck(dev: string)
    | Pong
    | SessionListResult(reqId: nat, sessions: set<Sid>)
    | SessionCreated(reqId: nat, sid: Sid)
    | SessionAttached(reqId: nat, sid: Sid)
    | SessionKilled(reqId: nat, sid: Sid)
    | Output(sid: Sid, n: nat, data: Bytes)
    | Snapshot(sid: Sid, n: nat, data: Bytes)
    | SessionExited(sid: Sid, exitCode: Option<nat>)
    | AgentStatus(sid: Sid, agent: string, status: string, detail: Bytes)
    | Error(errReqId: Option<nat>, code: string)

  /** The request id a message asks to be answered with. */
  function RequestId(m: ClientMsg): Option<nat> {
    match m
    case SessionList(id) => Some(id)
    case SessionCreate(id, _, _, _, _) => Some(id)
    case SessionAttach(id, _) => Some(id)
    case SessionKill(id, _) => Some(id)
    case _ => None
  }

  /** The request id an answer carries. */
  function ReplyId(m: DaemonMsg): Option<nat> {
    match m
    case SessionListResult(id, _) => Some(id)
    case SessionCreated(id, _) => Some(id)
    case SessionAttached(id, _) => Some(id)
    case SessionKilled(id, _) => Some(id)
    case Error(id, _) => id
    case _ => None
  }
}
