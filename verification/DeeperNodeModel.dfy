/** The registry of devices and of servers by country: storage, the effect of each call, runs of calls. */
module DeeperNodeModel {
  import opened Bytes

  const MIN_LOCK_AMT: nat := 100

  datatype Node = Node(accountId: AccountId, ipv4: seq<Byte>, country: U16)

  datatype Event =
    | RegisterNode(who: AccountId, ip: seq<Byte>, country: U16)
    | UnregisterNode(who: AccountId)
    | ServerAdded(who: AccountId, country: U16)
    | ServerRemoved(who: AccountId, country: U16)

  datatype Error = ReserveFailed | NotRegistered

  datatype Outcome = Ok | Err(error: Error)

  /** Device records, server lists and the log, with the amount the currency holds in reserve per account. */
  datatype State = State(devices: map<AccountId, Node>, servers: map<U16, seq<AccountId>>, events: seq<Event>,
                         reserved: map<AccountId, nat>)

  datatype Result = Result(state: State, outcome: Outcome)

  const GENESIS: State := State(map[], map[], [], map[])

  /** What reading a missing record yields. */
  const DEFAULT_NODE: Node := Node(Zeros(32), [], 0)

  function NodeOf(s: State, who: AccountId): Node {
    if who in s.devices then s.devices[who] else DEFAULT_NODE
  }

  function Servers(s: State, country: U16): seq<AccountId> {
    if country in s.servers then s.servers[country] else []
  }

  function Reserved(s: State, who: AccountId): nat {
    if who in s.reserved then s.reserved[who] else 0
  }

  /** `reserve` fails without effect or sets the amount aside; `unreserve` frees what it finds, up to the amount. */
  function Reserve(s: State, who: AccountId): State {
    s.(reserved := s.reserved[who := Reserved(s, who) + MIN_LOCK_AMT])
  }

  function Unreserve(s: State, who: AccountId): State {
    var held := Reserved(s, who);
    s.(reserved := s.reserved[who := if held < MIN_LOCK_AMT then 0 else held - MIN_LOCK_AMT])
  }

  /** The position of the first occurrence, or the length when there is none. */
  function Position(list: seq<AccountId>, who: AccountId): (i: nat)
    ensures i <= |list|
    ensures i < |list| ==> list[i] == who
    ensures who !in list[..i]
  {
    if list == [] then 0
    else if list[0] == who then 0
    else
      var i := Position(list[1..], who) + 1;
      assert list[..i] == [list[0]] + list[1..][..i - 1];
      i
  }

  /** Dropping a listed account also resets the country of its device record to 0. */
  function RemoveServer(s: State, who: AccountId, country: U16): State {
    var list := Servers(s, country);
    var i := Position(list, who);
    if i == |list| then s
    else
      s.(servers := s.servers[country := list[..i] + list[i + 1..]],
         events := s.events + [ServerRemoved(who, country)],
         devices := s.devices[who := NodeOf(s, who).(country := 0)])
  }

  /** An account already on the list is left where it is, and its record is not touched. */
  function AddServer(s: State, who: AccountId, country: U16): State {
    var list := Servers(s, country);
    if who in list then s
    else
      s.(servers := s.servers[country := list + [who]],
         events := s.events + [ServerAdded(who, country)],
         devices := s.devices[who := NodeOf(s, who).(country := country)])
  }

  function RegisterDevice(s: State, who: AccountId, ip: seq<Byte>, country: U16, reserveOk: bool): Result {
    if !reserveOk then Result(s, Err(ReserveFailed))
    else
      Result(Reserve(s, who).(devices := s.devices[who := Node(who, ip, country)],
                              events := s.events + [RegisterNode(who, ip, country)]),
             Ok)
  }

  function UnregisterDevice(s: State, who: AccountId): Result {
    if who !in s.devices then Result(s, Err(NotRegistered))
    else
      var t := RemoveServer(s, who, s.devices[who].country);
      Result(Unreserve(t, who).(devices := t.devices - {who}, events := t.events + [UnregisterNode(who)]), Ok)
  }

  function RegisterServer(s: State, who: AccountId, country: U16): Result {
    if who !in s.devices then Result(s, Err(NotRegistered)) else Result(AddServer(s, who, country), Ok)
  }

  function UnregisterServer(s: State, who: AccountId, country: U16): Result {
    if who !in s.devices then Result(s, Err(NotRegistered)) else Result(RemoveServer(s, who, country), Ok)
  }

  /** A signed extrinsic; for a registration, with the currency's verdict on the reserve. */
  datatype Call =
    | RegisterDeviceCall(who: AccountId, ip: seq<Byte>, country: U16, reserveOk: bool)
    | UnregisterDeviceCall(who: AccountId)
    | RegisterServerCall(who: AccountId, country: U16)
    | UnregisterServerCall(who: AccountId, country: U16)

  function Step(s: State, call: Call): Result {
    match call
    case RegisterDeviceCall(who, ip, country, reserveOk) => RegisterDevice(s, who, ip, country, reserveOk)
    case UnregisterDeviceCall(who) => UnregisterDevice(s, who)
    case RegisterServerCall(who, country) => RegisterServer(s, who, country)
    case UnregisterServerCall(who, country) => UnregisterServer(s, who, country)
  }

  function Exec(calls: seq<Call>): State {
    if calls == [] then GENESIS
    else Step(Exec(calls[..|calls| - 1]), calls[|calls| - 1]).state
  }

  function Outcomes(calls: seq<Call>): (outs: seq<Outcome>)
    ensures |outs| == |calls|
  {
    if calls == [] then []
    else
      var before := calls[..|calls| - 1];
      Outcomes(before) + [Step(Exec(before), calls[|calls| - 1]).outcome]
  }

  lemma ExecSnoc(calls: seq<Call>, call: Call)
    ensures Exec(calls + [call]) == Step(Exec(calls), call).state
    ensures Outcomes(calls + [call]) == Outcomes(calls) + [Step(Exec(calls), call).outcome]
  {
    assert (calls + [call])[..|calls|] == calls;
  }
}
