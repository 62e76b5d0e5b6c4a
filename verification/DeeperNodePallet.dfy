/** The registry pallet: an object whose dispatchables update its storage in place. */
module DeeperNodePallet {
  import opened Bytes
  import opened DeeperNodeModel

  class Pallet {
    var devices: map<AccountId, Node>
    var servers: map<U16, seq<AccountId>>
    var events: seq<Event>
    ghost var reserved: map<AccountId, nat>

    ghost function View(): State
      reads this
    {
      State(devices, servers, events, reserved)
    }

    constructor ()
      ensures View() == GENESIS
    {
      devices, servers, events, reserved := map[], map[], [], map[];
    }

    method RegisterDevice(origin: AccountId, ip: seq<Byte>, country: U16, reserveOk: bool) returns (r: Outcome)
      modifies this
      ensures Result(View(), r) == DeeperNodeModel.RegisterDevice(old(View()), origin, ip, country, reserveOk)
    {
      var node := Node(origin, ip, country);
      if !reserveOk {
        return Err(ReserveFailed);
      }
      reserved := Reserve(View(), origin).reserved;
      devices := devices[origin := node];
      events := events + [RegisterNode(origin, ip, country)];
      return Ok;
    }

    method UnregisterDevice(origin: AccountId) returns (r: Outcome)
      modifies this
      ensures Result(View(), r) == DeeperNodeModel.UnregisterDevice(old(View()), origin)
    {
      if origin !in devices {
        return Err(NotRegistered);
      }
      var country := devices[origin].country;
      TryRemoveServer(origin, country);
      devices := devices - {origin};
      reserved := Unreserve(View(), origin).reserved;
      events := events + [UnregisterNode(origin)];
      return Ok;
    }

    method RegisterServer(origin: AccountId, country: U16) returns (r: Outcome)
      modifies this
      ensures Result(View(), r) == DeeperNodeModel.RegisterServer(old(View()), origin, country)
    {
      if origin !in devices {
        return Err(NotRegistered);
      }
      TryAddServer(origin, country);
      return Ok;
    }

    method UnregisterServer(origin: AccountId, country: U16) returns (r: Outcome)
      modifies this
      ensures Result(View(), r) == DeeperNodeModel.UnregisterServer(old(View()), origin, country)
    {
      if origin !in devices {
        return Err(NotRegistered);
      }
      TryRemoveServer(origin, country);
      return Ok;
    }

    method TryRemoveServer(sender: AccountId, country: U16)
      modifies this
      ensures View() == RemoveServer(old(View()), sender, country)
    {
      var list := if country in servers then servers[country] else [];
      var index := FindPosition(list, sender);
      if index < |list| {
        list := list[..index] + list[index + 1..];
        servers := servers[country := list];
        events := events + [ServerRemoved(sender, country)];
        var node := if sender in devices then devices[sender] else DEFAULT_NODE;
        devices := devices[sender := node.(country := 0)];
      }
    }

    method TryAddServer(sender: AccountId, country: U16)
      modifies this
      ensures View() == AddServer(old(View()), sender, country)
    {
      var list := if country in servers then servers[country] else [];
      for i := 0 to |list|
        invariant sender !in list[..i]
      {
        if list[i] == sender {
          return;
        }
      }
      list := list + [sender];
      servers := servers[country := list];
      events := events + [ServerAdded(sender, country)];
      var node := if sender in devices then devices[sender] else DEFAULT_NODE;
      devices := devices[sender := node.(country := country)];
    }

    /** One call of the runtime reaches its dispatchable. */
    method Dispatch(call: Call) returns (r: Outcome)
      modifies this
      ensures Result(View(), r) == Step(old(View()), call)
    {
      match call
      case RegisterDeviceCall(who, ip, country, reserveOk) => r := RegisterDevice(who, ip, country, reserveOk);
      case UnregisterDeviceCall(who) => r := UnregisterDevice(who);
      case RegisterServerCall(who, country) => r := RegisterServer(who, country);
      case UnregisterServerCall(who, country) => r := UnregisterServer(who, country);
    }
  }

  /** A whole run on a new pallet object: it ends in the state, and returns the outcomes, of the modelled run. */
  method Run(calls: seq<Call>) returns (p: Pallet, outs: seq<Outcome>)
    ensures fresh(p) && p.View() == Exec(calls) && outs == Outcomes(calls)
  {
    p := new Pallet();
    outs := [];
    for i := 0 to |calls|
      invariant fresh(p)
      invariant p.View() == Exec(calls[..i]) && outs == Outcomes(calls[..i])
    {
      var r := p.Dispatch(calls[i]);
      outs := outs + [r];
      ExecSnoc(calls[..i], calls[i]);
      assert calls[..i + 1] == calls[..i] + [calls[i]];
    }
    assert calls[..|calls|] == calls;
  }

  /** The iterator search for the first occurrence. */
  method FindPosition(list: seq<AccountId>, who: AccountId) returns (i: nat)
    ensures i == Position(list, who)
    ensures i == |list| <==> who !in list
  {
    i := 0;
    while i < |list| && list[i] != who
      invariant i <= |list| && who !in list[..i]
    {
      i := i + 1;
    }
    PositionIsFirst(list, who, i);
  }

  lemma PositionIsFirst(list: seq<AccountId>, who: AccountId, i: nat)
    requires i <= |list| && who !in list[..i] && (i < |list| ==> list[i] == who)
    ensures i == Position(list, who)
  {
  }
}
