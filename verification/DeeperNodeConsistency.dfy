/** When the lists and the device records agree, and exactly which calls keep them agreeing. */
module DeeperNodeConsistency {
  import opened Bytes
  import opened DeeperNodeModel
  import opened DeeperNodeLog

  /** Every listed server is a registered device whose record names that list's country. */
  ghost predicate Consistent(s: State) {
    forall country: U16, who: AccountId | who in Servers(s, country) ::
      who in s.devices && s.devices[who].country == country
  }

  /** The account is on no list, except possibly the given country's. */
  ghost predicate OnNoOtherList(s: State, who: AccountId, country: U16) {
    forall d: U16 | d != country :: who !in Servers(s, d)
  }

  /** A guard to check before the call: an account about to register its device, again or for the first
      time, or to enter a list, is on no list of another country. Leaving is always allowed. */
  ghost predicate Disciplined(s: State, call: Call) {
    match call
    case RegisterDeviceCall(who, _, country, _) => OnNoOtherList(s, who, country)
    case RegisterServerCall(who, country) => OnNoOtherList(s, who, country)
    case UnregisterDeviceCall(_) => true
    case UnregisterServerCall(_, _) => true
  }

  /** In a consistent state nobody is on two lists. */
  lemma AtMostOneList(s: State, who: AccountId, c: U16, d: U16)
    requires Consistent(s) && who in Servers(s, c) && who in Servers(s, d)
    ensures c == d
  {
    assert s.devices[who].country == c;
    assert s.devices[who].country == d;
  }

  lemma RegisterDeviceIff(s: State, who: AccountId, ip: seq<Byte>, country: U16)
    requires Consistent(s)
    ensures Consistent(RegisterDevice(s, who, ip, country, true).state) <==> OnNoOtherList(s, who, country)
  {
    var t := RegisterDevice(s, who, ip, country, true).state;
    assert forall d: U16 :: Servers(t, d) == Servers(s, d);
    if !OnNoOtherList(s, who, country) {
      var d: U16 :| d != country && who in Servers(s, d);
      assert who in Servers(t, d) && t.devices[who].country == country;
    }
  }

  lemma RegisterServerIff(s: State, who: AccountId, country: U16)
    requires Consistent(s)
    ensures Consistent(RegisterServer(s, who, country).state) <==> OnNoOtherList(s, who, country)
  {
    var t := RegisterServer(s, who, country).state;
    if !OnNoOtherList(s, who, country) {
      var d: U16 :| d != country && who in Servers(s, d);
      assert who !in Servers(s, country);
      assert who in Servers(t, d) && t.devices[who].country == country;
    } else {
      forall d: U16, a: AccountId | a in Servers(t, d)
        ensures a in t.devices && t.devices[a].country == d
      {
        assert a in Servers(s, d) || (d == country && a == who);
      }
    }
  }

  lemma RemovedConsistent(s: State, who: AccountId, country: U16)
    requires Consistent(s) && who in s.devices && NoDuplicates(Servers(s, country))
    ensures Consistent(RemoveServer(s, who, country))
    ensures who !in Servers(RemoveServer(s, who, country), country)
  {
    var t := RemoveServer(s, who, country);
    var list := Servers(s, country);
    var i := Position(list, who);
    if i < |list| {
      RemovalMembers(list, i);
      assert forall d: U16 :: d != country ==> Servers(t, d) == Servers(s, d);
    } else {
      assert list[..i] == list;
    }
  }

  lemma UnregisterDeviceConsistent(s: State, who: AccountId)
    requires Consistent(s) && who in s.devices && NoDuplicates(Servers(s, s.devices[who].country))
    ensures Consistent(UnregisterDevice(s, who).state)
  {
    var country := s.devices[who].country;
    var u, t := RemoveServer(s, who, country), UnregisterDevice(s, who).state;
    RemovedConsistent(s, who, country);
    forall d: U16, a: AccountId | a in Servers(t, d)
      ensures a in t.devices && t.devices[a].country == d
    {
      assert Servers(t, d) == Servers(u, d);
      assert d != country ==> Servers(u, d) == Servers(s, d);
    }
  }

  /** The exact condition, all on what is known before the call: it keeps a consistent reachable state
      consistent if and only if it is disciplined, or is a registration the currency cannot reserve for. */
  lemma ConsistentIff(calls: seq<Call>, call: Call)
    requires Consistent(Exec(calls))
    ensures Consistent(Step(Exec(calls), call).state)
       <==> Disciplined(Exec(calls), call) || (call.RegisterDeviceCall? && !call.reserveOk)
  {
    var s := Exec(calls);
    match call
    case RegisterDeviceCall(who, ip, country, reserveOk) =>
      if reserveOk {
        RegisterDeviceIff(s, who, ip, country);
      }
    case UnregisterDeviceCall(who) =>
      if who in s.devices {
        ListsAreOrderedSets(calls, s.devices[who].country);
        UnregisterDeviceConsistent(s, who);
      }
    case RegisterServerCall(who, country) =>
      RegisterServerIff(s, who, country);
    case UnregisterServerCall(who, country) =>
      if who in s.devices {
        ListsAreOrderedSets(calls, country);
        RemovedConsistent(s, who, country);
      }
  }

  /** Every call of the run was disciplined in the state it met. */
  ghost predicate DisciplinedRun(calls: seq<Call>) {
    calls == []
    || (DisciplinedRun(calls[..|calls| - 1]) && Disciplined(Exec(calls[..|calls| - 1]), calls[|calls| - 1]))
  }

  /** Under the discipline, after every run each listed server is a registered device whose country is that
      list's country, and so is on one list only. */
  lemma {:induction false} RunConsistent(calls: seq<Call>)
    requires DisciplinedRun(calls)
    ensures Consistent(Exec(calls))
    ensures forall who: AccountId, c: U16, d: U16 | who in Servers(Exec(calls), c) && who in Servers(Exec(calls), d) ::
              c == d
  {
    if calls != [] {
      RunConsistent(calls[..|calls| - 1]);
      ConsistentIff(calls[..|calls| - 1], calls[|calls| - 1]);
    }
    forall who: AccountId, c: U16, d: U16 | who in Servers(Exec(calls), c) && who in Servers(Exec(calls), d)
      ensures c == d
    {
      AtMostOneList(Exec(calls), who, c, d);
    }
  }

  /** Entering a list appends to it, touches no other list, and renames the record's country. */
  lemma Entered(s: State, who: AccountId, c: U16, d: U16)
    requires who in s.devices && who !in Servers(s, c) && c != d
    ensures var r := RegisterServer(s, who, c);
            && r.outcome == Ok
            && Servers(r.state, c) == Servers(s, c) + [who] && Servers(r.state, d) == Servers(s, d)
            && who in r.state.devices && r.state.devices[who].country == c
  {
  }

  /** Without the discipline an account can be listed twice: after any run that leaves it off two lists, it
      can register its device and enter both. */
  lemma TwoListsReachable(calls: seq<Call>, who: AccountId, c: U16, d: U16)
    requires c != d && who !in Servers(Exec(calls), c) && who !in Servers(Exec(calls), d)
    ensures var s := Exec(calls + [RegisterDeviceCall(who, [], c, true)] + [RegisterServerCall(who, c)]
                          + [RegisterServerCall(who, d)]);
            who in Servers(s, c) && who in Servers(s, d) && !Consistent(s)
  {
    var first := calls + [RegisterDeviceCall(who, [], c, true)];
    var second := first + [RegisterServerCall(who, c)];
    ExecSnoc(calls, RegisterDeviceCall(who, [], c, true));
    ExecSnoc(first, RegisterServerCall(who, c));
    ExecSnoc(second, RegisterServerCall(who, d));
    assert Servers(Exec(first), c) == Servers(Exec(calls), c) && Servers(Exec(first), d) == Servers(Exec(calls), d);
    Entered(Exec(first), who, c, d);
    Entered(Exec(second), who, d, c);
  }

  /** Registering again under another country breaks the agreement too: after any run that leaves an account
      off two lists, it can register, enter one country's list, and register for the other country. */
  lemma StaleCountryReachable(calls: seq<Call>, who: AccountId, c: U16, d: U16)
    requires c != d && who !in Servers(Exec(calls), c) && who !in Servers(Exec(calls), d)
    ensures var s := Exec(calls + [RegisterDeviceCall(who, [], c, true)] + [RegisterServerCall(who, c)]
                          + [RegisterDeviceCall(who, [], d, true)]);
            who in Servers(s, c) && who in s.devices && s.devices[who].country == d && !Consistent(s)
  {
    var first := calls + [RegisterDeviceCall(who, [], c, true)];
    var second := first + [RegisterServerCall(who, c)];
    ExecSnoc(calls, RegisterDeviceCall(who, [], c, true));
    ExecSnoc(first, RegisterServerCall(who, c));
    ExecSnoc(second, RegisterDeviceCall(who, [], d, true));
    assert Servers(Exec(first), c) == Servers(Exec(calls), c);
    Entered(Exec(first), who, c, d);
    var s := Exec(second + [RegisterDeviceCall(who, [], d, true)]);
    assert Servers(s, c) == Servers(Exec(second), c);
  }
}
