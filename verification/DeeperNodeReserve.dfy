/** The deposit behind every registration. */
module DeeperNodeReserve {
  import opened Bytes
  import opened DeeperNodeModel

  function Registrations(events: seq<Event>, who: AccountId): nat {
    if events == [] then 0
    else
      var e := events[|events| - 1];
      Registrations(events[..|events| - 1], who) + if e.RegisterNode? && e.who == who then 1 else 0
  }

  function Unregistrations(events: seq<Event>, who: AccountId): nat {
    if events == [] then 0
    else Unregistrations(events[..|events| - 1], who) + if events[|events| - 1] == UnregisterNode(who) then 1 else 0
  }

  /** Whether the log leaves the account registered. */
  predicate Registered(events: seq<Event>, who: AccountId) {
    events != [] &&
    var before, e := events[..|events| - 1], events[|events| - 1];
    if e.RegisterNode? && e.who == who then true
    else if e == UnregisterNode(who) then false
    else Registered(before, who)
  }

  /** How often the account registered while it was already registered. */
  function Reregistrations(events: seq<Event>, who: AccountId): nat {
    if events == [] then 0
    else
      var before, e := events[..|events| - 1], events[|events| - 1];
      Reregistrations(before, who) + if e.RegisterNode? && e.who == who && Registered(before, who) then 1 else 0
  }

  ghost predicate AccountInv(s: State, who: AccountId) {
    && (who in s.devices <==> Registered(s.events, who))
    && Registrations(s.events, who) == Unregistrations(s.events, who)
         + Reregistrations(s.events, who) + (if who in s.devices then 1 else 0)
    && Reserved(s, who) == MIN_LOCK_AMT * (Registrations(s.events, who) - Unregistrations(s.events, who))
  }

  lemma CountsSnoc(events: seq<Event>, e: Event, who: AccountId)
    ensures Registrations(events + [e], who)
         == Registrations(events, who) + if e.RegisterNode? && e.who == who then 1 else 0
    ensures Unregistrations(events + [e], who)
         == Unregistrations(events, who) + if e == UnregisterNode(who) then 1 else 0
    ensures Registered(events + [e], who)
         == if e.RegisterNode? && e.who == who then true
            else if e == UnregisterNode(who) then false else Registered(events, who)
    ensures Reregistrations(events + [e], who)
         == Reregistrations(events, who)
            + if e.RegisterNode? && e.who == who && Registered(events, who) then 1 else 0
  {
    assert (events + [e])[..|events|] == events;
  }

  /** Entering or leaving a list touches neither registrations nor deposits. */
  lemma ListingKeeps(s: State, t: State, who: AccountId)
    requires AccountInv(s, who) && t.devices.Keys == s.devices.Keys && t.reserved == s.reserved
    requires t.events == s.events
             || (|t.events| == |s.events| + 1 && t.events == s.events + [t.events[|s.events|]]
                 && (t.events[|s.events|].ServerAdded? || t.events[|s.events|].ServerRemoved?))
    ensures AccountInv(t, who)
  {
    if t.events != s.events {
      CountsSnoc(s.events, t.events[|s.events|], who);
    }
  }

  lemma RegisterKeeps(s: State, origin: AccountId, ip: seq<Byte>, country: U16, who: AccountId)
    requires AccountInv(s, who)
    ensures AccountInv(RegisterDevice(s, origin, ip, country, true).state, who)
  {
    CountsSnoc(s.events, RegisterNode(origin, ip, country), who);
    var t := RegisterDevice(s, origin, ip, country, true).state;
    assert t.events == s.events + [RegisterNode(origin, ip, country)];
    assert Reserved(t, who) == Reserved(s, who) + if who == origin then 100 else 0;
    assert who in t.devices <==> who == origin || who in s.devices;
  }

  /** Unregistering, once the account is off its list. */
  lemma UnregisterKeeps(s: State, t: State, origin: AccountId, who: AccountId)
    requires AccountInv(s, who) && origin in s.devices
    requires t == Unreserve(s, origin).(devices := s.devices - {origin}, events := s.events + [UnregisterNode(origin)])
    ensures AccountInv(t, who)
  {
    CountsSnoc(s.events, UnregisterNode(origin), who);
    assert who == origin ==> Reserved(s, who) >= 100;
    assert Reserved(t, who) == Reserved(s, who) - if who == origin then 100 else 0;
    assert who in t.devices <==> who != origin && who in s.devices;
  }

  lemma StepKeeps(s: State, call: Call, who: AccountId)
    requires AccountInv(s, who)
    ensures AccountInv(Step(s, call).state, who)
  {
    var t := Step(s, call).state;
    match call
    case RegisterDeviceCall(origin, ip, country, reserveOk) =>
      if reserveOk {
        RegisterKeeps(s, origin, ip, country, who);
      }
    case UnregisterDeviceCall(origin) =>
      if origin in s.devices {
        var u := RemoveServer(s, origin, s.devices[origin].country);
        ListingKeeps(s, u, who);
        UnregisterKeeps(u, t, origin, who);
      }
    case RegisterServerCall(origin, country) => ListingKeeps(s, t, who);
    case UnregisterServerCall(origin, country) => ListingKeeps(s, t, who);
  }

  lemma {:induction false} RunAccount(calls: seq<Call>, who: AccountId)
    ensures AccountInv(Exec(calls), who)
  {
    if calls != [] {
      RunAccount(calls[..|calls| - 1], who);
      StepKeeps(Exec(calls[..|calls| - 1]), calls[|calls| - 1], who);
    }
  }

  /** Over every run: the reserve is 100 times (registrations minus unregistrations); it covers the deposit
      while the account is registered; and what it holds beyond that deposit, also after unregistering, is
      100 for each registration made while already registered. */
  // The run is not taken apart here: the attribute keeps the prover from trying induction on it.
  lemma {:induction false} ReserveAccounting(calls: seq<Call>, who: AccountId)
    ensures var s := Exec(calls);
            && Reserved(s, who) == 100 * (Registrations(s.events, who) - Unregistrations(s.events, who))
            && (who in s.devices ==> Reserved(s, who) >= 100)
            && Reserved(s, who)
                 == 100 * ((if who in s.devices then 1 else 0) + Reregistrations(s.events, who))
  {
    RunAccount(calls, who);
  }

  /** Every unregistration finds and frees its full deposit. */
  lemma UnreserveFindsAll(calls: seq<Call>, who: AccountId)
    requires who in Exec(calls).devices
    ensures Reserved(UnregisterDevice(Exec(calls), who).state, who) + 100 == Reserved(Exec(calls), who)
  {
    RunAccount(calls, who);
  }

  /** Nothing stays locked after unregistering if and only if the account never registered twice in a row. */
  lemma NothingLeftLockedIff(calls: seq<Call>, who: AccountId)
    requires who !in Exec(calls).devices
    ensures Reserved(Exec(calls), who) == 0 <==> Reregistrations(Exec(calls).events, who) == 0
  {
    RunAccount(calls, who);
  }

  /** The deposit left behind: after any run that leaves an account unregistered, registering twice and
      unregistering ends unregistered with 100 more in reserve, out of reach. */
  lemma DepositLeftLocked(calls: seq<Call>, who: AccountId, ip: seq<Byte>, country: U16)
    requires who !in Exec(calls).devices
    ensures var s := Exec(calls + [RegisterDeviceCall(who, ip, country, true)]
                          + [RegisterDeviceCall(who, ip, country, true)] + [UnregisterDeviceCall(who)]);
            && who !in s.devices && Reregistrations(s.events, who) > 0
            && Reserved(s, who) == Reserved(Exec(calls), who) + 100
  {
    var register := RegisterDeviceCall(who, ip, country, true);
    var first := calls + [register];
    var second := first + [register];
    var third := second + [UnregisterDeviceCall(who)];
    ExecSnoc(calls, register);
    ExecSnoc(first, register);
    ExecSnoc(second, UnregisterDeviceCall(who));
    UnreserveFindsAll(second, who);
    assert Reserved(Exec(second), who) == Reserved(Exec(calls), who) + 2 * MIN_LOCK_AMT;
    RunAccount(third, who);
  }
}
