/** What each call answers and does to records, lists, log and deposit in every reachable state. */
module DeeperNodeEffects {
  import opened Bytes
  import opened DeeperNodeModel
  import opened DeeperNodeLog
  import opened DeeperNodeReserve

  /** All lists but one country's are as they were. */
  ghost predicate OtherListsSame(s: State, t: State, country: U16) {
    forall d: U16 | d != country :: Servers(t, d) == Servers(s, d)
  }

  /** All reserves but one account's are as they were, and that one changed by the given amount. */
  ghost predicate ReserveChanged(s: State, t: State, who: AccountId, change: int) {
    && Reserved(t, who) == Reserved(s, who) + change
    && forall a: AccountId | a != who :: Reserved(t, a) == Reserved(s, a)
  }

  /** All records but one account's are as they were. */
  ghost predicate OtherRecordsSame(s: State, t: State, who: AccountId) {
    forall a: AccountId | a != who ::
      (a in t.devices <==> a in s.devices) && (a in s.devices ==> t.devices[a] == s.devices[a])
  }

  lemma RegisterDeviceEffect(s: State, call: Call)
    requires call.RegisterDeviceCall?
    ensures var r, who := Step(s, call), call.who;
            && (call.reserveOk ==>
                  && r.outcome == Ok
                  && who in r.state.devices && OtherRecordsSame(s, r.state, who)
                  && r.state.devices[who].accountId == who && r.state.devices[who].ipv4 == call.ip
                  && r.state.devices[who].country == call.country
                  && r.state.servers == s.servers && ReserveChanged(s, r.state, who, 100)
                  && r.state.events == s.events + [RegisterNode(who, call.ip, call.country)])
            && (!call.reserveOk ==> r.outcome == Err(ReserveFailed) && r.state == s)
  {
  }

  lemma {:induction false} UnregisterDeviceEffect(calls: seq<Call>, call: Call)
    requires call.UnregisterDeviceCall?
    ensures var s, r, who := Exec(calls), Step(Exec(calls), call), call.who;
            && (who in s.devices ==>
                  var country := s.devices[who].country;
                  var listed := who in Servers(s, country);
                  && r.outcome == Ok
                  && who !in r.state.devices && OtherRecordsSame(s, r.state, who)
                  && Servers(r.state, country) == Without(Servers(s, country), who)
                  && OtherListsSame(s, r.state, country) && ReserveChanged(s, r.state, who, -100)
                  && r.state.events == s.events + (if listed then [ServerRemoved(who, country)] else [])
                                       + [UnregisterNode(who)])
            && (who !in s.devices ==> r.outcome == Err(NotRegistered) && r.state == s)
  {
    var s := Exec(calls);
    if call.who in s.devices {
      RemovalEffect(calls, call.who, s.devices[call.who].country);
      RunAccount(calls, call.who);
    }
  }

  /** The removal both unregistering calls rely on. */
  lemma {:induction false} RemovalEffect(calls: seq<Call>, who: AccountId, country: U16)
    requires who in Exec(calls).devices
    ensures var s, t := Exec(calls), RemoveServer(Exec(calls), who, country);
            && Servers(t, country) == Without(Servers(s, country), who) && OtherListsSame(s, t, country)
            && t.reserved == s.reserved && who in t.devices && OtherRecordsSame(s, t, who)
            && (who in Servers(s, country) ==>
                  && t.events == s.events + [ServerRemoved(who, country)]
                  && t.devices[who] == s.devices[who].(country := 0))
            && (who !in Servers(s, country) ==> t == s)
  {
    var s := Exec(calls);
    AdmitAndRemove(calls, who, country);
    if who in Servers(s, country) {
      ListsAreOrderedSets(calls, country);
      RemovalIsFiltering(Servers(s, country), who);
    } else {
      assert Position(Servers(s, country), who) == |Servers(s, country)|;
    }
  }

  lemma RegisterServerEffect(s: State, call: Call)
    requires call.RegisterServerCall?
    ensures var r, who, list := Step(s, call), call.who, Servers(s, call.country);
            && (who in s.devices ==>
                  && r.outcome == Ok
                  && (who in list ==> r.state == s)
                  && (who !in list ==>
                        && Servers(r.state, call.country) == list + [who]
                        && OtherListsSame(s, r.state, call.country)
                        && who in r.state.devices && OtherRecordsSame(s, r.state, who)
                        && r.state.devices[who] == s.devices[who].(country := call.country)
                        && r.state.reserved == s.reserved
                        && r.state.events == s.events + [ServerAdded(who, call.country)]))
            && (who !in s.devices ==> r.outcome == Err(NotRegistered) && r.state == s)
  {
  }

  lemma {:induction false} UnregisterServerEffect(calls: seq<Call>, call: Call)
    requires call.UnregisterServerCall?
    ensures var s, r, who := Exec(calls), Step(Exec(calls), call), call.who;
            var list := Servers(s, call.country);
            && (who in s.devices ==>
                  && r.outcome == Ok
                  && Servers(r.state, call.country) == Without(list, who)
                  && OtherListsSame(s, r.state, call.country)
                  && who in r.state.devices && OtherRecordsSame(s, r.state, who)
                  && r.state.devices[who]
                     == (if who in list then s.devices[who].(country := 0) else s.devices[who])
                  && r.state.reserved == s.reserved
                  && r.state.events == s.events + if who in list then [ServerRemoved(who, call.country)] else [])
            && (who !in s.devices ==> r.outcome == Err(NotRegistered) && r.state == s)
  {
    if call.who in Exec(calls).devices {
      RemovalEffect(calls, call.who, call.country);
    }
  }
}
