/** The event log is the registry: replaying it rebuilds the records and every list, and says who is listed
    in which order. */
module DeeperNodeLog {
  import opened Bytes
  import opened DeeperNodeModel

  datatype Image = Image(devices: map<AccountId, Node>, servers: map<U16, seq<AccountId>>)

  function Without(list: seq<AccountId>, who: AccountId): seq<AccountId> {
    if list == [] then []
    else if list[0] == who then Without(list[1..], who)
    else [list[0]] + Without(list[1..], who)
  }

  function Listed(m: Image, country: U16): seq<AccountId> {
    if country in m.servers then m.servers[country] else []
  }

  function Recountry(m: Image, who: AccountId, country: U16): map<AccountId, Node> {
    if who in m.devices then m.devices[who := m.devices[who].(country := country)] else m.devices
  }

  function Apply(m: Image, e: Event): Image {
    match e
    case RegisterNode(who, ip, country) => m.(devices := m.devices[who := Node(who, ip, country)])
    case UnregisterNode(who) => m.(devices := m.devices - {who})
    case ServerAdded(who, country) =>
      Image(Recountry(m, who, country), m.servers[country := Listed(m, country) + [who]])
    case ServerRemoved(who, country) =>
      Image(Recountry(m, who, 0), m.servers[country := Without(Listed(m, country), who)])
  }

  function Replay(events: seq<Event>): Image {
    if events == [] then Image(map[], map[]) else Apply(Replay(events[..|events| - 1]), events[|events| - 1])
  }

  ghost predicate NoDuplicates(list: seq<AccountId>) {
    forall i, j :: 0 <= i < j < |list| ==> list[i] != list[j]
  }

  /** The moment (1-based) of the last admission of an account to a list, or 0. */
  function LastAdded(events: seq<Event>, who: AccountId, country: U16): (t: nat)
    ensures t <= |events|
  {
    if events == [] then 0
    else if events[|events| - 1] == ServerAdded(who, country) then |events|
    else LastAdded(events[..|events| - 1], who, country)
  }

  function LastRemoved(events: seq<Event>, who: AccountId, country: U16): (t: nat)
    ensures t <= |events|
  {
    if events == [] then 0
    else if events[|events| - 1] == ServerRemoved(who, country) then |events|
    else LastRemoved(events[..|events| - 1], who, country)
  }

  /** A list holds exactly the accounts admitted since they were last removed, in order of admission. */
  ghost predicate InAdmissionOrder(events: seq<Event>, country: U16, list: seq<AccountId>) {
    && (forall who: AccountId ::
          who in list <==> LastAdded(events, who, country) > LastRemoved(events, who, country))
    && (forall i, j :: 0 <= i < j < |list| ==>
          LastAdded(events, list[i], country) < LastAdded(events, list[j], country))
  }

  ghost predicate Inv(s: State) {
    && Replay(s.events) == Image(s.devices, s.servers)
    && (forall country: U16 :: InAdmissionOrder(s.events, country, Servers(s, country)))
    && (forall who | who in s.devices :: s.devices[who].accountId == who)
  }

  lemma ReplaySnoc(events: seq<Event>, e: Event)
    ensures Replay(events + [e]) == Apply(Replay(events), e)
    ensures forall who, country :: LastAdded(events + [e], who, country)
              == if e == ServerAdded(who, country) then |events| + 1 else LastAdded(events, who, country)
    ensures forall who, country :: LastRemoved(events + [e], who, country)
              == if e == ServerRemoved(who, country) then |events| + 1 else LastRemoved(events, who, country)
  {
    assert (events + [e])[..|events|] == events;
  }

  lemma OrderHasNoDuplicates(events: seq<Event>, country: U16, list: seq<AccountId>)
    requires InAdmissionOrder(events, country, list)
    ensures NoDuplicates(list)
  {
    forall i, j | 0 <= i < j < |list|
      ensures list[i] != list[j]
    {
      assert LastAdded(events, list[i], country) < LastAdded(events, list[j], country);
    }
  }

  lemma {:induction false} WithoutAbsent(list: seq<AccountId>, who: AccountId)
    requires who !in list
    ensures Without(list, who) == list
  {
    if list != [] {
      WithoutAbsent(list[1..], who);
    }
  }

  /** On a duplicate-free list, search and positional removal is filtering. */
  lemma {:induction false} RemovalIsFiltering(list: seq<AccountId>, who: AccountId)
    requires NoDuplicates(list) && who in list
    ensures var i := Position(list, who);
            i < |list| && list[..i] + list[i + 1..] == Without(list, who)
  {
    var i := Position(list, who);
    if list[0] == who {
      assert who !in list[1..];
      WithoutAbsent(list[1..], who);
      assert list[..0] + list[1..] == list[1..];
    } else {
      assert NoDuplicates(list[1..]);
      RemovalIsFiltering(list[1..], who);
      assert list[..i] + list[i + 1..] == [list[0]] + (list[1..][..i - 1] + list[1..][i..]);
    }
  }

  /** Filtering drops every occurrence of the one account and no occurrence of another. */
  lemma {:induction false} WithoutDropsOne(list: seq<AccountId>, who: AccountId)
    ensures who !in Without(list, who)
    ensures forall a :: a in Without(list, who) <==> a in list && a != who
    ensures multiset(Without(list, who)) == multiset(list)[who := 0]
  {
    if list != [] {
      WithoutDropsOne(list[1..], who);
      assert list == [list[0]] + list[1..];
    }
  }

  /** Appending to the log moves no admission or removal of another (account, country). */
  lemma OtherList(events: seq<Event>, e: Event, country: U16, list: seq<AccountId>)
    requires InAdmissionOrder(events, country, list)
    requires (e.ServerAdded? || e.ServerRemoved?) ==> e.country != country
    ensures InAdmissionOrder(events + [e], country, list)
  {
    ReplaySnoc(events, e);
  }

  lemma AddedOrder(events: seq<Event>, who: AccountId, country: U16, list: seq<AccountId>)
    requires InAdmissionOrder(events, country, list) && who !in list
    ensures InAdmissionOrder(events + [ServerAdded(who, country)], country, list + [who])
  {
    ReplaySnoc(events, ServerAdded(who, country));
  }

  /** Taking one element out of a sorted list leaves it sorted. */
  lemma RemovalSorted(events: seq<Event>, country: U16, list: seq<AccountId>, i: nat)
    requires i < |list|
    requires forall a, b :: 0 <= a < b < |list| ==>
               LastAdded(events, list[a], country) < LastAdded(events, list[b], country)
    ensures var rest := list[..i] + list[i + 1..];
            forall a, b :: 0 <= a < b < |rest| ==>
              LastAdded(events, rest[a], country) < LastAdded(events, rest[b], country)
  {
    var rest := list[..i] + list[i + 1..];
    forall a, b | 0 <= a < b < |rest|
      ensures LastAdded(events, rest[a], country) < LastAdded(events, rest[b], country)
    {
      var a', b' := if a < i then a else a + 1, if b < i then b else b + 1;
      assert rest[a] == list[a'] && rest[b] == list[b'];
    }
  }

  lemma RemovedOrder(events: seq<Event>, who: AccountId, country: U16, list: seq<AccountId>, i: nat)
    requires InAdmissionOrder(events, country, list) && i < |list| && list[i] == who
    ensures InAdmissionOrder(events + [ServerRemoved(who, country)], country, list[..i] + list[i + 1..])
  {
    ReplaySnoc(events, ServerRemoved(who, country));
    OrderHasNoDuplicates(events, country, list);
    RemovalMembers(list, i);
    RemovalSorted(events, country, list, i);
  }

  lemma RemovalMembers(list: seq<AccountId>, i: nat)
    requires NoDuplicates(list) && i < |list|
    ensures forall who: AccountId :: who in list[..i] + list[i + 1..] <==> who in list && who != list[i]
  {
    assert list == list[..i] + [list[i]] + list[i + 1..];
  }

  /** A step that logs `e` and writes at most one country's list keeps all others in admission order. */
  lemma OtherLists(s: State, t: State, e: Event, country: U16)
    requires Inv(s) && t.events == s.events + [e]
    requires (e.ServerAdded? || e.ServerRemoved?) && e.country == country
    requires forall d: U16 | d != country :: Servers(t, d) == Servers(s, d)
    ensures forall d: U16 | d != country :: InAdmissionOrder(t.events, d, Servers(t, d))
  {
    forall d: U16 | d != country
      ensures InAdmissionOrder(t.events, d, Servers(t, d))
    {
      assert InAdmissionOrder(s.events, d, Servers(s, d));
      OtherList(s.events, e, d, Servers(s, d));
    }
  }

  lemma AddKeeps(s: State, who: AccountId, country: U16)
    requires Inv(s) && who in s.devices
    ensures Inv(AddServer(s, who, country))
  {
    var t := AddServer(s, who, country);
    var list := Servers(s, country);
    if who !in list {
      var e := ServerAdded(who, country);
      ReplaySnoc(s.events, e);
      assert InAdmissionOrder(s.events, country, list);
      AddedOrder(s.events, who, country, list);
      OtherLists(s, t, e, country);
    }
  }

  lemma RemovalReplayed(s: State, who: AccountId, country: U16)
    requires Replay(s.events) == Image(s.devices, s.servers) && who in s.devices
    requires who in Servers(s, country) && NoDuplicates(Servers(s, country))
    ensures var t := RemoveServer(s, who, country);
            t.events == s.events + [ServerRemoved(who, country)] && Replay(t.events) == Image(t.devices, t.servers)
  {
    ReplaySnoc(s.events, ServerRemoved(who, country));
    RemovalIsFiltering(Servers(s, country), who);
  }

  lemma RemoveKeeps(s: State, who: AccountId, country: U16)
    requires Inv(s) && who in s.devices
    ensures Inv(RemoveServer(s, who, country))
  {
    var t := RemoveServer(s, who, country);
    var list := Servers(s, country);
    var i := Position(list, who);
    if i < |list| {
      assert InAdmissionOrder(s.events, country, list);
      OrderHasNoDuplicates(s.events, country, list);
      RemovalReplayed(s, who, country);
      RemovedOrder(s.events, who, country, list, i);
      OtherLists(s, t, ServerRemoved(who, country), country);
    }
  }

  lemma DeviceEventKeeps(s: State, t: State, e: Event)
    requires Inv(s) && (e.RegisterNode? || e.UnregisterNode?)
    requires t.events == s.events + [e] && t.servers == s.servers
    requires t.devices == Apply(Image(s.devices, s.servers), e).devices
    ensures Inv(t)
  {
    ReplaySnoc(s.events, e);
    forall d: U16
      ensures InAdmissionOrder(t.events, d, Servers(t, d))
    {
      assert InAdmissionOrder(s.events, d, Servers(s, d));
      OtherList(s.events, e, d, Servers(s, d));
    }
  }

  lemma StepKeeps(s: State, call: Call)
    requires Inv(s)
    ensures Inv(Step(s, call).state)
  {
    var t := Step(s, call).state;
    match call
    case RegisterDeviceCall(who, ip, country, reserveOk) =>
      if reserveOk {
        DeviceEventKeeps(s, t, RegisterNode(who, ip, country));
      }
    case UnregisterDeviceCall(who) =>
      if who in s.devices {
        var u := RemoveServer(s, who, s.devices[who].country);
        RemoveKeeps(s, who, s.devices[who].country);
        DeviceEventKeeps(u, t, UnregisterNode(who));
      }
    case RegisterServerCall(who, country) =>
      if who in s.devices {
        AddKeeps(s, who, country);
      }
    case UnregisterServerCall(who, country) =>
      if who in s.devices {
        RemoveKeeps(s, who, country);
      }
  }

  lemma {:induction false} RunInv(calls: seq<Call>)
    ensures Inv(Exec(calls))
  {
    if calls != [] {
      RunInv(calls[..|calls| - 1]);
      StepKeeps(Exec(calls[..|calls| - 1]), calls[|calls| - 1]);
    }
  }

  /** Over every run, replaying the log rebuilds the device records and every list, order included. */
  // The run is not taken apart here: the attribute keeps the prover from trying induction on it.
  lemma {:induction false} EventSourced(calls: seq<Call>)
    ensures Replay(Exec(calls).events) == Image(Exec(calls).devices, Exec(calls).servers)
  {
    RunInv(calls);
  }

  /** Over every run, each list is duplicate-free and holds exactly the accounts admitted since their last
      removal, in order of their latest admission. */
  // The run is not taken apart here: the attribute keeps the prover from trying induction on it.
  lemma {:induction false} ListsAreOrderedSets(calls: seq<Call>, country: U16)
    ensures NoDuplicates(Servers(Exec(calls), country))
    ensures InAdmissionOrder(Exec(calls).events, country, Servers(Exec(calls), country))
  {
    RunInv(calls);
    OrderHasNoDuplicates(Exec(calls).events, country, Servers(Exec(calls), country));
  }

  /** That description leaves no choice: two lists in admission order of one log are equal. */
  lemma {:induction false} AdmissionOrderUnique(events: seq<Event>, country: U16,
                                               xs: seq<AccountId>, ys: seq<AccountId>)
    requires forall i, j :: 0 <= i < j < |xs| ==>
               LastAdded(events, xs[i], country) < LastAdded(events, xs[j], country)
    requires forall i, j :: 0 <= i < j < |ys| ==>
               LastAdded(events, ys[i], country) < LastAdded(events, ys[j], country)
    requires forall who: AccountId :: who in xs <==> who in ys
    ensures xs == ys
  {
    assert xs != [] ==> xs[0] in xs;
    assert ys != [] ==> ys[0] in ys;
    if xs != [] {
      SameHead(events, country, xs, ys);
      var front, back := xs[1..], ys[1..];
      assert xs == [xs[0]] + front && ys == [ys[0]] + back;
      forall who: AccountId
        ensures who in front <==> who in back
      {
        assert who in front <==> who in xs && who != xs[0];
        assert who in back <==> who in ys && who != ys[0];
      }
      AdmissionOrderUnique(events, country, front, back);
    }
  }

  lemma SameHead(events: seq<Event>, country: U16, xs: seq<AccountId>, ys: seq<AccountId>)
    requires xs != [] && ys != []
    requires forall i, j :: 0 <= i < j < |xs| ==>
               LastAdded(events, xs[i], country) < LastAdded(events, xs[j], country)
    requires forall i, j :: 0 <= i < j < |ys| ==>
               LastAdded(events, ys[i], country) < LastAdded(events, ys[j], country)
    requires forall who: AccountId :: who in xs <==> who in ys
    ensures xs[0] == ys[0]
  {
    assert xs[0] in ys && ys[0] in xs;
    var i :| 0 <= i < |xs| && xs[i] == ys[0];
    var j :| 0 <= j < |ys| && ys[j] == xs[0];
  }

  /** In every reachable state: admitting a listed account changes nothing; admitting another appends it;
      removing a listed account takes out exactly it, and the rest keeps its order. */
  // The run is not taken apart here: the attribute keeps the prover from trying induction on it.
  lemma {:induction false} AdmitAndRemove(calls: seq<Call>, who: AccountId, country: U16)
    ensures var s := Exec(calls);
            var list := Servers(s, country);
            && (who in list ==> AddServer(s, who, country) == s)
            && (who !in list ==> Servers(AddServer(s, who, country), country) == list + [who])
            && AddServer(AddServer(s, who, country), who, country) == AddServer(s, who, country)
            && Servers(RemoveServer(s, who, country), country) == Without(list, who)
            && forall d: U16 | d != country ::
                 Servers(AddServer(s, who, country), d) == Servers(s, d)
                 && Servers(RemoveServer(s, who, country), d) == Servers(s, d)
  {
    var s := Exec(calls);
    ListsAreOrderedSets(calls, country);
    if who in Servers(s, country) {
      RemovalIsFiltering(Servers(s, country), who);
    } else {
      WithoutAbsent(Servers(s, country), who);
      assert Position(Servers(s, country), who) == |Servers(s, country)|;
    }
  }
}
