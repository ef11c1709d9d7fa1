/**
 * The connections of one service: a map of client handles for the user, and a bag of handles that are
 * polled. The two sides of a connection share a flag and an event by reference.
 */
module ServiceTable {
  import opened EventQueue
  import opened Reconnect
  import ServicePermissions

  /** The shared `AtomicBool`. */
  class Flag {
    var value: bool

    constructor (value: bool)
      ensures this.value == value
    {
      this.value := value;
    }
  }

  /** What the user holds. Clones share the references. */
  datatype Client = Client(name: string, event: Event<Notice>, outgoing: Flag)

  /** What the service polls. */
  datatype Handle = Handle(name: string, event: Event<Notice>, outgoing: Flag, wait: bool)

  function ClientOf(h: Handle): Client {
    Client(h.name, h.event, h.outgoing)
  }

  /**
   * The map and the polled handles agree: one handle for each name in the map and none besides, the two
   * sides of a connection share their cells, and two connections share nothing.
   */
  ghost predicate Agree(m: map<string, Client>, hs: seq<Handle>) {
    && (forall i :: 0 <= i < |hs| ==> hs[i].name in m && m[hs[i].name] == ClientOf(hs[i]))
    && (forall n :: n in m ==> exists i :: 0 <= i < |hs| && hs[i].name == n)
    && (forall i, j :: 0 <= i < j < |hs| ==>
          hs[i].name != hs[j].name && hs[i].event != hs[j].event && hs[i].outgoing != hs[j].outgoing)
  }

  function Names(hs: seq<Handle>): (r: seq<string>)
    ensures |r| == |hs| && forall i :: 0 <= i < |hs| ==> r[i] == hs[i].name
  {
    seq(|hs|, i requires 0 <= i < |hs| => hs[i].name)
  }

  /** Agreement means: the polled names are duplicate-free and are the keys of the map. */
  lemma AgreementOfNames(m: map<string, Client>, hs: seq<Handle>)
    requires Agree(m, hs)
    ensures forall i, j :: 0 <= i < j < |hs| ==> Names(hs)[i] != Names(hs)[j]
    ensures forall n :: n in m <==> n in Names(hs)
    ensures |hs| == |m|
  {
    forall n ensures n in m <==> n in Names(hs) {
      if n in m {
        var i :| 0 <= i < |hs| && hs[i].name == n;
        assert Names(hs)[i] == n;
      }
    }
    SameSize(Names(hs), m.Keys);
  }

  lemma {:induction false} SameSize(names: seq<string>, keys: set<string>)
    requires forall i, j :: 0 <= i < j < |names| ==> names[i] != names[j]
    requires forall n :: n in keys <==> n in names
    ensures |names| == |keys|
  {
    if names != [] {
      var k := |names| - 1;
      SameSize(names[..k], keys - {names[k]});
    } else {
      assert keys == {};
    }
  }

  lemma AgreeInsert(m: map<string, Client>, hs: seq<Handle>, h: Handle)
    requires Agree(m, hs) && h.name !in m
    requires forall i :: 0 <= i < |hs| ==> hs[i].event != h.event && hs[i].outgoing != h.outgoing
    ensures Agree(m[h.name := ClientOf(h)], hs + [h])
  {
    var m', hs' := m[h.name := ClientOf(h)], hs + [h];
    forall n | n in m' ensures exists i :: 0 <= i < |hs'| && hs'[i].name == n {
      if n == h.name {
        assert hs'[|hs|].name == n;
      } else {
        var i :| 0 <= i < |hs| && hs[i].name == n;
        assert hs'[i].name == n;
      }
    }
  }

  function Without(hs: seq<Handle>, i: nat): seq<Handle>
    requires i < |hs|
  {
    hs[..i] + hs[i + 1..]
  }

  /** Where the handle at `j` of the shorter bag was before. */
  function Before(i: nat, j: nat): nat {
    if j < i then j else j + 1
  }

  lemma WithoutAt(hs: seq<Handle>, i: nat)
    requires i < |hs|
    ensures |Without(hs, i)| == |hs| - 1
    ensures forall j :: 0 <= j < |hs| - 1 ==> Without(hs, i)[j] == hs[Before(i, j)]
    ensures forall h :: h in Without(hs, i) ==> h in hs
  {
  }

  /** The handles that are left are those of the names that are left. */
  lemma NamesWithout(m: map<string, Client>, hs: seq<Handle>, i: nat)
    requires Agree(m, hs) && i < |hs|
    ensures forall n :: n in m && n != hs[i].name ==>
      exists j :: 0 <= j < |Without(hs, i)| && Without(hs, i)[j].name == n
  {
    WithoutAt(hs, i);
    forall n | n in m && n != hs[i].name
      ensures exists j :: 0 <= j < |Without(hs, i)| && Without(hs, i)[j].name == n
    {
      var j :| 0 <= j < |hs| && hs[j].name == n;
      assert Without(hs, i)[if j < i then j else j - 1].name == n;
    }
  }

  lemma AgreeRemove(m: map<string, Client>, hs: seq<Handle>, i: nat)
    requires Agree(m, hs) && i < |hs|
    ensures Agree(m - {hs[i].name}, Without(hs, i))
  {
    var left := Without(hs, i);
    WithoutAt(hs, i);
    NamesWithout(m, hs, i);
    forall j | 0 <= j < |left| ensures left[j] == hs[Before(i, j)] && left[j].name != hs[i].name {}
    AgreeWithin(m, hs, left, hs[i].name);
  }

  /** Some of the handles, in their order, agree with a map of just their names. */
  lemma AgreeWithin(m: map<string, Client>, hs: seq<Handle>, left: seq<Handle>, gone: string)
    requires Agree(m, hs)
    requires forall j :: 0 <= j < |left| ==> left[j] in hs && left[j].name != gone
    requires forall j, k :: 0 <= j < k < |left| ==> left[j] != left[k]
    requires forall n :: n in m && n != gone ==> exists j :: 0 <= j < |left| && left[j].name == n
    ensures Agree(m - {gone}, left)
  {
  }

  lemma AgreeRotate(m: map<string, Client>, hs: seq<Handle>, i: nat)
    requires Agree(m, hs) && i < |hs|
    ensures Agree(m, Without(hs, i) + [hs[i]])
  {
    AgreeRemove(m, hs, i);
    AgreeInsert(m - {hs[i].name}, Without(hs, i), hs[i]);
    assert (m - {hs[i].name})[hs[i].name := ClientOf(hs[i])] == m;
  }

  /** A polled handle uses the flag of the client of its own name, and no other. */
  lemma FlagsByName(m: map<string, Client>, hs: seq<Handle>, name: string)
    requires Agree(m, hs) && name in m
    ensures forall h :: h in hs ==> (h.outgoing == m[name].outgoing <==> h.name == name)
    ensures exists h :: h in hs && h.outgoing == m[name].outgoing
  {
    var i :| 0 <= i < |hs| && hs[i].name == name;
    assert hs[i] in hs;
  }

  /** A connection that was not given up. */
  ghost predicate Live(h: Handle)
    reads h.event
  {
    h.event.Valid() && GoodHistory(h.event.emitted, true)
  }

  /** What one turn of polling brings. `Quiet` is the hub's own reconnection, or the end of the service. */
  datatype PollEvent =
    | Message(i: nat)
    | Loss(i: nat, replies: seq<HubReply>)
    | Incoming(name: string)
    | Quiet

  /** What returns first while a service connects: the hub with its final reply, or its own polling. */
  datatype FirstToReturn = HubSays(replies: seq<HubReply>) | OwnPoll(event: PollEvent)

  /** `Panicked` is where `connect_impl` does not go on. */
  datatype Connection = Made(client: Client) | NotMade | Panicked

  class Service {
    const monitorFeature: bool
    var clientMap: map<string, Client>
    var pollHandles: seq<Handle>

    /** The cells that some connection in the table uses. */
    ghost function Cells(): set<object>
      reads this
    {
      (set h | h in pollHandles :: h.event as object) + (set h | h in pollHandles :: h.outgoing as object)
    }

    /** The table agrees, and no connection that is still polled was given up. */
    ghost predicate Valid()
      reads this, Cells()
    {
      && Agree(clientMap, pollHandles)
      && forall h :: h in pollHandles ==> Live(h)
    }

    constructor (monitorFeature: bool)
      ensures Valid() && clientMap == map[] && pollHandles == []
      ensures this.monitorFeature == monitorFeature
    {
      this.monitorFeature := monitorFeature;
      clientMap, pollHandles := map[], [];
    }

    /** `make_outgoing` on the client of a name. */
    method MakeClientOutgoing(name: string)
      requires Valid() && name in clientMap
      modifies Cells()
      ensures Valid() && clientMap[name].outgoing.value
      ensures forall h :: h in pollHandles ==>
        && h.event.emitted == old(h.event.emitted) && h.event.taken == old(h.event.taken)
        && h.outgoing.value == (old(h.outgoing.value) || h.name == name)
    {
      FlagsByName(clientMap, pollHandles, name);
      clientMap[name].outgoing.value := true;
    }

    /** A new connection: one handle to poll, one client for the map, sharing new cells. */
    method Adopt(name: string, outgoing: bool, wait: bool) returns (client: Client)
      requires Valid() && name !in clientMap
      modifies this
      ensures Valid()
      ensures clientMap == old(clientMap)[name := client]
      ensures pollHandles == old(pollHandles) + [Handle(name, client.event, client.outgoing, wait)]
      ensures fresh(client.event) && fresh(client.outgoing)
      ensures client.outgoing.value == outgoing && client.event.emitted == []
    {
      var event := new Event<Notice>();
      var flag := new Flag(outgoing);
      client := Insert(Handle(name, event, flag, wait));
    }

    /** A handle with cells of its own is scheduled, and its client goes into the map. */
    method Insert(handle: Handle) returns (client: Client)
      requires Valid() && handle.name !in clientMap && Live(handle)
      requires handle.event !in Cells() && handle.outgoing !in Cells()
      modifies this
      ensures Valid() && client == ClientOf(handle)
      ensures clientMap == old(clientMap)[handle.name := client] && pollHandles == old(pollHandles) + [handle]
    {
      client := ClientOf(handle);
      AgreeInsert(clientMap, pollHandles, handle);
      pollHandles := pollHandles + [handle];
      clientMap := clientMap[handle.name := client];
    }

    ghost predicate Ready(event: PollEvent)
      reads this, Cells()
    {
      match event
      case Message(i) => i < |pollHandles|
      case Loss(i, replies) => i < |pollHandles| && (pollHandles[i].outgoing.value ==> Conclusive(replies))
      case _ => true
    }

    /** The connection that is lost is an outgoing one. */
    ghost predicate Flagged(event: PollEvent)
      reads this, Cells()
    {
      event.Loss? && event.i < |pollHandles| && pollHandles[event.i].outgoing.value
    }

    /** The table is what a turn of polling makes of `m` and `hs`. */
    ghost predicate Turned(event: PollEvent, flagged: bool, m: map<string, Client>, hs: seq<Handle>)
      reads this
    {
      match event
      case Message(i) => i < |hs| && clientMap == m && pollHandles == Without(hs, i) + [hs[i]]
      case Loss(i, replies) =>
        if flagged && Connected in replies then clientMap == m && pollHandles == hs
        else i < |hs| && clientMap == m - {hs[i].name} && pollHandles == Without(hs, i)
      case Incoming(name) =>
        if name in m || (monitorFeature && name == "krossbar.monitor") then clientMap == m && pollHandles == hs
        else
          && name in clientMap && clientMap == m[name := clientMap[name]]
          && pollHandles == hs + [Handle(name, clientMap[name].event, clientMap[name].outgoing, false)]
      case Quiet => clientMap == m && pollHandles == hs
    }

    /** One turn of polling: a message, a loss or a new connection, each with its effect on the table. */
    method Poll(event: PollEvent)
      requires Valid() && Ready(event)
      modifies this, Cells()
      ensures Valid()
      ensures event.Message? ==>
        clientMap == old(clientMap) && pollHandles == Without(old(pollHandles), event.i) + [old(pollHandles)[event.i]]
      ensures event.Loss? && old(pollHandles[event.i].outgoing.value) && Connected in event.replies ==>
        clientMap == old(clientMap) && pollHandles == old(pollHandles)
      ensures event.Loss? && !(old(pollHandles[event.i].outgoing.value) && Connected in event.replies) ==>
        && clientMap == old(clientMap) - {old(pollHandles)[event.i].name}
        && pollHandles == Without(old(pollHandles), event.i)
      ensures (event.Incoming? && event.name !in old(clientMap)
               && (!monitorFeature || event.name != "krossbar.monitor")) ==>
        && event.name in clientMap && clientMap == old(clientMap)[event.name := clientMap[event.name]]
        && pollHandles == old(pollHandles)
             + [Handle(event.name, clientMap[event.name].event, clientMap[event.name].outgoing, false)]
      ensures (event.Incoming?
               && (event.name in old(clientMap) || (monitorFeature && event.name == "krossbar.monitor"))) ==>
        clientMap == old(clientMap) && pollHandles == old(pollHandles)
      ensures event.Quiet? ==> clientMap == old(clientMap) && pollHandles == old(pollHandles)
      ensures Turned(event, old(Flagged(event)), old(clientMap), old(pollHandles))
      ensures forall h :: h in old(pollHandles) ==> h.outgoing.value == old(h.outgoing.value)
    {
      match event {
        case Message(i) =>
          PollMessage(i);
        case Loss(i, replies) =>
          ghost var h := pollHandles[i];
          assert h in pollHandles && Live(h);
          PollLost(i, replies, Link(true, h.outgoing.value, h.event.emitted, |h.event.taken|, map[], 0));
        case Incoming(name) =>
          HandleNewConnection(name);
        case Quiet =>
      }
    }

    /**
     * A client that is in the map already only becomes outgoing, and the hub is not asked. Otherwise the hub
     * decides, unless the service's own polling returns first: after that turn of polling, it panics.
     */
    method Connect(name: string, wait: bool, first: FirstToReturn) returns (r: Connection)
      requires Valid() && if first.HubSays? then Conclusive(first.replies) else Ready(first.event)
      modifies this, Cells()
      ensures Valid()
      ensures r.Made? <==> name in old(clientMap) || (first.HubSays? && Connected in first.replies)
      ensures r.Panicked? <==> name !in old(clientMap) && first.OwnPoll?
      ensures r.Panicked? ==> Turned(first.event, old(Flagged(first.event)), old(clientMap), old(pollHandles))
      ensures r.Made? ==> name in clientMap && clientMap[name] == r.client && r.client.outgoing.value
      ensures name in old(clientMap) || r.NotMade? ==> clientMap == old(clientMap) && pollHandles == old(pollHandles)
      ensures r.Made? && name !in old(clientMap) ==>
        && clientMap == old(clientMap)[name := r.client]
        && pollHandles == old(pollHandles) + [Handle(name, r.client.event, r.client.outgoing, wait)]
        && fresh(r.client.event) && fresh(r.client.outgoing) && r.client.event.emitted == []
      ensures forall h :: h in old(pollHandles) ==> h.outgoing.value == (old(h.outgoing.value) || h.name == name)
      ensures !r.Panicked? ==> forall h :: h in old(pollHandles) ==>
        h.event.emitted == old(h.event.emitted) && h.event.taken == old(h.event.taken)
    {
      if name in clientMap {
        MakeClientOutgoing(name);
        return Made(clientMap[name]);
      }
      match first {
        case OwnPoll(event) =>
          Poll(event);
          return Panicked;
        case HubSays(replies) =>
          var ok := HubConnect(replies);
          if !ok {
            return NotMade;
          }
      }
      var client := Adopt(name, true, wait);
      return Made(client);
    }

    /** A connection the hub hands in. The monitor's is not a client; one from a known peer is dropped. */
    method HandleNewConnection(name: string)
      requires Valid()
      modifies this
      ensures Valid()
      ensures (monitorFeature && name == "krossbar.monitor") || name in old(clientMap) ==>
        clientMap == old(clientMap) && pollHandles == old(pollHandles)
      ensures !(monitorFeature && name == "krossbar.monitor") && name !in old(clientMap) ==>
        && name in clientMap && clientMap == old(clientMap)[name := clientMap[name]]
        && pollHandles == old(pollHandles) + [Handle(name, clientMap[name].event, clientMap[name].outgoing, false)]
        && fresh(clientMap[name].event) && fresh(clientMap[name].outgoing)
        && !clientMap[name].outgoing.value && clientMap[name].event.emitted == []
    {
      if monitorFeature && name == ServicePermissions.MONITOR_SERVICE_NAME {
        return;
      }
      if name !in clientMap {
        var client := Adopt(name, false, false);
      }
    }

    /** A polled handle brings a message: it is taken out, the message handled, and it is polled again. */
    method PollMessage(i: nat)
      requires Valid() && i < |pollHandles|
      modifies this`pollHandles
      ensures Valid()
      ensures pollHandles == Without(old(pollHandles), i) + [old(pollHandles)[i]]
    {
      var handle := pollHandles[i];
      AgreeRotate(clientMap, pollHandles, i);
      WithoutAt(pollHandles, i);
      pollHandles := Without(pollHandles, i);
      pollHandles := pollHandles + [handle];
    }

    /**
     * A polled handle finds its connection closed. An outgoing one asks the hub again and stays polled if
     * the hub agrees; otherwise it is given up and its name leaves the map. Either way it is the step of
     * the link that handles the loss, whatever the calls on that link do.
     */
    method PollLost(i: nat, replies: seq<HubReply>, ghost s: Link)
      requires Valid() && i < |pollHandles|
      requires Shows(pollHandles[i].event, s) && s.polled && s.outgoing == pollHandles[i].outgoing.value
      requires Reconnect.Enabled(s, Lose(replies))
      modifies this, pollHandles[i].event
      ensures Valid()
      ensures var h, s' := old(pollHandles)[i], Reconnect.Next(s, Lose(replies));
        && Shows(h.event, s') && GoodHistory(s'.emitted, s'.polled)
        && (s'.polled ==> clientMap == old(clientMap) && pollHandles == old(pollHandles))
        && (!s'.polled ==> clientMap == old(clientMap) - {h.name} && pollHandles == Without(old(pollHandles), i))
      ensures var h, back := old(pollHandles)[i], old(pollHandles[i].outgoing.value) && Connected in replies;
        h.event.emitted == old(h.event.emitted) + [if back then Back else Lost] && (h in pollHandles <==> back)
    {
      var back := false;
      if pollHandles[i].outgoing.value {
        back := HubConnect(replies);
      }
      OthersDiffer(clientMap, pollHandles, i);
      Notify(i, if back then Back else Lost);
      if !back {
        Drop(i);
      }
    }

    /** The loss of a connection is told to the waiters of its event, and of no other. */
    method Notify(i: nat, notice: Notice)
      requires Valid() && i < |pollHandles|
      modifies pollHandles[i].event
      ensures var event := pollHandles[i].event;
        && event.Valid() && GoodHistory(event.emitted, notice.Back?)
        && event.emitted == old(event.emitted) + [notice] && event.taken == old(event.taken)
      ensures forall h :: h in pollHandles && h != pollHandles[i] ==> Live(h)
    {
      OthersDiffer(clientMap, pollHandles, i);
      assert Live(pollHandles[i]) by {
        assert pollHandles[i] in pollHandles;
      }
      pollHandles[i].event.Emit(notice);
    }

    /** A handle that was given up leaves the bag, and its name the map. */
    method Drop(i: nat)
      requires Agree(clientMap, pollHandles) && i < |pollHandles|
      requires forall h :: h in Without(pollHandles, i) ==> Live(h)
      modifies this
      ensures Valid()
      ensures clientMap == old(clientMap) - {old(pollHandles)[i].name}
      ensures pollHandles == Without(old(pollHandles), i)
    {
      AgreeRemove(clientMap, pollHandles, i);
      clientMap := clientMap - {pollHandles[i].name};
      pollHandles := Without(pollHandles, i);
    }
  }

  lemma OthersDiffer(m: map<string, Client>, hs: seq<Handle>, i: nat)
    requires Agree(m, hs) && i < |hs|
    ensures forall h :: h in Without(hs, i) ==> h != hs[i] && h in hs
    ensures forall h :: h in hs ==> h == hs[i] || h.event != hs[i].event
  {
    WithoutAt(hs, i);
  }
}
