/** The bus that carries deploy events to the pages that watch a project. */
module DeployBus {
  import opened Text

  datatype DeployEvent = DeployEvent(projectId: string, stage: string, message: string, status: string)

  const CAPACITY := 16

  /** An event offered to a subscriber, with how many events its channel held at that moment. */
  datatype Offer = Offer(event: DeployEvent, held: nat)

  /** The events among the offers, in order. */
  function Offered(offers: seq<Offer>): (events: seq<DeployEvent>)
    ensures |events| == |offers|
  {
    if offers == [] then [] else Offered(offers[..|offers| - 1]) + [offers[|offers| - 1].event]
  }

  /** Those that found room. */
  function Accepted(offers: seq<Offer>): seq<DeployEvent> {
    if offers == [] then []
    else
      var front, last := Accepted(offers[..|offers| - 1]), offers[|offers| - 1];
      if last.held < CAPACITY then front + [last.event] else front
  }

  /** The events about a project, in order. */
  function About(events: seq<DeployEvent>, projectId: string): seq<DeployEvent> {
    if events == [] then []
    else
      var front, last := About(events[..|events| - 1], projectId), events[|events| - 1];
      if last.projectId == projectId then front + [last] else front
  }

  class Channel {
    const projectId: string
    var buffer: seq<DeployEvent>
    var closed: bool

    ghost const since: nat                  // how many events the bus had carried at the subscription
    ghost var until: nat                    // and at the close
    ghost var received: seq<DeployEvent>
    ghost var offers: seq<Offer>

    /** Received, then still buffered, are the events that found room; nothing else, nothing twice. */
    ghost predicate Valid()
      reads this
    {
      && |buffer| <= CAPACITY
      && received + buffer == Accepted(offers)
      && forall k :: 0 <= k < |offers| ==> offers[k].held <= CAPACITY
    }

    constructor (projectId: string, ghost since: nat)
      ensures Valid() && !closed && buffer == [] && received == [] && offers == []
      ensures this.projectId == projectId && this.since == since
    {
      this.projectId, this.since := projectId, since;
      buffer, closed, until, received, offers := [], false, since, [], [];
    }

    /** A send that gives up when the buffer is full. On a closed channel it would panic. */
    method TrySend(event: DeployEvent)
      requires Valid() && !closed
      modifies this
      ensures Valid() && !closed && received == old(received) && until == old(until)
      ensures offers == old(offers) + [Offer(event, |old(buffer)|)]
      ensures buffer == if |old(buffer)| < CAPACITY then old(buffer) + [event] else old(buffer)
    {
      offers := offers + [Offer(event, |buffer|)];
      assert offers[..|offers| - 1] == old(offers);
      if |buffer| < CAPACITY {
        assert received + (buffer + [event]) == received + buffer + [event];
        buffer := buffer + [event];
      }
    }

    /** The oldest event, or nothing while there is none. */
    method Receive() returns (event: Option<DeployEvent>)
      requires Valid()
      modifies this`buffer, this`received
      ensures Valid()
      ensures old(buffer) == [] ==> event == None && buffer == [] && received == old(received)
      ensures old(buffer) != [] ==>
                event == Some(old(buffer)[0]) && buffer == old(buffer)[1..] && received == old(received) + [old(buffer)[0]]
    {
      if buffer == [] {
        return None;
      }
      event := Some(buffer[0]);
      assert received + buffer == received + [buffer[0]] + buffer[1..];
      received, buffer := received + [buffer[0]], buffer[1..];
    }

    method Close(ghost now: nat)
      requires !closed
      modifies this`closed, this`until
      ensures closed && until == now
    {
      closed, until := true, now;
    }
  }

  class DeployBus {
    var subscribers: map<string, set<Channel>>

    ghost var emitted: seq<DeployEvent>
    ghost var channels: set<Channel>        // every channel handed out

    /** What a channel has been offered: every event about its project while it was subscribed. */
    ghost predicate Served(c: Channel)
      reads this, c
    {
      && c.since <= (if c.closed then c.until else |emitted|) <= |emitted|
      && Offered(c.offers) == About(emitted[c.since..(if c.closed then c.until else |emitted|)], c.projectId)
    }

    /** The subscribed channels are the open ones, so no send meets a closed channel, and no project
        keeps an empty set. */
    ghost predicate Valid()
      reads this, channels
    {
      && (forall p :: p in subscribers ==> subscribers[p] != {})
      && (forall p, c :: p in subscribers && c in subscribers[p] ==> c in channels && c.projectId == p && !c.closed)
      && (forall c :: c in channels && !c.closed ==> c.projectId in subscribers && c in subscribers[c.projectId])
      && (forall c :: c in channels ==> c.Valid() && Served(c))
    }

    constructor ()
      ensures Valid() && subscribers == map[] && channels == {} && emitted == []
    {
      subscribers, channels, emitted := map[], {}, [];
    }

    method SubscribeDeployEvents(projectId: string) returns (c: Channel)
      requires Valid()
      modifies this
      ensures Valid() && fresh(c) && channels == old(channels) + {c} && emitted == old(emitted)
      ensures c.projectId == projectId && !c.closed && c.since == |emitted| && c.buffer == [] && c.received == []
    {
      hide Accepted, About, Offered;
      c := new Channel(projectId, |emitted|);
      assert Served(c) by {
        assert emitted[|emitted|..|emitted|] == [];
        NothingYet(projectId);
      }
      channels := channels + {c};
      var others := if projectId in subscribers then subscribers[projectId] else {};
      subscribers := subscribers[projectId := others + {c}];
      forall d | d in old(channels) ensures d.Valid() && Served(d) {
        assert old(d.Valid()) && old(Served(d));
      }
    }

    /** What the caller of a subscription holds; a second call panics and changes nothing. */
    method Cancel(c: Channel) returns (panicked: bool)
      requires Valid() && c in channels
      modifies this`subscribers, c`closed, c`until
      ensures Valid() && panicked == old(c.closed) && c.closed
      ensures c.until == if panicked then old(c.until) else |emitted|
      ensures panicked ==> subscribers == old(subscribers)
    {
      hide Offered, About, Accepted;
      if c.projectId in subscribers {
        var others := subscribers[c.projectId] - {c};
        subscribers := if others == {} then subscribers - {c.projectId} else subscribers[c.projectId := others];
        assert c.closed ==> others == old(subscribers[c.projectId]);
      }
      if c.closed {
        assert subscribers == old(subscribers);
        return true;
      }
      c.Close(|emitted|);
      assert Served(c);
      forall d | d in channels && !d.closed ensures d.projectId in subscribers && d in subscribers[d.projectId] {
        assert d != c && d in old(subscribers[d.projectId]);
        assert d.projectId == c.projectId ==> d in old(subscribers[c.projectId]) - {c};
      }
      return false;
    }

    /** What a broadcast does to a channel: one offer to each open channel of the project, and nothing else. */
    twostate predicate OfferedOnce(c: Channel, event: DeployEvent)
      reads c
    {
      && c.closed == old(c.closed) && c.until == old(c.until) && c.received == old(c.received)
      && if !c.closed && c.projectId == event.projectId
         then c.offers == old(c.offers) + [Offer(event, |old(c.buffer)|)]
              && c.buffer == if |old(c.buffer)| < CAPACITY then old(c.buffer) + [event] else old(c.buffer)
         else c.offers == old(c.offers) && c.buffer == old(c.buffer)
    }

    method Broadcast(event: DeployEvent)
      requires Valid()
      modifies channels
      ensures forall c :: c in channels ==> c.Valid() && OfferedOnce(c, event)
    {
      hide Served, Offered, About, Accepted;
      var targets := if event.projectId in subscribers then subscribers[event.projectId] else {};
      assert forall c :: c in channels ==> (c in targets <==> !c.closed && c.projectId == event.projectId);
      var todo := targets;
      while todo != {}
        invariant todo <= targets
        invariant forall c :: c in channels ==> c.Valid() && (c in todo || c !in targets ==> unchanged(c))
        invariant forall c :: c in targets && c !in todo ==> OfferedOnce(c, event)
        decreases todo
      {
        var c :| c in todo;
        c.TrySend(event);
        todo := todo - {c};
      }
    }

    method EmitDeployEvent(event: DeployEvent)
      requires Valid()
      modifies this`emitted, channels
      ensures Valid() && emitted == old(emitted) + [event]
      ensures forall c :: c in channels ==> OfferedOnce(c, event)
    {
      hide Offered, About, Accepted;
      Broadcast(event);
      emitted := emitted + [event];
      forall c | c in channels ensures Served(c) {
        assert old(Served(c));
        if c.closed {
          assert emitted[c.since..c.until] == old(emitted)[c.since..c.until];
        } else {
          assert emitted[c.since..] == emitted[c.since..|emitted|] && old(emitted)[c.since..] == old(emitted)[c.since..|old(emitted)|];
          ServedNext(old(c.offers), c.offers, old(emitted), event, c.since, c.projectId);
        }
      }
    }

    /** A page reads its channel. */
    method Receive(c: Channel) returns (event: Option<DeployEvent>)
      requires Valid() && c in channels
      modifies c`buffer, c`received
      ensures Valid()
      ensures event == if old(c.buffer) == [] then None else Some(old(c.buffer)[0])
      ensures c.received == old(c.received) + (if event.Some? then [event.value] else [])
    {
      event := c.Receive();
    }

    /** In every state the bus can reach: what a subscriber has received and still holds is in order
        what was emitted about its project while it was subscribed, without the events that found its
        channel full, and none besides. */
    lemma Delivery(c: Channel)
      requires Valid() && c in channels
      ensures var sent, kept := About(emitted[c.since..(if c.closed then c.until else |emitted|)], c.projectId), Kept(c.offers);
              && |sent| == |c.offers|
              && (forall k :: 0 <= k < |sent| ==> c.offers[k].event == sent[k])
              && |kept| == |c.received + c.buffer|
              && Increasing(kept, |sent|)
              && (forall i :: 0 <= i < |kept| ==> (c.received + c.buffer)[i] == sent[kept[i]])
              && (forall k :: 0 <= k < |sent| ==> (k !in kept <==> c.offers[k].held == 16))
    {
      OfferedAt(c.offers);
      hide Kept, Offered, About, Accepted;
      forall i | 0 <= i < |Kept(c.offers)| ensures Accepted(c.offers)[i] == c.offers[Kept(c.offers)[i]].event {
        AcceptedAt(c.offers, i);
      }
      forall k | 0 <= k < |c.offers| ensures k in Kept(c.offers) <==> c.offers[k].held < CAPACITY {
        KeptHadRoom(c.offers, k);
      }
    }
  }

  predicate Increasing(ks: seq<nat>, bound: nat) {
    && (forall i :: 0 <= i < |ks| ==> ks[i] < bound)
    && (forall i, j :: 0 <= i < j < |ks| ==> ks[i] < ks[j])
  }

  lemma {:induction false} OfferedAt(offers: seq<Offer>)
    ensures forall k :: 0 <= k < |offers| ==> Offered(offers)[k] == offers[k].event
  {
    if offers != [] {
      OfferedAt(offers[..|offers| - 1]);
    }
  }

  /** Where the offers stood that found room. */
  function Kept(offers: seq<Offer>): (kept: seq<nat>)
    ensures |kept| == |Accepted(offers)|
    ensures Increasing(kept, |offers|)
  {
    if offers == [] then []
    else
      var front, n := Kept(offers[..|offers| - 1]), |offers| - 1;
      if offers[n].held < CAPACITY then front + [n] else front
  }

  lemma {:induction false} AcceptedAt(offers: seq<Offer>, i: nat)
    requires i < |Accepted(offers)|
    ensures Accepted(offers)[i] == offers[Kept(offers)[i]].event
  {
    var n := |offers| - 1;
    if i < |Accepted(offers[..n])| {
      AcceptedAt(offers[..n], i);
    }
  }

  lemma {:induction false} KeptHadRoom(offers: seq<Offer>, k: nat)
    requires k < |offers|
    ensures k in Kept(offers) <==> offers[k].held < CAPACITY
  {
    var n := |offers| - 1;
    if k < n {
      KeptHadRoom(offers[..n], k);
    }
  }

  lemma NothingYet(projectId: string)
    ensures Offered([]) == About([], projectId)
  {
  }

  lemma {:induction false} ServedNext(before: seq<Offer>, after: seq<Offer>, emitted: seq<DeployEvent>, event: DeployEvent, since: nat, projectId: string)
    requires since <= |emitted| && Offered(before) == About(emitted[since..], projectId)
    requires if event.projectId == projectId then |after| == |before| + 1 && after[..|before|] == before && after[|before|].event == event
             else after == before
    ensures Offered(after) == About((emitted + [event])[since..], projectId)
  {
    var sent := (emitted + [event])[since..];
    assert sent[..|sent| - 1] == emitted[since..];
  }
}
