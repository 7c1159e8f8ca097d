/** util/websocket/websocket.go: the realtime hub. Its client set is owned by
    one loop that handles one register, unregister or broadcast at a time; the
    hub below is that state machine, with the writes and closes it performs
    recorded in order. Which connections fail their write in a broadcast is an
    input of that broadcast. */
module Websocket {

  /** A client connection, by identity. */
  type Conn = nat

  /** One WriteJSON attempt. */
  datatype Write<M> = Write(conn: Conn, msg: M)

  /** A value received on one of the hub's three intake channels. */
  datatype Event<M> = Register(conn: Conn) | Unregister(conn: Conn) | Broadcast(msg: M)

  /** The client set after one event, when the connections in `fails` fail
      their write. */
  function Next<M>(clients: set<Conn>, ev: Event<M>, fails: set<Conn>): (r: set<Conn>)
    ensures ev.Register? ==> ev.conn in r && r - {ev.conn} == clients - {ev.conn}
    ensures ev.Unregister? ==> ev.conn !in r && r + {ev.conn} == clients + {ev.conn}
    ensures ev.Broadcast? ==> r <= clients && r !! fails && clients <= r + fails
  {
    match ev
    case Register(c) => clients + {c}
    case Unregister(c) => clients - {c}
    case Broadcast(_) => clients - fails
  }

  /** The client set after a run of events, event i seeing failures fails[i]. */
  function Replay<M>(clients: set<Conn>, events: seq<Event<M>>, fails: seq<set<Conn>>): (r: set<Conn>)
    requires |fails| == |events|
    ensures forall c :: c in r ==> c in clients || exists j :: 0 <= j < |events| && events[j] == Register(c)
  {
    if events == [] then clients
    else Next(Replay(clients, events[..|events| - 1], fails[..|fails| - 1]), events[|events| - 1], fails[|fails| - 1])
  }

  /** xs lists the members of s, each exactly once, in some order. */
  ghost predicate Enumerates(xs: seq<Conn>, s: set<Conn>)
  {
    multiset(xs) == multiset(s)
  }

  /** The connections written to, in order. */
  function Targets<M>(ws: seq<Write<M>>): (r: seq<Conn>)
    ensures |r| == |ws|
    ensures forall i :: 0 <= i < |ws| ==> r[i] == ws[i].conn
  {
    if ws == [] then [] else [ws[0].conn] + Targets(ws[1..])
  }

  /** A connection listed at two positions is counted twice. */
  lemma CountedTwice(xs: seq<Conn>, i: nat, j: nat)
    requires i < j < |xs|
    ensures xs[i] == xs[j] ==> multiset(xs)[xs[j]] >= 2
  {
    if xs[i] == xs[j] {
      assert xs == xs[..j] + [xs[j]] + xs[j + 1..];
      assert xs[..j][i] == xs[j];
    }
  }

  /** An enumeration of a set has the set's size, reaches exactly its
      members, and repeats none of them. */
  lemma EnumeratesOnce(xs: seq<Conn>, s: set<Conn>)
    requires Enumerates(xs, s)
    ensures |xs| == |s|
    ensures forall c :: c in xs <==> c in s
    ensures forall i, j :: 0 <= i < j < |xs| ==> xs[i] != xs[j]
  {
    assert |multiset(xs)| == |xs|;
    forall c ensures c in xs <==> c in s {
      assert c in xs <==> c in multiset(xs);
      assert c in s <==> c in multiset(s);
    }
    forall i, j | 0 <= i < j < |xs| ensures xs[i] != xs[j] {
      CountedTwice(xs, i, j);
    }
  }

  /** Listing one more member keeps a listing of the larger set. */
  lemma EnumeratesSnoc(xs: seq<Conn>, s: set<Conn>, c: Conn)
    requires Enumerates(xs, s) && c !in s
    ensures Enumerates(xs + [c], s + {c})
  {
    assert multiset(s + {c}) == multiset(s) + multiset{c};
  }

  /** Registering twice leaves one entry. */
  lemma RegisterIdempotent<M>(clients: set<Conn>, c: Conn, fails: set<Conn>)
    ensures Next(Next(clients, Event<M>.Register(c), fails), Event<M>.Register(c), fails) == Next(clients, Event<M>.Register(c), fails)
    ensures c in Next(clients, Event<M>.Register(c), fails)
  {
  }

  /** Unregistering an absent connection changes nothing. */
  lemma UnregisterAbsentIsNoop<M>(clients: set<Conn>, c: Conn, fails: set<Conn>)
    requires c !in clients
    ensures Next(clients, Event<M>.Unregister(c), fails) == clients
  {
  }

  /** With N clients of which exactly client k fails its write, the next
      broadcast has N - 1 clients to reach, all of the others kept. */
  lemma FailedClientDropped<M>(clients: set<Conn>, k: Conn, msg: M)
    requires k in clients
    ensures |Next(clients, Broadcast(msg), {k})| == |clients| - 1
    ensures forall c :: c in clients && c != k ==> c in Next(clients, Broadcast(msg), {k})
  {
  }

  /** The writes of msg to the connections of `order`, in that order. */
  function WritesOf<M>(order: seq<Conn>, msg: M): (ws: seq<Write<M>>)
    ensures |ws| == |order|
    ensures forall i :: 0 <= i < |ws| ==> ws[i] == Write(order[i], msg)
  {
    if order == [] then [] else WritesOf(order[..|order| - 1], msg) + [Write(order[|order| - 1], msg)]
  }

  /** The writes of msg to `order` reach exactly `order`. */
  lemma TargetsOfWrites<M>(order: seq<Conn>, msg: M)
    ensures Targets(WritesOf(order, msg)) == order
  {
    assert |Targets(WritesOf(order, msg))| == |order|;
  }

  /** Writing to one more connection extends the writes by that one. */
  lemma WritesOfSnoc<M>(order: seq<Conn>, conn: Conn, msg: M)
    ensures WritesOf(order + [conn], msg) == WritesOf(order, msg) + [Write(conn, msg)]
  {
    assert (order + [conn])[..|order|] == order;
  }

  /** Visiting one more connection keeps the visit order a listing of the
      visited clients, and the closes a listing of the visited clients that
      failed. */
  lemma VisitStep(order: seq<Conn>, closedNow: seq<Conn>, done: set<Conn>, fails: set<Conn>, conn: Conn)
    requires Enumerates(order, done) && Enumerates(closedNow, done * fails) && conn !in done
    ensures Enumerates(order + [conn], done + {conn})
    ensures conn in fails ==> Enumerates(closedNow + [conn], (done + {conn}) * fails)
    ensures conn !in fails ==> Enumerates(closedNow, (done + {conn}) * fails)
  {
    EnumeratesSnoc(order, done, conn);
    if conn in fails {
      assert (done + {conn}) * fails == done * fails + {conn};
      EnumeratesSnoc(closedNow, done * fails, conn);
    } else {
      assert (done + {conn}) * fails == done * fails;
    }
  }

  /** Moving one pending connection to the visited part keeps the two parts
      a split of the clients. */
  lemma MoveOne(done: set<Conn>, pending: set<Conn>, clients: set<Conn>, conn: Conn)
    requires done + pending == clients && done !! pending && conn in pending
    ensures (done + {conn}) + (pending - {conn}) == clients && (done + {conn}) !! (pending - {conn})
    ensures conn !in done
  {
  }

  /** The writes of msg along a listing of a set carry msg and reach that
      set's members once each. */
  lemma WritesOfListing<M>(order: seq<Conn>, msg: M, s: set<Conn>)
    requires Enumerates(order, s)
    ensures forall i :: 0 <= i < |WritesOf(order, msg)| ==> WritesOf(order, msg)[i].msg == msg
    ensures Enumerates(Targets(WritesOf(order, msg)), s)
  {
    TargetsOfWrites(order, msg);
  }

  /** The pass of a broadcast over `clients`: one write of msg to each
      client, in the order the pass visits them, and the closes of those
      whose write fails. */
  method Deliver<M>(clients: set<Conn>, msg: M, fails: set<Conn>) returns (sent: seq<Write<M>>, closedNow: seq<Conn>)
    ensures forall i :: 0 <= i < |sent| ==> sent[i].msg == msg
    ensures Enumerates(Targets(sent), clients)
    ensures Enumerates(closedNow, clients * fails)
  {
    var pending := clients;
    ghost var done: set<Conn> := {};
    ghost var order: seq<Conn> := [];
    sent, closedNow := [], [];
    while pending != {}
      invariant done + pending == clients && done !! pending
      invariant sent == WritesOf(order, msg)
      invariant Enumerates(order, done)
      invariant Enumerates(closedNow, done * fails)
      decreases pending
    {
      var conn :| conn in pending;
      MoveOne(done, pending, clients, conn);
      VisitStep(order, closedNow, done, fails, conn);
      WritesOfSnoc(order, conn, msg);
      sent := sent + [Write(conn, msg)];
      order := order + [conn];
      if conn in fails {
        closedNow := closedNow + [conn];
      }
      done := done + {conn};
      pending := pending - {conn};
    }
    assert done == clients;
    WritesOfListing(order, msg, clients);
  }

  class Hub<M> {
    var clients: set<Conn>
    /** Every WriteJSON attempted, oldest first. */
    var writes: seq<Write<M>>
    /** Every Close call, oldest first. */
    var closed: seq<Conn>

    /** NewHub: no clients, nothing written or closed. */
    constructor ()
      ensures clients == {} && writes == [] && closed == []
    {
      clients, writes, closed := {}, [], [];
    }

    /** A register event adds the connection; nothing else happens. */
    method Register(conn: Conn)
      modifies this
      ensures clients == old(clients) + {conn}
      ensures writes == old(writes) && closed == old(closed)
    {
      clients := clients + {conn};
    }

    /** An unregister event removes and closes a present connection, and does
        nothing for an absent one. */
    method Unregister(conn: Conn)
      modifies this
      ensures conn in old(clients) ==> clients == old(clients) - {conn} && closed == old(closed) + [conn]
      ensures conn !in old(clients) ==> clients == old(clients) && closed == old(closed)
      ensures writes == old(writes)
    {
      if conn in clients {
        clients := clients - {conn};
        closed := closed + [conn];
      }
    }

    /** A broadcast event writes msg once to every current client, in map
        order; a connection whose write fails is closed and the pass goes on;
        the failed connections are removed once the pass is over. */
    method Broadcast(msg: M, fails: set<Conn>)
      modifies this
      ensures clients == old(clients) - fails
      ensures |writes| >= |old(writes)| && writes[..|old(writes)|] == old(writes)
      ensures forall i :: |old(writes)| <= i < |writes| ==> writes[i].msg == msg
      ensures Enumerates(Targets(writes[|old(writes)|..]), old(clients))
      ensures |closed| >= |old(closed)| && closed[..|old(closed)|] == old(closed)
      ensures Enumerates(closed[|old(closed)|..], old(clients) * fails)
    {
      var sent, closedNow := Deliver(clients, msg, fails);
      writes := writes + sent;
      closed := closed + closedNow;
      clients := clients - fails;
      assert writes[|old(writes)|..] == sent;
      assert closed[|old(closed)|..] == closedNow;
    }

    /** One turn of the hub's loop: the event's own effect on the clients,
        the write log and the close log. */
    method Step(ev: Event<M>, fails: set<Conn>)
      modifies this
      ensures clients == Next(old(clients), ev, fails)
      ensures |writes| >= |old(writes)| && writes[..|old(writes)|] == old(writes)
      ensures |closed| >= |old(closed)| && closed[..|old(closed)|] == old(closed)
      ensures !ev.Broadcast? ==> writes == old(writes)
      ensures ev.Register? ==> closed == old(closed)
      ensures ev.Unregister? ==>
                closed == if ev.conn in old(clients) then old(closed) + [ev.conn] else old(closed)
      ensures ev.Broadcast? ==>
                && (forall i :: |old(writes)| <= i < |writes| ==> writes[i].msg == ev.msg)
                && Enumerates(Targets(writes[|old(writes)|..]), old(clients))
                && Enumerates(closed[|old(closed)|..], old(clients) * fails)
    {
      match ev
      case Register(c) =>
        Register(c);
      case Unregister(c) =>
        Unregister(c);
      case Broadcast(m) =>
        Broadcast(m, fails);
    }

    /** Run, for a finite prefix of the events it receives: the client set
        is the replay of the events, the write and close logs only grow, and
        every write carries the message of one of the broadcast events. */
    method Run(events: seq<Event<M>>, fails: seq<set<Conn>>)
      requires |fails| == |events|
      modifies this
      ensures clients == Replay(old(clients), events, fails)
      ensures |writes| >= |old(writes)| && writes[..|old(writes)|] == old(writes)
      ensures |closed| >= |old(closed)| && closed[..|old(closed)|] == old(closed)
      ensures forall i :: |old(writes)| <= i < |writes| ==>
                exists j :: 0 <= j < |events| && events[j] == Event.Broadcast(writes[i].msg)
    {
      var i := 0;
      while i < |events|
        invariant 0 <= i <= |events|
        invariant clients == Replay(old(clients), events[..i], fails[..i])
        invariant |writes| >= |old(writes)| && writes[..|old(writes)|] == old(writes)
        invariant |closed| >= |old(closed)| && closed[..|old(closed)|] == old(closed)
        invariant forall k :: |old(writes)| <= k < |writes| ==>
                    exists j :: 0 <= j < i && events[j] == Event.Broadcast(writes[k].msg)
      {
        ghost var before := writes;
        Step(events[i], fails[i]);
        forall k | |old(writes)| <= k < |writes|
          ensures exists j :: 0 <= j < i + 1 && events[j] == Event.Broadcast(writes[k].msg)
        {
          if k < |before| {
            assert writes[k] == before[k];
          } else {
            assert events[i] == Event.Broadcast(writes[k].msg);
          }
        }
        assert events[..i + 1][..i] == events[..i];
        assert fails[..i + 1][..i] == fails[..i];
        i := i + 1;
      }
      assert events[..i] == events && fails[..i] == fails;
    }
  }
}
