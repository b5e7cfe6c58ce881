/**
 * The session coordinator of src/main.go as the program runs it: one object
 * whose fields the event loop updates in place, one event at a time. Every
 * method is proved to perform the transition that module Coordinator
 * defines, so the lemmas proved there hold of this object.
 */
module EventLoop {
  import opened Wrappers
  import opened Coordinator

  /**
   * getNewPlayerId: scan 0, 1, ... for the first id with no entry. None
   * stands for the panic after MaxId ids were all found taken.
   */
  method GetNewPlayerId(players: map<int, Player>) returns (r: Option<int>)
    ensures r == LeastFreeId(players)
    ensures r.Some? ==>
              && 0 <= r.value < MaxId && r.value !in players
              && forall j :: 0 <= j < r.value ==> j in players
    ensures r.None? <==> forall j :: 0 <= j < MaxId ==> j in players
  {
    var i := 0;
    while i < MaxId
      invariant 0 <= i <= MaxId
      invariant forall j :: 0 <= j < i ==> j in players
      invariant FreeFrom(players, i) == LeastFreeId(players)
    {
      if i !in players {
        return Some(i);
      }
      i := i + 1;
    }
    return None;
  }

  /** The next key of a `range` loop: any one not yet visited. */
  method Pick<K>(todo: set<K>) returns (k: K)
    requires todo != {}
    ensures k in todo
  {
    k :| k in todo;
  }

  /**
   * The `server` goroutine's state: the table, the counter and the outbound
   * channels. A channel is shared with its connection's handler, so the
   * values sent on every channel live here, one mailbox per channel.
   */
  class Server {
    var players: map<int, Player>
    var playerCount: int
    var mailboxes: Mailboxes

    function Snapshot(): ServerState
      reads this
    {
      ServerState(players, playerCount, mailboxes)
    }

    /** A server starts with no players, a zero count and no channels. */
    constructor ()
      ensures Snapshot() == Initial
    {
      players := map[];
      playerCount := 0;
      mailboxes := map[];
    }

    /** sendTo: one value onto p's channel. */
    method SendTo(p: Player, d: Notification)
      modifies this
      ensures mailboxes == Post(old(mailboxes), p.ch, d)
      ensures players == old(players) && playerCount == old(playerCount)
    {
      mailboxes := Post(mailboxes, p.ch, d);
    }

    /**
     * sendToAll: d onto the channel of every player of ps, once each, in
     * no particular order; no other channel is touched.
     */
    method SendToAll(ps: map<int, Player>, d: Notification)
      requires DistinctChannels(ps)
      modifies this
      ensures mailboxes == Broadcast(old(mailboxes), Chans(ps), d)
      ensures forall k :: k in ps ==>
                ps[k].ch in mailboxes && mailboxes[ps[k].ch] == Mail(old(mailboxes), ps[k].ch) + [d]
      ensures players == old(players) && playerCount == old(playerCount)
    {
      var todo := ps.Keys;
      ghost var done: set<int> := {};
      while todo != {}
        invariant todo + done == ps.Keys && todo !! done
        invariant mailboxes == Broadcast(old(mailboxes), ChansOf(ps, done), d)
        invariant players == old(players) && playerCount == old(playerCount)
        decreases |todo|
      {
        var k := Pick(todo);
        BroadcastVisit(old(mailboxes), ps, done, k, d);
        SendTo(ps[k], d);
        todo := todo - {k};
        done := done + {k};
      }
      BroadcastReachesExactlyPlayers(old(mailboxes), ps, d);
    }

    /**
     * sendToAllExcept: as sendToAll, skipping every player whose Id is
     * `except`.
     */
    method SendToAllExcept(ps: map<int, Player>, d: Notification, except: int)
      requires DistinctChannels(ps)
      modifies this
      ensures mailboxes == Broadcast(old(mailboxes), ChansOf(ps, KeysExcept(ps, except)), d)
      ensures forall k :: k in ps ==>
                && (ps[k].id != except ==> ps[k].ch in mailboxes && mailboxes[ps[k].ch] == Mail(old(mailboxes), ps[k].ch) + [d])
                && (ps[k].id == except ==> Mail(mailboxes, ps[k].ch) == Mail(old(mailboxes), ps[k].ch))
      ensures players == old(players) && playerCount == old(playerCount)
    {
      var todo := ps.Keys;
      ghost var done: set<int> := {};
      while todo != {}
        invariant todo + done == ps.Keys && todo !! done
        invariant mailboxes == Broadcast(old(mailboxes), ChansOf(ps, done * KeysExcept(ps, except)), d)
        invariant players == old(players) && playerCount == old(playerCount)
        decreases |todo|
      {
        var k := Pick(todo);
        var p := ps[k];
        BroadcastExceptVisit(old(mailboxes), ps, done, k, d, except);
        if p.id != except {
          SendTo(p, d);
        }
        todo := todo - {k};
        done := done + {k};
      }
      KeysExceptAll(ps, except);
      BroadcastExceptReachesOthers(old(mailboxes), ps, d, except);
    }

    /**
     * One iteration of the `server` loop: a Join increments the count, takes
     * the least free id, tells the newcomer its id, enters it in the table and
     * sends the new count to everyone; a Disconnect decrements the count,
     * deletes the id and sends the new count. The channel of a Join is one
     * its handler has just made.
     */
    method ProcessEvent(e: Event) returns (status: Status)
      requires Valid(Snapshot()) && FreshChannel(Snapshot(), e)
      modifies this
      ensures Step(old(Snapshot()), e) == Transition(status, Snapshot())
      ensures Valid(Snapshot())
    {
      match e
      case Join(ch) =>
        status := AddPlayer(ch);
      case Disconnect(id) =>
        RemovePlayer(id);
        status := Running;
    }

    /** The `case player:` branch: a new player arrives on the fresh channel ch. */
    method AddPlayer(ch: Channel) returns (status: Status)
      requires Valid(Snapshot()) && ch !in mailboxes
      modifies this
      ensures Step(old(Snapshot()), Join(ch)) == Transition(status, Snapshot())
      ensures Valid(Snapshot())
    {
      ghost var s := Snapshot();
      ghost var t := Step(s, Join(ch));
      JoinPreservesValid(s, ch);
      playerCount := playerCount + 1;
      var newPlayer := Player(0, ch);
      var r := GetNewPlayerId(players);
      if r.None? {
        return Panicked;
      }
      newPlayer := newPlayer.(id := r.value);
      SendTo(newPlayer, IdAssigned(newPlayer.id));
      players := players[newPlayer.id := newPlayer];
      assert players == t.next.players && mailboxes == Post(s.mailboxes, ch, IdAssigned(r.value));
      SendToAll(players, Count(playerCount));
      status := Running;
    }

    /** The `case playerDisconnect:` branch: the player with key id leaves, if it is there. */
    method RemovePlayer(id: int)
      requires Valid(Snapshot())
      modifies this
      ensures Step(old(Snapshot()), Disconnect(id)) == Transition(Running, Snapshot())
      ensures Valid(Snapshot())
    {
      ghost var s := Snapshot();
      ghost var t := Step(s, Disconnect(id));
      DisconnectPreservesValid(s, id);
      playerCount := playerCount - 1;
      players := players - {id};
      assert players == t.next.players;
      SendToAll(players, Count(playerCount));
    }

    /**
     * The loop over a finite, ordered list of events; it ends early at a
     * panic, which in the program kills the process.
     */
    method Serve(events: seq<Event>) returns (status: Status)
      requires Valid(Snapshot()) && FreshChannels(Snapshot(), events)
      modifies this
      ensures Run(old(Snapshot()), events) == Transition(status, Snapshot())
      ensures Valid(Snapshot())
    {
      var i := 0;
      while i < |events|
        invariant 0 <= i <= |events|
        invariant Run(old(Snapshot()), events) == Run(Snapshot(), events[i..])
        invariant Valid(Snapshot()) && FreshChannels(Snapshot(), events[i..])
      {
        ghost var s := Snapshot();
        assert events[i..][0] == events[i] && events[i..][1..] == events[i + 1..];
        status := ProcessEvent(events[i]);
        if status == Panicked {
          return;
        }
        i := i + 1;
      }
      assert events[i..] == [];
      status := Running;
    }
  }
}
