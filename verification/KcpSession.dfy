/**
  fogrs-kcp/src/session.rs and listener.rs: the sessions of a server, and the loop that gives each packet to one.

  Sockets, tasks and channels are seen only through what they do to a session: packets wait in its inbox until its
  task takes them, and anything may close it at any time.
 */
module KcpSession {
  import opened Wrappers

  type SocketAddr = nat
  type Conv = n: nat | n < 0x1_0000_0000

  const KCP_OVERHEAD: nat := 24

  /** A packet as far as the loop looks at it. */
  datatype Packet = Packet(conv: Conv, sn: nat, length: nat)

  class Session {
    const peer: SocketAddr
    var conv: Conv
    /** The socket was made without a conversation number and takes over the first different one that it sees. */
    var waitingConv: bool
    var closed: bool
    var inbox: seq<Packet>

    /** Every packet given to the session and not yet taken carries its conversation number. */
    predicate Consistent()
      reads this
    {
      forall i :: 0 <= i < |inbox| ==> inbox[i].conv == conv
    }

    constructor (peer: SocketAddr, conv: Conv)
      ensures this.peer == peer && this.conv == conv && waitingConv == (conv == 0) && !closed && inbox == []
    {
      this.peer, this.conv, waitingConv, closed, inbox := peer, conv, conv == 0, false, [];
    }

    /** `close`: the flag that the stream's drop, the idle timer and the manager set. */
    method Close()
      modifies this`closed
      ensures closed
    {
      closed := true;
    }

    method Give(packet: Packet)
      requires Consistent() && packet.conv == conv
      modifies this`inbox
      ensures Consistent() && inbox == old(inbox) + [packet]
    {
      inbox := inbox + [packet];
    }

    /** The session's task inputs the next packet to the socket, which rejects a foreign conversation number
        unless it still waits for one.  Given only its own packets a session rejects none, and its number stays. */
    method Take() returns (accepted: bool)
      requires |inbox| > 0
      modifies this
      ensures inbox == old(inbox[1..]) && closed == old(closed)
      ensures accepted <==> old(inbox[0].conv == conv || waitingConv)
      ensures conv == if accepted then old(inbox[0].conv) else old(conv)
      ensures old(Consistent()) ==> accepted && conv == old(conv) && Consistent()
    {
      var packet := inbox[0];
      inbox := inbox[1..];
      if packet.conv == conv {
        return true;
      }
      if waitingConv {
        conv, waitingConv := packet.conv, false;
        return true;
      }
      return false;
    }
  }

  /** `sessions` of the source, whose values close their session when they are dropped. */
  class SessionManager {
    var sessions: map<SocketAddr, Session>
    /** Every session ever made here. */
    ghost var made: set<Session>

    /** A session whose closed flag is unset is the entry of its peer: the manager is the only owner. */
    ghost predicate Valid()
      reads this, made
    {
      && (forall p <- sessions :: sessions[p] in made && sessions[p].peer == p)
      && (forall s <- made :: s.closed || (s.peer in sessions && sessions[s.peer] == s))
      && (forall s <- made :: s.Consistent())
    }

    constructor ()
      ensures Valid() && sessions == map[] && made == {}
    {
      sessions, made := map[], {};
    }

    /** Drops the entry, which closes its session. */
    method ClosePeer(peer: SocketAddr)
      requires Valid()
      modifies this`sessions, if peer in sessions then {sessions[peer]} else {}
      ensures Valid() && sessions == old(sessions) - {peer}
      ensures peer in old(sessions) ==> old(sessions)[peer].closed
      ensures forall s <- made :: s.conv == old(s.conv) && s.inbox == old(s.inbox)
    {
      if peer in sessions {
        sessions[peer].Close();
      }
      sessions := sessions - {peer};
    }

    /** The packet's session: the peer's, or a new one when the peer has none or starts over with another number. */
    method GetOrCreate(conv: Conv, sn: nat, peer: SocketAddr, socketMade: bool)
      returns (r: Option<(Session, bool)>)
      requires Valid()
      modifies this, if peer in sessions then {sessions[peer]} else {}
      ensures Valid()
      ensures var fresh? := peer !in old(sessions) || (sn == 0 && old(sessions[peer].conv) != conv);
              && (r.None? <==> fresh? && !socketMade)
              && (r.Some? ==> (r.value.1 <==> fresh?))
      ensures r.None? ==> sessions == old(sessions) && made == old(made) && unchanged(made)
      ensures r.Some? ==> sessions == old(sessions)[peer := r.value.0]
      ensures r.Some? && !r.value.1 ==> made == old(made) && unchanged(made) && r.value.0 == old(sessions)[peer]
      ensures r.Some? && r.value.1 ==>
                && fresh(r.value.0) && made == old(made) + {r.value.0}
                && r.value.0.conv == conv && r.value.0.inbox == [] && !r.value.0.closed
                && (peer in old(sessions) ==> old(sessions)[peer].closed)
                && (forall s <- old(made) :: s.conv == old(s.conv) && s.inbox == old(s.inbox))
    {
      if peer in sessions {
        var current := sessions[peer];
        if sn == 0 && current.conv != conv {
          if !socketMade {
            return None;
          }
          var session := new Session(peer, conv);
          sessions, made := sessions[peer := session], made + {session};
          current.Close();
          return Some((session, true));
        }
        return Some((current, false));
      }
      if !socketMade {
        return None;
      }
      var session := new Session(peer, conv);
      sessions, made := sessions[peer := session], made + {session};
      return Some((session, true));
    }
  }

  /** What the loop does with a packet. */
  datatype Disposal = TooShort | NoSocket | NotAccepted | Mismatch | Given(session: Session)

  /** The loop of `from_socket`. */
  class Listener {
    const manager: SessionManager

    constructor ()
      ensures fresh(manager) && manager.Valid() && manager.sessions == map[]
    {
      manager := new SessionManager();
    }

    /** A session's end is reported by the address of its peer. */
    method OnCloseNotice(peer: SocketAddr)
      requires manager.Valid()
      modifies manager`sessions, if peer in manager.sessions then {manager.sessions[peer]} else {}
      ensures manager.Valid() && manager.sessions == old(manager.sessions) - {peer}
    {
      manager.ClosePeer(peer);
    }

    /** Whether a packet starts a session: the peer has none, or starts over with another number. */
    ghost predicate Starts(peer: SocketAddr, conv: Conv, sn: nat)
      reads manager, manager.sessions.Values
    {
      peer !in manager.sessions || (sn == 0 && manager.sessions[peer].conv != conv)
    }

    /** The session that a packet with this number is for; a new one is also offered to the acceptor. */
    method Route(conv: Conv, sn: nat, peer: SocketAddr, socketMade: bool, accepted: bool) returns (r: Disposal)
      requires manager.Valid()
      modifies manager, if peer in manager.sessions then {manager.sessions[peer]} else {}
      ensures manager.Valid() && r != TooShort
      ensures r == NoSocket <==> old(Starts(peer, conv, sn)) && !socketMade
      ensures r == NotAccepted <==> old(Starts(peer, conv, sn)) && socketMade && !accepted
      ensures r == Mismatch <==> !old(Starts(peer, conv, sn)) && old(manager.sessions[peer].conv) != conv
      ensures r == NotAccepted ==> manager.sessions == old(manager.sessions) - {peer}
      ensures r.NoSocket? || r.Mismatch? ==>
                manager.sessions == old(manager.sessions) && unchanged(old(manager.made))
      ensures r.Given? ==>
                && manager.sessions == old(manager.sessions)[peer := r.session] && r.session.conv == conv
                && r.session in manager.made
                && if old(Starts(peer, conv, sn))
                   then fresh(r.session) && !r.session.closed && r.session.inbox == []
                   else r.session == old(manager.sessions[peer]) && r.session.inbox == old(manager.sessions[peer].inbox)
    {
      var found := manager.GetOrCreate(conv, sn, peer, socketMade);
      if found.None? {
        return NoSocket;
      }
      var (session, created) := found.value;
      if created {
        if !accepted {
          session.Close();
          manager.ClosePeer(peer);
          return NotAccepted;
        }
      } else if session.conv != conv {
        return Mismatch;
      }
      return Given(session);
    }

    /** A packet from `peer`.  `drawn` is the number allocated if the packet asks for one, `socketMade` whether a
        socket can be made, `accepted` whether the channel of accepted streams has room. */
    method OnPacket(packet: Packet, peer: SocketAddr, drawn: Conv, socketMade: bool, accepted: bool)
      returns (r: Disposal)
      requires manager.Valid()
      modifies manager, if peer in manager.sessions then {manager.sessions[peer]} else {}
      ensures manager.Valid()
      ensures var conv := if packet.conv == 0 then drawn else packet.conv;
              var starts := old(Starts(peer, if packet.conv == 0 then drawn else packet.conv, packet.sn));
              && (r == TooShort <==> packet.length < KCP_OVERHEAD)
              && (r == NoSocket <==> packet.length >= KCP_OVERHEAD && starts && !socketMade)
              && (r == NotAccepted <==> packet.length >= KCP_OVERHEAD && starts && socketMade && !accepted)
              && (r == Mismatch <==>
                    packet.length >= KCP_OVERHEAD && !starts && old(manager.sessions[peer].conv) != conv)
              && (r.Given? ==>
                    && peer in manager.sessions && r.session == manager.sessions[peer] && r.session.conv == conv
                    && r.session.inbox ==
                         (if starts then [] else old(manager.sessions[peer].inbox)) + [packet.(conv := conv)]
                    && if starts then fresh(r.session) && !r.session.closed
                       else r.session == old(manager.sessions[peer]))
      ensures r == NotAccepted ==> manager.sessions == old(manager.sessions) - {peer}
      ensures r.TooShort? || r.NoSocket? || r.Mismatch? ==>
                manager.sessions == old(manager.sessions) && unchanged(old(manager.made))
      ensures r.Given? ==> manager.sessions == old(manager.sessions)[peer := r.session]
    {
      if packet.length < KCP_OVERHEAD {
        return TooShort;
      }
      var conv := packet.conv;
      if conv == 0 {
        conv := drawn;
      }
      r := Route(conv, packet.sn, peer, socketMade, accepted);
      if r.Given? {
        r.session.Give(packet.(conv := conv));
      }
    }

    /** A stream that is dropped, or a session that idles too long, is closed where it is. */
    method OnStreamDropped(session: Session)
      requires manager.Valid() && session in manager.made
      modifies session`closed
      ensures manager.Valid() && session.closed
    {
      session.Close();
    }

    /** A session's task takes a packet: it is never one that the socket rejects. */
    method OnSessionTurn(session: Session) returns (accepted: bool)
      requires manager.Valid() && session in manager.made && |session.inbox| > 0
      modifies session
      ensures manager.Valid() && accepted && session.conv == old(session.conv)
    {
      accepted := session.Take();
    }
  }

  /** A peer has at most one open session. */
  lemma OneOpenSession(manager: SessionManager, s: Session, t: Session)
    requires manager.Valid() && s in manager.made && t in manager.made
    requires !s.closed && !t.closed && s.peer == t.peer
    ensures s == t
  {
  }
}
