/** Session records and the table of active sessions with its lookup by address. */
module Sessions {
  import opened Common

  datatype SessionState =
    | HandshakeClientHello | HandshakeServerHello | HandshakeClientAck | HandshakeServerAck | Active | Unknown

  /** TunnelMode::CONNECTION; the other mode, GATEWAY, is 1. */
  const CONNECTION := 0

  datatype SessionConfig = SessionConfig(
    clientId: string, clientAddress: string, serverAddress: string,
    topicInbound: string, topicOutbound: string, sessionId: string,
    handshakeId: string, state: SessionState, mode: int)

  /** What operator[] of the handshake map creates: every field zero. */
  const BLANK := SessionConfig("", "", "", "", "", "", "", HandshakeClientHello, CONNECTION)

  type Table = map<string, SessionConfig>

  // ---------- key order of std::map ----------

  predicate KeyLe(a: string, b: string) {
    a == "" || (b != "" && (a[0] < b[0] || (a[0] == b[0] && KeyLe(a[1..], b[1..]))))
  }

  lemma {:induction false} KeyLeTotal(a: string, b: string)
    ensures KeyLe(a, b) || KeyLe(b, a)
    ensures KeyLe(a, b) && KeyLe(b, a) ==> a == b
  {
    if a != "" && b != "" && a[0] == b[0] {
      KeyLeTotal(a[1..], b[1..]);
      assert a == [a[0]] + a[1..] && b == [b[0]] + b[1..];
    }
  }

  lemma {:induction false} KeyLeTransitive(a: string, b: string, c: string)
    requires KeyLe(a, b) && KeyLe(b, c)
    ensures KeyLe(a, c)
  {
    if a != "" && a[0] == b[0] == c[0] {
      KeyLeTransitive(a[1..], b[1..], c[1..]);
    }
  }

  /** The order is that of the first character in which two strings differ, or of their lengths. */
  lemma {:induction false} KeyLeIsLexicographic(a: string, b: string)
    ensures KeyLe(a, b) <==> a <= b || exists k :: DiffersAt(a, b, k) && a[k] < b[k]
  {
    if a != "" && b != "" {
      if a[0] == b[0] {
        KeyLeIsLexicographic(a[1..], b[1..]);
        assert a == [a[0]] + a[1..] && b == [b[0]] + b[1..];
        if k :| DiffersAt(a, b, k) && a[k] < b[k] {
          assert a[1..][..k - 1] == a[1..k] && b[1..][..k - 1] == b[1..k];
          assert a[1..k] == a[..k][1..] && b[1..k] == b[..k][1..];
          assert DiffersAt(a[1..], b[1..], k - 1);
        }
        if k :| DiffersAt(a[1..], b[1..], k) && a[1..][k] < b[1..][k] {
          assert a[..k + 1] == [a[0]] + a[1..][..k] && b[..k + 1] == [b[0]] + b[1..][..k];
          assert DiffersAt(a, b, k + 1);
        }
      } else {
        assert DiffersAt(a, b, 0);
        if k :| DiffersAt(a, b, k) {
          DiffersFirst(a, b, k);
        }
      }
    }
  }

  lemma DiffersFirst(a: string, b: string, k: int)
    requires DiffersAt(a, b, k)
    ensures k == 0 || a[0] == b[0]
  {
    if k > 0 {
      assert a[..k][0] == a[0] && b[..k][0] == b[0];
    }
  }

  predicate DiffersAt(a: string, b: string, k: int) { 0 <= k < |a| && k < |b| && a[..k] == b[..k] && a[k] != b[k] }

  predicate IsFirst(k: string, keys: set<string>) { k in keys && forall j | j in keys :: KeyLe(k, j) }

  lemma {:induction false} HasFirst(keys: set<string>)
    requires keys != {}
    ensures exists k :: IsFirst(k, keys)
    decreases |keys|
  {
    var x :| x in keys;
    KeyLeTotal(x, x);
    if keys == {x} {
      assert IsFirst(x, keys);
    } else {
      var rest := keys - {x};
      HasFirst(rest);
      var m :| IsFirst(m, rest);
      KeyLeTotal(x, m);
      var k := if KeyLe(x, m) then x else m;
      forall j | j in keys ensures KeyLe(k, j) {
        if j != x && k == x { KeyLeTransitive(x, m, j); }
      }
      assert IsFirst(k, keys);
    }
  }

  // ---------- lookup by address ----------

  ghost function Holders(t: Table, ip: string): set<string> { set id | id in t && t[id].clientAddress == ip }

  /** The session get_session_by_ip finds: the holder of the address with the first key. */
  ghost function FindByIp(t: Table, ip: string): (r: Option<SessionConfig>)
    ensures r.None? <==> forall id | id in t :: t[id].clientAddress != ip
    ensures r.Some? ==> r.value.clientAddress == ip && exists id :: IsFirst(id, Holders(t, ip)) && r.value == t[id]
  {
    if Holders(t, ip) == {} then
      assert forall id | id in t :: t[id].clientAddress == ip ==> id in Holders(t, ip);
      None
    else
      HasFirst(Holders(t, ip));
      var id :| IsFirst(id, Holders(t, ip));
      assert id in Holders(t, ip);
      Some(t[id])
  }

  lemma FindByIpIs(t: Table, ip: string, id: string)
    requires IsFirst(id, Holders(t, ip))
    ensures FindByIp(t, ip) == Some(t[id])
  {
    var other :| IsFirst(other, Holders(t, ip)) && FindByIp(t, ip) == Some(t[other]);
    KeyLeTotal(id, other);
  }

  /** No two sessions hold the same non-empty address. */
  predicate DistinctAddresses(t: Table) {
    forall i, j | i in t && j in t && t[i].clientAddress == t[j].clientAddress != "" :: i == j
  }

  /** With distinct addresses the lookup inverts the map from ids to addresses, in both directions. */
  lemma FindByIpInverts(t: Table, ip: string)
    requires DistinctAddresses(t) && ip != ""
    ensures forall id | id in t :: t[id].clientAddress == ip <==> FindByIp(t, ip) == Some(t[id])
    ensures FindByIp(t, ip).Some? ==> exists id :: id in t && Holders(t, ip) == {id} && FindByIp(t, ip) == Some(t[id])
  {
    if FindByIp(t, ip).Some? {
      var id :| IsFirst(id, Holders(t, ip)) && FindByIp(t, ip) == Some(t[id]);
      assert Holders(t, ip) == {id};
    }
  }

  // ---------- the class ----------

  class SessionMap {
    var sessions: Table

    constructor ()
      ensures sessions == map[]
    {
      sessions := map[];
    }

    method AddSession(clientId: string, config: SessionConfig)
      modifies this
      ensures sessions == old(sessions)[clientId := config]
    {
      sessions := sessions[clientId := config];
    }

    method GetSession(clientId: string) returns (config: Option<SessionConfig>)
      ensures config == if clientId in sessions then Some(sessions[clientId]) else None
    {
      if clientId in sessions {
        return Some(sessions[clientId]);
      }
      config := None;
    }

    /** Walks the map in key order and stops at the first session with the address. */
    method GetSessionByIp(clientIp: string) returns (config: Option<SessionConfig>)
      ensures config == FindByIp(sessions, clientIp)
    {
      var remaining := sessions.Keys;
      while remaining != {}
        invariant remaining <= sessions.Keys
        invariant Holders(sessions, clientIp) <= remaining
      {
        HasFirst(remaining);
        var k :| IsFirst(k, remaining);
        if sessions[k].clientAddress == clientIp {
          assert IsFirst(k, Holders(sessions, clientIp));
          FindByIpIs(sessions, clientIp, k);
          return Some(sessions[k]);
        }
        remaining := remaining - {k};
      }
      assert forall id | id in sessions :: sessions[id].clientAddress == clientIp ==> id in Holders(sessions, clientIp);
      config := None;
    }

    method RemoveSession(clientId: string)
      modifies this
      ensures sessions == old(sessions) - {clientId}
    {
      sessions := sessions - {clientId};
    }
  }
}
