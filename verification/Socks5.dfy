/** The SOCKS5 client handshake (internal/socks5/dialer.go) against the message
    formats of RFC 1928, sections 3 to 6, and RFC 1929, section 2. */
module Socks5 {
  import opened Common

  type Byte = b: int | 0 <= b < 256

  // ---------------------------------------------------------------- message formats

  datatype Address = V4(ip: seq<Byte>) | V6(ip: seq<Byte>) | Domain(name: seq<Byte>)

  predicate IsAddress(a: Address) {
    match a
    case V4(ip) => |ip| == 4
    case V6(ip) => |ip| == 16
    case Domain(name) => |name| <= 255
  }

  /** ATYP and the address itself. */
  function AddressBytes(a: Address): seq<Byte>
    requires IsAddress(a)
  {
    match a
    case V4(ip) => [1] + ip
    case V6(ip) => [4] + ip
    case Domain(name) => [3, |name|] + name
  }

  function ParseAddress(s: seq<Byte>): (r: Option<(Address, seq<Byte>)>)
    ensures r.Some? ==> IsAddress(r.value.0)
  {
    if s == [] then None
    else if s[0] == 1 then (if |s| < 5 then None else Some((V4(s[1..5]), s[5..])))
    else if s[0] == 4 then (if |s| < 17 then None else Some((V6(s[1..17]), s[17..])))
    else if s[0] == 3 then (
      if |s| < 2 || |s| < 2 + s[1] as int then None
      else Some((Domain(s[2..2 + s[1] as int]), s[2 + s[1] as int..])))
    else None
  }

  lemma AddressRoundTrip(a: Address, rest: seq<Byte>)
    requires IsAddress(a)
    ensures ParseAddress(AddressBytes(a) + rest) == Some((a, rest))
  {
    var s := AddressBytes(a) + rest;
    var n := |AddressBytes(a)|;
    assert s[n..] == rest;
    match a {
      case V4(ip) => assert s[1..5] == ip;
      case V6(ip) => assert s[1..17] == ip;
      case Domain(name) => assert s[2..2 + |name|] == name;
    }
  }

  lemma AddressParsesWhole(s: seq<Byte>)
    requires ParseAddress(s).Some?
    ensures var (a, rest) := ParseAddress(s).value; s == AddressBytes(a) + rest
  {
  }

  // Everything a proxy sends up to the tunnel. `authenticated` is the choice of
  // username/password over no authentication.
  datatype Replies = Replies(authenticated: bool, code: Byte, reserved: Byte, bound: Address, port: seq<Byte>)

  predicate AreReplies(r: Replies) {
    IsAddress(r.bound) && |r.port| == 2
  }

  function ReplyBytes(r: Replies): seq<Byte>
    requires AreReplies(r)
  {
    [5, r.code, r.reserved] + AddressBytes(r.bound) + r.port
  }

  function RepliesBytes(r: Replies): seq<Byte>
    requires AreReplies(r)
  {
    SelectionBytes(r.authenticated) + ReplyBytes(r)
  }

  function SelectionBytes(authenticated: bool): seq<Byte> {
    if authenticated then [5, 2, 1, 0] else [5, 0]
  }

  function ParseReply(s: seq<Byte>, authenticated: bool): (r: Option<(Replies, seq<Byte>)>)
    ensures r.Some? ==> AreReplies(r.value.0)
  {
    if |s| < 3 || s[0] != 5 then None
    else
      var bound := ParseAddress(s[3..]);
      if bound.None? || |bound.value.1| < 2 then None
      else Some((Replies(authenticated, s[1], s[2], bound.value.0, bound.value.1[..2]), bound.value.1[2..]))
  }

  /** The method selection and, for username/password, its status: whether the proxy
      asked for credentials, and the bytes after. */
  function ParseSelection(s: seq<Byte>): Option<(bool, seq<Byte>)> {
    if |s| < 2 || s[0] != 5 then None
    else if s[1] == 0 then Some((false, s[2..]))
    else if s[1] == 2 && |s| >= 4 && s[2] == 1 && s[3] == 0 then Some((true, s[4..]))
    else None
  }

  /** The replies at the front of `s`, and the tunnelled bytes after them. */
  function ParseReplies(s: seq<Byte>): (r: Option<(Replies, seq<Byte>)>)
    ensures r.Some? ==> AreReplies(r.value.0)
  {
    var selection := ParseSelection(s);
    if selection.None? then None else ParseReply(selection.value.1, selection.value.0)
  }

  lemma CutReply(front: seq<Byte>, address: seq<Byte>, port: seq<Byte>, tunnel: seq<Byte>)
    requires |front| == 3 && |port| == 2
    ensures var s := front + address + port + tunnel;
            s[..3] == front && s[3..] == address + (port + tunnel) && (port + tunnel)[..2] == port && (port + tunnel)[2..] == tunnel
  {
  }

  lemma ReplyRoundTrip(r: Replies, tunnel: seq<Byte>)
    requires AreReplies(r)
    ensures ParseReply(ReplyBytes(r) + tunnel, r.authenticated) == Some((r, tunnel))
  {
    var front := [5, r.code, r.reserved];
    AddressRoundTrip(r.bound, r.port + tunnel);
    CutReply(front, AddressBytes(r.bound), r.port, tunnel);
    var s := ReplyBytes(r) + tunnel;
    assert s[0] == s[..3][0] && s[1] == s[..3][1] && s[2] == s[..3][2];
  }

  lemma RepliesRoundTrip(r: Replies, tunnel: seq<Byte>)
    requires AreReplies(r)
    ensures ParseReplies(RepliesBytes(r) + tunnel) == Some((r, tunnel))
  {
    var s := RepliesBytes(r) + tunnel;
    assert s[if r.authenticated then 4 else 2..] == ReplyBytes(r) + tunnel;
    ReplyRoundTrip(r, tunnel);
  }

  lemma JoinReply(s: seq<Byte>, address: seq<Byte>, port: seq<Byte>, tunnel: seq<Byte>)
    requires |s| >= 3 && s[3..] == address + (port + tunnel)
    ensures s == [s[0], s[1], s[2]] + address + port + tunnel
  {
    assert s == [s[0], s[1], s[2]] + s[3..];
  }

  lemma ReplyParsesWhole(s: seq<Byte>, authenticated: bool)
    requires ParseReply(s, authenticated).Some?
    ensures var (r, tunnel) := ParseReply(s, authenticated).value; r.authenticated == authenticated && s == ReplyBytes(r) + tunnel
  {
    hide ParseAddress, AddressBytes;
    AddressParsesWhole(s[3..]);
    var (bound, rest) := ParseAddress(s[3..]).value;
    assert rest == rest[..2] + rest[2..];
    JoinReply(s, AddressBytes(bound), rest[..2], rest[2..]);
  }

  lemma SelectionParsesWhole(s: seq<Byte>)
    requires ParseSelection(s).Some?
    ensures var (authenticated, rest) := ParseSelection(s).value; s == SelectionBytes(authenticated) + rest
  {
  }

  lemma RepliesParseWhole(s: seq<Byte>)
    requires ParseReplies(s).Some?
    ensures var (r, tunnel) := ParseReplies(s).value; s == RepliesBytes(r) + tunnel
  {
    var (authenticated, rest) := ParseSelection(s).value;
    ReplyParsesWhole(rest, authenticated);
    SelectionParsesWhole(s);
    var (r, tunnel) := ParseReply(rest, authenticated).value;
    Associates(SelectionBytes(authenticated), ReplyBytes(r), tunnel);
  }

  // ---------------------------------------------------------------- connect request

  // What net.SplitHostPort, net.ParseIP (16-byte form) and strconv.Atoi make of the target.
  datatype Target = Malformed | Target(host: seq<Byte>, ip: Option<seq<Byte>>, port: Option<int>)

  predicate IsTarget(t: Target) {
    t.Target? && t.ip.Some? ==> |t.ip.value| == 16
  }

  /** net.IP.To4: an address in ::ffff:0:0/96. */
  predicate IsMapped(ip: seq<Byte>)
    requires |ip| == 16
  {
    ip[..12] == [0, 0, 0, 0, 0, 0, 0, 0, 0, 0, 255, 255]
  }

  function AddressOf(t: Target): Address
    requires IsTarget(t) && t.Target?
  {
    if t.ip.None? then Domain(t.host)
    else if IsMapped(t.ip.value) then V4(t.ip.value[12..])
    else V6(t.ip.value)
  }

  /** A host that is an address is asked for as one: a.b.c.d, written ::ffff:a.b.c.d in
      sixteen bytes, as IPv4, and any other as IPv6; a name as itself. */
  lemma AddressMeans(t: Target)
    requires IsTarget(t) && t.Target?
    ensures t.ip.None? ==> AddressOf(t) == Domain(t.host)
    ensures t.ip.Some? ==>
              if exists v4 :: t.ip.value == [0, 0, 0, 0, 0, 0, 0, 0, 0, 0, 255, 255] + v4
              then exists v4 :: t.ip.value == [0, 0, 0, 0, 0, 0, 0, 0, 0, 0, 255, 255] + v4 && AddressOf(t) == V4(v4)
              else AddressOf(t) == V6(t.ip.value)
  {
    if t.ip.Some? {
      var prefix: seq<Byte>, ip := [0, 0, 0, 0, 0, 0, 0, 0, 0, 0, 255, 255], t.ip.value;
      if ip[..12] == prefix {
        assert ip == prefix + ip[12..];
      }
    }
  }

  function DecodeRequest(s: seq<Byte>): Option<(Address, int)> {
    if |s| < 3 || s[..3] != [5, 1, 0] then None
    else
      var address := ParseAddress(s[3..]);
      if address.None? || |address.value.1| != 2 then None
      else Some((address.value.0, (address.value.1[0] as int) * 256 + address.value.1[1] as int))
  }

  function Truncated(a: Address): Address {
    if a.Domain? && |a.name| > 255 then Domain(a.name[..255]) else a
  }

  predicate IsPort(port: Option<int>) {
    port.Some? && 0 <= port.value <= 65535
  }

  lemma RequestDecodes(a: Address, high: Byte, low: Byte)
    requires IsAddress(a)
    ensures DecodeRequest([5, 1, 0] + AddressBytes(a) + [high, low]) == Some((a, (high as int) * 256 + low as int))
  {
    var s := [5, 1, 0] + AddressBytes(a) + [high, low];
    assert s[3..] == AddressBytes(a) + [high, low];
    AddressRoundTrip(a, [high, low]);
  }

  /** The port a request can carry. */
  function PortOf(t: Target): (port: int)
    requires t.Target?
    ensures 0 <= port <= 65535
  {
    if IsPort(t.port) then t.port.value else 0
  }

  function RequestBytes(t: Target): seq<Byte>
    requires IsTarget(t)
  {
    if t.Malformed? then [5, 1, 0, 3, 0, 0, 0]
    else [5, 1, 0] + AddressBytes(Truncated(AddressOf(t))) + [PortOf(t) / 256, PortOf(t) % 256]
  }

  lemma RequestNames(t: Target)
    requires IsTarget(t)
    ensures DecodeRequest(RequestBytes(t)) ==
            if t.Malformed? then Some((Domain([]), 0)) else Some((Truncated(AddressOf(t)), PortOf(t)))
  {
    if t.Target? {
      RequestDecodes(Truncated(AddressOf(t)), PortOf(t) / 256, PortOf(t) % 256);
    } else {
      assert RequestBytes(t) == [5, 1, 0] + AddressBytes(Domain([])) + [0, 0];
      RequestDecodes(Domain([]), 0, 0);
    }
  }

  /** ATYP and address of a connect request; a host name is cut to what its length byte can say. */
  method RequestAddress(t: Target) returns (bytes: seq<Byte>)
    requires IsTarget(t) && t.Target?
    ensures IsAddress(Truncated(AddressOf(t))) && bytes == AddressBytes(Truncated(AddressOf(t)))
  {
    if t.ip.Some? {
      if IsMapped(t.ip.value) {
        bytes := [1] + t.ip.value[12..];
      } else {
        bytes := [4] + t.ip.value;
      }
    } else {
      var hostBytes := t.host;
      if |hostBytes| > 255 {
        hostBytes := hostBytes[..255];
      }
      bytes := [3, |hostBytes|] + hostBytes;
    }
  }

  /** The request always decodes. It names the target itself exactly when the host fits
      its length byte and the port is one; otherwise the host is cut and the port is 0. */
  method ConnectRequest(t: Target) returns (request: seq<Byte>)
    requires IsTarget(t)
    ensures request == RequestBytes(t)
    ensures t.Malformed? ==> request == [5, 1, 0, 3, 0, 0, 0]
    ensures t.Target? ==>
              DecodeRequest(request) == Some((Truncated(AddressOf(t)), if IsPort(t.port) then t.port.value else 0))
  {
    if t.Malformed? {
      return [5, 1, 0, 3, 0, 0, 0];
    }
    var port := if IsPort(t.port) then t.port.value else 0;
    var address := RequestAddress(t);
    var high: Byte, low: Byte := port / 256, port % 256;
    RequestNames(t);
    request := [5, 1, 0] + address + [high, low];
  }

  /** The request asks for the target itself exactly when the host is an address or has at
      most 255 bytes, and the port is one. A malformed target asks for the empty name and port 0. */
  lemma RequestIsExact(t: Target)
    requires IsTarget(t)
    ensures t.Target? ==>
              (t.port.Some? && DecodeRequest(RequestBytes(t)) == Some((AddressOf(t), t.port.value))
               <==> (t.ip.Some? || |t.host| <= 255) && t.port.Some? && 0 <= t.port.value <= 65535)
    ensures t.Malformed? ==> DecodeRequest(RequestBytes(t)) == Some((Domain([]), 0))
  {
    RequestNames(t);
    if t.Target? && t.ip.None? && |t.host| > 255 {
      assert |Truncated(AddressOf(t)).name| == 255;
    }
  }

  /** A name of 256 bytes and a port of 65536: the request asks for another name, at port 0. */
  lemma LongNameIsCut(letter: Byte)
    ensures var t := Target(seq(256, _ => letter), None, Some(65536));
            DecodeRequest(RequestBytes(t)) == Some((Domain(seq(255, _ => letter)), 0)) && AddressOf(t) == Domain(seq(256, _ => letter))
  {
    var t := Target(seq(256, _ => letter), None, Some(65536));
    RequestNames(t);
    assert t.host[..255] == seq(255, _ => letter);
  }

  // ---------------------------------------------------------------- handshake

  class Connection {
    var incoming: seq<Byte>
    var outgoing: seq<Byte>
    var writesLeft: nat      // how many more writes succeed

    method Write(data: seq<Byte>) returns (ok: bool)
      modifies this`outgoing, this`writesLeft
      ensures ok == (old(writesLeft) > 0)
      ensures ok ==> outgoing == old(outgoing) + data && writesLeft == old(writesLeft) - 1
    {
      ok := writesLeft > 0;
      if ok {
        outgoing, writesLeft := outgoing + data, writesLeft - 1;
      }
    }

    /** io.ReadFull, and io.CopyN into io.Discard. */
    method ReadFull(n: nat) returns (data: Option<seq<Byte>>)
      modifies this`incoming
      ensures data.Some? <==> n <= |old(incoming)|
      ensures data.Some? ==> data.value == old(incoming)[..n] && incoming == old(incoming)[n..]
    {
      if n <= |incoming| {
        data := Some(incoming[..n]);
        incoming := incoming[n..];
      } else {
        data, incoming := None, [];
      }
    }
  }

  datatype Dialer = Dialer(username: seq<Byte>, password: seq<Byte>)

  predicate CredentialsFit(d: Dialer) {
    |d.username| <= 255 && |d.password| <= 255
  }

  function Greeting(d: Dialer): seq<Byte> {
    if d.username != [] then [5, 2, 0, 2] else [5, 1, 0]
  }

  /** RFC 1929, section 2. */
  function Credentials(d: Dialer): seq<Byte>
    requires CredentialsFit(d)
  {
    [1, |d.username|] + d.username + [|d.password|] + d.password
  }

  /** The methods that a version and method selection message offers (RFC 1928, section 3). */
  function ParseGreeting(s: seq<Byte>): Option<seq<Byte>> {
    if |s| < 2 || s[0] != 5 || |s| != 2 + s[1] as int then None else Some(s[2..])
  }

  /** No authentication is always offered, username/password exactly when there is a username. */
  lemma GreetingOffers(d: Dialer)
    ensures ParseGreeting(Greeting(d)) == Some(if d.username == [] then [0] else [0, 2])
  {
  }

  /** User name and password of a request of RFC 1929, section 2. */
  function ParseCredentials(s: seq<Byte>): Option<(seq<Byte>, seq<Byte>)> {
    if |s| < 2 || s[0] != 1 || |s| < 3 + s[1] as int then None
    else
      var rest := s[2 + s[1] as int..];
      if |rest| != 1 + rest[0] as int then None else Some((s[2..2 + s[1] as int], rest[1..]))
  }

  lemma CredentialsDecode(d: Dialer)
    requires CredentialsFit(d)
    ensures ParseCredentials(Credentials(d)) == Some((d.username, d.password))
  {
    var s, n := Credentials(d), |d.username|;
    assert s[2..2 + n] == d.username;
    assert s[2 + n..] == [|d.password|] + d.password;
  }

  method Authenticate(d: Dialer, conn: Connection) returns (ok: bool)
    modifies conn
    ensures ok <==> |d.username| <= 255 && |d.password| <= 255 && old(conn.writesLeft) > 0 && [1, 0] <= old(conn.incoming)
    ensures ok ==> && conn.incoming == old(conn.incoming)[2..] && conn.writesLeft == old(conn.writesLeft) - 1
                   && conn.outgoing == old(conn.outgoing) + Credentials(d)
  {
    if |d.username| > 255 || |d.password| > 255 {
      return false;
    }
    var request: seq<Byte> := [1, |d.username|];
    request := request + d.username;
    request := request + [|d.password|];
    request := request + d.password;
    ok := conn.Write(request);
    if !ok { return; }
    var response := conn.ReadFull(2);
    ok := response.Some? && response.value[0] == 1 && response.value[1] == 0;
  }

  /** Reads past the bound address and port of a connect reply. */
  method DiscardSocksAddress(conn: Connection, atyp: Byte) returns (ok: bool)
    modifies conn`incoming
    ensures var bound := ParseAddress([atyp] + old(conn.incoming));
            && (ok <==> bound.Some? && |bound.value.1| >= 2)
            && (ok ==> conn.incoming == bound.value.1[2..])
  {
    ghost var whole := [atyp] + conn.incoming;
    match atyp {
      case 1 =>
        var data := conn.ReadFull(6);
        ok := data.Some?;
        assert ok ==> whole[5..][2..] == conn.incoming;
      case 4 =>
        var data := conn.ReadFull(18);
        ok := data.Some?;
        assert ok ==> whole[17..][2..] == conn.incoming;
      case 3 =>
        var length := conn.ReadFull(1);
        if length.None? { return false; }
        var data := conn.ReadFull(length.value[0] as int + 2);
        ok := data.Some?;
        assert whole[1] == length.value[0];
        assert ok ==> whole[2 + whole[1] as int..][2..] == conn.incoming;
      case _ =>
        ok := false;
    }
  }

  /** The connect request and its reply; the last part of the handshake. */
  method Connect(conn: Connection, t: Target, ghost authenticated: bool) returns (ok: bool, ghost request: seq<Byte>)
    requires IsTarget(t)
    modifies conn
    ensures request == RequestBytes(t)
    ensures var reply := ParseReply(old(conn.incoming), authenticated);
            && (ok <==> old(conn.writesLeft) > 0 && reply.Some? && reply.value.0.code == 0)
            && (ok ==> && conn.incoming == reply.value.1
                       && conn.outgoing == old(conn.outgoing) + request && conn.writesLeft == old(conn.writesLeft) - 1)
    ensures t.Target? ==>
              DecodeRequest(request) == Some((Truncated(AddressOf(t)), if IsPort(t.port) then t.port.value else 0))
  {
    var bytes := ConnectRequest(t);
    request := bytes;
    ok := conn.Write(bytes);
    if !ok { return; }
    var header := conn.ReadFull(4);
    if header.None? {
      return false, request;
    }
    if header.value[0] != 5 {
      return false, request;
    }
    assert old(conn.incoming)[3..] == [header.value[3]] + conn.incoming;
    ok := DiscardSocksAddress(conn, header.value[3]);
    if !ok { return; }
    ok := header.value[1] == 0;
  }

  /** The greeting, and the credentials if the proxy selects them. */
  method Negotiate(d: Dialer, conn: Connection) returns (ok: bool)
    modifies conn
    ensures var selection := ParseSelection(old(conn.incoming));
            && (ok <==> && selection.Some? && (selection.value.0 ==> |d.username| <= 255 && |d.password| <= 255)
                        && old(conn.writesLeft) >= (if selection.value.0 then 2 else 1))
            && (ok ==> && conn.incoming == selection.value.1
                       && conn.writesLeft == old(conn.writesLeft) - (if selection.value.0 then 2 else 1)
                       && conn.outgoing == old(conn.outgoing) + Greeting(d)
                            + (if selection.value.0 then Credentials(d) else []))
  {
    var methods: seq<Byte> := [0];
    if d.username != [] {
      methods := [0, 2];
    }
    ok := conn.Write([5, |methods|] + methods);
    if !ok { return; }
    var response := conn.ReadFull(2);
    if response.None? || response.value[0] != 5 {
      return false;
    }
    match response.value[1] {
      case 0 =>
      case 2 =>
        ghost var rest := conn.incoming;
        ok := Authenticate(d, conn);
        assert ok ==> |rest| >= 2 && old(conn.incoming)[4..] == rest[2..];
      case _ =>
        ok := false;
    }
  }

  /** Succeeds exactly when the writes go through and the proxy's bytes begin with
      well-formed replies that grant the connection (and credentials, if it asked for
      them, fit their length bytes). It then has consumed those replies and not one byte
      of the tunnel, and has sent the greeting, the credentials if asked, and a request
      for the target. */
  method Handshake(d: Dialer, conn: Connection, t: Target) returns (ok: bool, ghost request: seq<Byte>)
    requires IsTarget(t)
    modifies conn
    ensures var parsed := ParseReplies(old(conn.incoming));
            && (ok <==> && parsed.Some? && parsed.value.0.code == 0
                        && (parsed.value.0.authenticated ==> |d.username| <= 255 && |d.password| <= 255)
                        && old(conn.writesLeft) >= (if parsed.value.0.authenticated then 3 else 2))
            && (ok ==> && old(conn.incoming) == RepliesBytes(parsed.value.0) + conn.incoming
                       && conn.outgoing == old(conn.outgoing) + Greeting(d)
                            + (if parsed.value.0.authenticated then Credentials(d) else []) + request)
    ensures ok ==> request == RequestBytes(t)
    ensures ok && t.Target? ==>
              DecodeRequest(request) == Some((Truncated(AddressOf(t)), if IsPort(t.port) then t.port.value else 0))
  {
    request := [];
    if ParseReplies(conn.incoming).Some? {
      RepliesParseWhole(conn.incoming);
    }
    ok := Negotiate(d, conn);
    if !ok { return; }
    ok, request := Connect(conn, t, ParseSelection(old(conn.incoming)).value.0);
  }
}
