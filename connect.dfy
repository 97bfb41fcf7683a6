/**
 * The HTTP/3 connector: the choice of the local bind address, the turning of a
 * destination URI into a server name and an ordered list of candidate socket
 * addresses, and the sequential first-success fallback over those candidates.
 *
 * The collaborators are parameters: `parseIp` stands for `IpAddr::from_str`,
 * `parseName` for `Name::from_str`, `resolve` for the DNS resolver, `dial` for
 * `QuicClient::connect` and `negotiate` for the QUIC wrapping followed by the
 * HTTP/3 handshake. Their errors are carried as text.
 */
module H3Connect {
  import opened Wrappers
  import opened Net

  /** Port used when the destination names none (HTTPS). */
  const DefaultPort: u16 := 443

  /** Why `connect` failed, tagged by the stage that failed. */
  datatype Error =
    | MissingHost                       // "destination must have a host"
    | InvalidName(reason: string)       // `Name::from_str` rejected the host
    | ResolveFailed(reason: string)     // the resolver failed
    | DialFailed(reason: string)        // the last candidate's dial error
    | NegotiationFailed(reason: string) // QUIC/HTTP-3 handshake after a dial succeeded
    | NoConnection                      // "failed to establish connection for HTTP/3 request"

  /** A resolvable host name (`hyper_util`'s `Name`). */
  datatype Name = Name(host: string)

  /** The connector: its QUIC client is bound once, at construction, to `bind`. */
  datatype Connector = Connector(bind: SocketAddr)

  /** `client.connect(server_name, addr)` on the client bound to the first argument. */
  type Dialer<!Conn> = (SocketAddr, string, SocketAddr) -> Result<Conn, string>

  /** One call of the dialer, as the fallback loop made it. */
  datatype Attempt = Attempt(serverName: string, addr: SocketAddr)

  // ---------------------------------------------------------------------------
  // Construction
  // ---------------------------------------------------------------------------

  /** `H3Connector::new`: bind to `(local, 0)`, or to `[::]:0` when no local address is given. */
  function New(localAddr: Option<IpAddr>): (r: Result<Connector, Error>)
    ensures r.Success?
    ensures r.value.bind.port == 0
    ensures localAddr.Some? ==> r.value.bind.ip == localAddr.value
    ensures localAddr.None? ==> r.value.bind.ip == Ipv6Unspecified
  {
    var bind := match localAddr
      case Some(ip) => SocketAddr(ip, 0)
      case None => SocketAddr(Ipv6Unspecified, 0);
    Success(Connector(bind))
  }

  // ---------------------------------------------------------------------------
  // Destination normalisation
  // ---------------------------------------------------------------------------

  /** `str::trim_start_matches(c)`: drop every leading `c`. */
  function TrimStartMatches(s: string, c: char): (r: string)
    ensures |r| <= |s| && r == s[|s| - |r|..]
    ensures forall i :: 0 <= i < |s| - |r| ==> s[i] == c
    ensures r == [] || r[0] != c
    decreases |s|
  {
    if |s| > 0 && s[0] == c then TrimStartMatches(s[1..], c) else s
  }

  /** `str::trim_end_matches(c)`: drop every trailing `c`. */
  function TrimEndMatches(s: string, c: char): (r: string)
    ensures |r| <= |s| && r == s[..|r|]
    ensures forall i :: |r| <= i < |s| ==> s[i] == c
    ensures r == [] || r[|r| - 1] != c
    decreases |s|
  {
    if |s| > 0 && s[|s| - 1] == c then TrimEndMatches(s[..|s| - 1], c) else s
  }

  /**
   * The server name: the URI host with all leading `[` and all trailing `]`
   * removed. It is the slice `host[i..j]` with only `[` before it and only
   * `]` after it, and it neither starts with `[` nor ends with `]`.
   */
  function NormaliseHost(host: string): (r: string)
    ensures exists i, j ::
      && 0 <= i <= j <= |host| && r == host[i..j]
      && (forall k :: 0 <= k < i ==> host[k] == '[')
      && (forall k :: j <= k < |host| ==> host[k] == ']')
    ensures r == [] || (r[0] != '[' && r[|r| - 1] != ']')
  {
    var t := TrimStartMatches(host, '[');
    var r := TrimEndMatches(t, ']');
    var i, j := |host| - |t|, |host| - |t| + |r|;
    assert r == host[i..j];
    r
  }

  /** `dest.port_u16().unwrap_or(443)`. */
  function ChosenPort(dest: Uri): (p: u16)
    ensures dest.port.Some? ==> p == dest.port.value
    ensures dest.port.None? ==> p == DefaultPort
  {
    match dest.port
    case Some(p) => p
    case None => DefaultPort
  }

  /** Every resolved address with its port overwritten, in the resolver's order. */
  function WithPorts(addrs: seq<SocketAddr>, port: u16): (r: seq<SocketAddr>)
    ensures |r| == |addrs|
    ensures forall i :: 0 <= i < |r| ==> r[i].ip == addrs[i].ip && r[i].port == port
  {
    seq(|addrs|, i requires 0 <= i < |addrs| => addrs[i].WithPort(port))
  }

  /** The server name of a destination that has a host. */
  function Host(dest: Uri): string
    requires dest.host.Some?
  {
    NormaliseHost(dest.host.value)
  }

  /** What `connect` hands to `remote_connect`. */
  datatype Target = Target(serverName: string, addrs: seq<SocketAddr>)

  /**
   * The first half of `H3Connector::connect`: the server name and the candidate
   * list. An IP-literal host gives exactly one candidate and the resolver plays
   * no part in the result; otherwise a name or resolver failure is passed on,
   * and a successful lookup keeps the resolver's order and length.
   */
  function Candidates(
    dest: Uri,
    parseIp: string -> Option<IpAddr>,
    parseName: string -> Result<Name, string>,
    resolve: Name -> Result<seq<SocketAddr>, string>
  ): (r: Result<Target, Error>)
    ensures dest.host.None? <==> r == Failure(MissingHost)
    ensures r.Success? ==> r.value.serverName == Host(dest)
    ensures r.Success? ==> forall a :: a in r.value.addrs ==> a.port == ChosenPort(dest)
    ensures dest.host.Some? && parseIp(Host(dest)).Some? ==>
      r == Success(Target(Host(dest), [SocketAddr(parseIp(Host(dest)).value, ChosenPort(dest))]))
    ensures dest.host.Some? && parseIp(Host(dest)).None? && parseName(Host(dest)).Failure? ==>
      r == Failure(InvalidName(parseName(Host(dest)).error))
    ensures (dest.host.Some? && parseIp(Host(dest)).None? && parseName(Host(dest)).Success?
             && resolve(parseName(Host(dest)).value).Failure?) ==>
      r == Failure(ResolveFailed(resolve(parseName(Host(dest)).value).error))
    ensures (dest.host.Some? && parseIp(Host(dest)).None? && parseName(Host(dest)).Success?
             && resolve(parseName(Host(dest)).value).Success?) ==>
      (r.Success?
       && |r.value.addrs| == |resolve(parseName(Host(dest)).value).value|
       && forall i :: 0 <= i < |r.value.addrs| ==>
            r.value.addrs[i].ip == resolve(parseName(Host(dest)).value).value[i].ip)
  {
    match dest.host
    case None => Failure(MissingHost)
    case Some(h) =>
      var host := NormaliseHost(h);
      var port := ChosenPort(dest);
      match parseIp(host)
      case Some(ip) => Success(Target(host, [SocketAddr(ip, port)]))
      case None =>
        match parseName(host)
        case Failure(e) => Failure(InvalidName(e))
        case Success(name) =>
          match resolve(name)
          case Failure(e) => Failure(ResolveFailed(e))
          case Success(found) => Success(Target(host, WithPorts(found, port)))
  }

  // ---------------------------------------------------------------------------
  // Sequential first-success fallback
  // ---------------------------------------------------------------------------

  /**
   * The index of the first candidate whose dial succeeds, or `|addrs|` when
   * none does.
   */
  function FirstDialable<Conn>(c: Connector, serverName: string, addrs: seq<SocketAddr>, dial: Dialer<Conn>): (k: nat)
    ensures k <= |addrs|
    ensures forall j :: 0 <= j < k ==> dial(c.bind, serverName, addrs[j]).Failure?
    ensures k < |addrs| ==> dial(c.bind, serverName, addrs[k]).Success?
    decreases |addrs|
  {
    if addrs == [] then 0
    else if dial(c.bind, serverName, addrs[0]).Success? then 0
    else 1 + FirstDialable(c, serverName, addrs[1..], dial)
  }

  /** How many candidates the fallback dials: up to and including the first success. */
  function DialCount<Conn>(c: Connector, serverName: string, addrs: seq<SocketAddr>, dial: Dialer<Conn>): (n: nat)
    ensures n <= |addrs|
    ensures addrs != [] ==> n > 0
    ensures forall j :: 0 <= j < n - 1 ==> dial(c.bind, serverName, addrs[j]).Failure?
    ensures n == |addrs| || dial(c.bind, serverName, addrs[n - 1]).Success?
    ensures n == |addrs| && addrs != [] && dial(c.bind, serverName, addrs[n - 1]).Failure? ==>
      forall j :: 0 <= j < n ==> dial(c.bind, serverName, addrs[j]).Failure?
  {
    var k := FirstDialable(c, serverName, addrs, dial);
    if k < |addrs| then k + 1 else |addrs|
  }

  /**
   * The result the fallback promises: the negotiation outcome on the first
   * candidate that dials; otherwise the last candidate's dial error; and the
   * fixed "no connection" error for an empty list.
   */
  function Outcome<Conn, Session>(
    c: Connector, serverName: string, addrs: seq<SocketAddr>,
    dial: Dialer<Conn>, negotiate: Conn -> Result<Session, string>
  ): Result<Session, Error>
  {
    var k := FirstDialable(c, serverName, addrs, dial);
    if k < |addrs| then
      match negotiate(dial(c.bind, serverName, addrs[k]).value)
      case Success(s) => Success(s)
      case Failure(e) => Failure(NegotiationFailed(e))
    else if addrs == [] then Failure(NoConnection)
    else Failure(DialFailed(dial(c.bind, serverName, addrs[|addrs| - 1]).error))
  }

  /** The dialer calls made on the first `n` candidates, in order. */
  function Trace(serverName: string, addrs: seq<SocketAddr>, n: nat): (t: seq<Attempt>)
    requires n <= |addrs|
    ensures |t| == n
    ensures forall j :: 0 <= j < n ==> t[j].serverName == serverName && t[j].addr == addrs[j]
  {
    seq(n, j requires 0 <= j < n => Attempt(serverName, addrs[j]))
  }

  /**
   * `H3Connector::remote_connect`: dial the candidates in order, keeping only
   * the latest dial error; on the first successful dial return whatever
   * negotiation gives. `attempts` records every dialer call.
   */
  method RemoteConnect<Conn, Session>(
    c: Connector, addrs: seq<SocketAddr>, serverName: string,
    dial: Dialer<Conn>, negotiate: Conn -> Result<Session, string>
  ) returns (r: Result<Session, Error>, ghost attempts: seq<Attempt>)
    ensures r == Outcome(c, serverName, addrs, dial, negotiate)
    ensures attempts == Trace(serverName, addrs, DialCount(c, serverName, addrs, dial))
  {
    var err: Option<string> := None;
    attempts := [];
    for i := 0 to |addrs|
      invariant attempts == Trace(serverName, addrs, i)
      invariant forall j :: 0 <= j < i ==> dial(c.bind, serverName, addrs[j]).Failure?
      invariant err == if i == 0 then None else Some(dial(c.bind, serverName, addrs[i - 1]).error)
    {
      attempts := attempts + [Attempt(serverName, addrs[i])];
      match dial(c.bind, serverName, addrs[i])
      case Success(conn) =>
        assert FirstDialable(c, serverName, addrs, dial) == i;
        var negotiated := negotiate(conn);
        r := match negotiated
          case Success(s) => Success(s)
          case Failure(e) => Failure(NegotiationFailed(e));
        return;
      case Failure(e) =>
        err := Some(e);
    }
    match err
    case Some(e) => r := Failure(DialFailed(e));
    case None => r := Failure(NoConnection);
  }

  // ---------------------------------------------------------------------------
  // Properties of the fallback
  // ---------------------------------------------------------------------------

  /** Candidates that fail to dial shift the first successful index by their number. */
  lemma {:induction false} FirstDialableAfterFailures<Conn>(
    c: Connector, serverName: string, failed: seq<SocketAddr>, rest: seq<SocketAddr>, dial: Dialer<Conn>)
    requires forall j :: 0 <= j < |failed| ==> dial(c.bind, serverName, failed[j]).Failure?
    ensures FirstDialable(c, serverName, failed + rest, dial) == |failed| + FirstDialable(c, serverName, rest, dial)
  {
    var all := failed + rest;
    if failed == [] {
      assert all == rest;
    } else {
      assert all[0] == failed[0];
      assert all[1..] == failed[1..] + rest;
      FirstDialableAfterFailures(c, serverName, failed[1..], rest, dial);
    }
  }

  /**
   * Candidates that fail to dial before a non-empty remainder change nothing:
   * their errors are discarded and the outcome is that of the remainder, after
   * one extra dial each.
   */
  lemma FailedPrefixDiscarded<Conn, Session>(
    c: Connector, serverName: string, failed: seq<SocketAddr>, rest: seq<SocketAddr>,
    dial: Dialer<Conn>, negotiate: Conn -> Result<Session, string>)
    requires forall j :: 0 <= j < |failed| ==> dial(c.bind, serverName, failed[j]).Failure?
    requires rest != []
    ensures Outcome(c, serverName, failed + rest, dial, negotiate) == Outcome(c, serverName, rest, dial, negotiate)
    ensures DialCount(c, serverName, failed + rest, dial) == |failed| + DialCount(c, serverName, rest, dial)
  {
    var all := failed + rest;
    FirstDialableAfterFailures(c, serverName, failed, rest, dial);
    var k := FirstDialable(c, serverName, rest, dial);
    assert all[|all| - 1] == rest[|rest| - 1];
    if k < |rest| {
      assert all[|failed| + k] == rest[k];
    }
  }

  /**
   * Once a candidate dials, the candidates after it are never looked at:
   * appending more of them changes neither the outcome nor the dials made.
   */
  lemma {:induction false} LaterCandidatesIgnored<Conn, Session>(
    c: Connector, serverName: string, addrs: seq<SocketAddr>, more: seq<SocketAddr>,
    dial: Dialer<Conn>, negotiate: Conn -> Result<Session, string>)
    requires FirstDialable(c, serverName, addrs, dial) < |addrs|
    ensures Outcome(c, serverName, addrs + more, dial, negotiate) == Outcome(c, serverName, addrs, dial, negotiate)
    ensures DialCount(c, serverName, addrs + more, dial) == DialCount(c, serverName, addrs, dial)
  {
    var all := addrs + more;
    if dial(c.bind, serverName, addrs[0]).Failure? {
      assert all[0] == addrs[0];
      assert all[1..] == addrs[1..] + more;
      LaterCandidatesIgnored(c, serverName, addrs[1..], more, dial, negotiate);
    }
  }

  /**
   * When every candidate fails to dial, all of them are dialled and the error
   * is the last candidate's; the fixed "no connection" error comes from the
   * empty list and from nothing else.
   */
  lemma AllFailedReportsLast<Conn, Session>(
    c: Connector, serverName: string, addrs: seq<SocketAddr>,
    dial: Dialer<Conn>, negotiate: Conn -> Result<Session, string>)
    requires forall j :: 0 <= j < |addrs| ==> dial(c.bind, serverName, addrs[j]).Failure?
    ensures DialCount(c, serverName, addrs, dial) == |addrs|
    ensures addrs == [] ==> Outcome(c, serverName, addrs, dial, negotiate) == Failure(NoConnection)
    ensures addrs != [] ==>
      Outcome(c, serverName, addrs, dial, negotiate)
        == Failure(DialFailed(dial(c.bind, serverName, addrs[|addrs| - 1]).error))
  {
  }

  /** The fixed "no connection" error is reported exactly when there was no candidate. */
  lemma NoConnectionIffEmpty<Conn, Session>(
    c: Connector, serverName: string, addrs: seq<SocketAddr>,
    dial: Dialer<Conn>, negotiate: Conn -> Result<Session, string>)
    ensures Outcome(c, serverName, addrs, dial, negotiate) == Failure(NoConnection) <==> addrs == []
    ensures DialCount(c, serverName, addrs, dial) == 0 <==> addrs == []
  {
  }

  /**
   * A session is returned exactly when some candidate dials and negotiation on
   * the first such candidate succeeds.
   */
  lemma SuccessIffFirstDialNegotiates<Conn, Session>(
    c: Connector, serverName: string, addrs: seq<SocketAddr>,
    dial: Dialer<Conn>, negotiate: Conn -> Result<Session, string>)
    ensures Outcome(c, serverName, addrs, dial, negotiate).Success? <==>
      exists k :: 0 <= k < |addrs| && dial(c.bind, serverName, addrs[k]).Success?
        && (forall j :: 0 <= j < k ==> dial(c.bind, serverName, addrs[j]).Failure?)
        && negotiate(dial(c.bind, serverName, addrs[k]).value).Success?
  {
  }

  /**
   * Three candidates of which only the third dials: all three are dialled, in
   * order and under the same server name, and the session is the one
   * negotiated on the third.
   */
  lemma ThirdOfThreeWins<Conn, Session>(
    c: Connector, serverName: string, a: SocketAddr, b: SocketAddr, d: SocketAddr,
    dial: Dialer<Conn>, negotiate: Conn -> Result<Session, string>)
    requires dial(c.bind, serverName, a).Failure? && dial(c.bind, serverName, b).Failure?
    requires dial(c.bind, serverName, d).Success?
    ensures Trace(serverName, [a, b, d], DialCount(c, serverName, [a, b, d], dial))
      == [Attempt(serverName, a), Attempt(serverName, b), Attempt(serverName, d)]
    ensures Outcome(c, serverName, [a, b, d], dial, negotiate)
      == match negotiate(dial(c.bind, serverName, d).value)
         case Success(s) => Success(s)
         case Failure(e) => Failure(NegotiationFailed(e))
  {
  }

  /**
   * `H3Connector::connect`: normalise the destination, build the candidates,
   * then run the fallback. A failure before the candidate list exists
   * (missing host, bad name, resolver error) dials nothing.
   */
  method Connect<Conn, Session>(
    c: Connector, dest: Uri,
    parseIp: string -> Option<IpAddr>,
    parseName: string -> Result<Name, string>,
    resolve: Name -> Result<seq<SocketAddr>, string>,
    dial: Dialer<Conn>, negotiate: Conn -> Result<Session, string>
  ) returns (r: Result<Session, Error>, ghost attempts: seq<Attempt>)
    ensures dest.host.None? ==> r == Failure(MissingHost)
    ensures Candidates(dest, parseIp, parseName, resolve).Failure? ==>
      r == Failure(Candidates(dest, parseIp, parseName, resolve).error)
    ensures Candidates(dest, parseIp, parseName, resolve).Success? ==>
      var t := Candidates(dest, parseIp, parseName, resolve).value;
      r == Outcome(c, t.serverName, t.addrs, dial, negotiate)
    ensures attempts == match Candidates(dest, parseIp, parseName, resolve)
      case Failure(_) => []
      case Success(t) => Trace(t.serverName, t.addrs, DialCount(c, t.serverName, t.addrs, dial))
  {
    var target := Candidates(dest, parseIp, parseName, resolve);
    match target
    case Failure(e) =>
      r, attempts := Failure(e), [];
    case Success(t) =>
      r, attempts := RemoteConnect(c, t.addrs, t.serverName, dial, negotiate);
  }
}
