/** The incremental SOCKS5 server protocol (RFC 1928 sections 3 to 6, RFC 1929 section 2). */
module Socks {
  import opened Octets
  import opened Wrappers
  import opened Targets
  import F = Frames
  import Utf8

  const VERSION := 5
  const NO_AUTH := 0
  const USER_PASS := 2
  const NO_ACCEPTABLE := 0xFF
  const IPV4 := 1
  const DOMAIN := 3
  const IPV6 := 4
  const CONNECT := 1
  const NOT_SUPPORTED: Bytes := [5, 7, 0, 1, 0, 0, 0, 0, 0, 0]

  /**
   * What the protocol object is given: the authentication settings, the two text conversions of
   * the library, and the address part of the success reply, which comes from the socket.
   */
  datatype Config = Config(
    authRequired: bool, users: map<string, string>,
    lossy: Bytes -> string, ntop: Bytes -> string, bound: Bytes)
  {
    function Text(b: Bytes): string {
      F.Text(lossy, b)
    }
  }

  /**
   * The protocol object (state 0: handshake, 1: auth, 2: command, 3: established), with what it
   * wrote to its transport, the connections it handed on, and the writes it forwarded to them.
   */
  datatype Proto = Proto(
    buffer: Bytes, state: nat, host: string, port: nat, closing: bool, connClosed: bool,
    replies: seq<Bytes>, conns: seq<(string, nat)>, forwarded: seq<Bytes>)

  const INITIAL := Proto([], 0, "", 0, false, false, [], [], [])

  function Reply(s: Proto, data: Bytes): Proto {
    if s.closing then s else s.(replies := s.replies + [data])
  }

  function Hangup(s: Proto, data: Bytes): Proto {
    Reply(s, data).(closing := true)
  }

  function Handshake(cfg: Config, s: Proto): Proto {
    var buf := s.buffer;
    if |buf| < 3 then s
    else if buf[0] != VERSION then Hangup(s, [0xFF, NO_ACCEPTABLE])
    else
      var n: int := buf[1];
      if |buf| < 2 + n then s
      else
        var methods := buf[2..2 + n];
        if cfg.authRequired && USER_PASS in methods then
          Reply(s, [VERSION, USER_PASS]).(state := 1, buffer := [])
        else if !cfg.authRequired && NO_AUTH in methods then
          Reply(s, [VERSION, NO_AUTH]).(state := 2, buffer := [])
        else Hangup(s, [VERSION, NO_ACCEPTABLE])
  }

  predicate Knows(cfg: Config, user: string, password: string) {
    user in cfg.users && cfg.users[user] == password
  }

  function Auth(cfg: Config, s: Proto): Proto {
    var buf := s.buffer;
    if |buf| < 5 then s
    else if buf[0] != 1 then Hangup(s, [1, 0xFF])
    else
      var ulen: int := buf[1];
      if |buf| < 2 + ulen + 1 then s
      else
        var plen: int := buf[2 + ulen];
        if |buf| < 3 + ulen + plen then s
        else Judged(s, Knows(cfg, cfg.Text(buf[2..2 + ulen]), cfg.Text(buf[3 + ulen..3 + ulen + plen])))
  }

  function Judged(s: Proto, known: bool): Proto {
    if known then Reply(s, [1, 0]).(state := 2, buffer := []) else Hangup(s, [1, 0xFF])
  }

  /** `inet_ntoa` */
  function Dotted(b: Bytes): string
    requires |b| == 4
  {
    Decimal(b[0]) + "." + Decimal(b[1]) + "." + Decimal(b[2]) + "." + Decimal(b[3])
  }

  /** The address that follows the four header bytes, and where it ends; None asks for more data. */
  function ParseAddr(cfg: Config, buf: Bytes): Option<(string, nat)>
    requires |buf| >= 4
  {
    if buf[3] == IPV4 then
      if |buf| < 8 then None else Some((Dotted(buf[4..8]), 8))
    else if buf[3] == IPV6 then
      if |buf| < 20 then None else Some((cfg.ntop(buf[4..20]), 20))
    else if buf[3] == DOMAIN then
      if |buf| < 5 then None
      else
        var n: int := buf[4];
        if |buf| < 5 + n then None else Some((cfg.Text(buf[5..5 + n]), 5 + n))
    else Some(("", 4))
  }

  function Success(cfg: Config): Bytes {
    [VERSION, 0, 0] + cfg.bound
  }

  function Command(cfg: Config, s: Proto): Proto {
    var buf := s.buffer;
    if |buf| < 4 then s
    else if buf[0] != VERSION || buf[1] != CONNECT then Hangup(s, NOT_SUPPORTED)
    else
      match ParseAddr(cfg, buf)
      case None => s
      case Some(a) =>
        if |buf| < a.1 + 2 then s.(host := a.0)
        else
          var port := FromBigEndian(buf[a.1..a.1 + 2]);
          Reply(s, Success(cfg)).(host := a.0, port := port, buffer := [], state := 3,
                                  conns := s.conns + [(a.0, port)])
  }

  function Tunnel(s: Proto, data: Bytes): Proto {
    if s.conns != [] && !s.connClosed then s.(forwarded := s.forwarded + [data]) else s
  }

  /** `data_received` */
  function Received(cfg: Config, s: Proto, data: Bytes): Proto {
    var t := s.(buffer := s.buffer + data);
    if s.state == 0 then Handshake(cfg, t)
    else if s.state == 1 then Auth(cfg, t)
    else if s.state == 2 then Command(cfg, t)
    else if s.state == 3 then Tunnel(t, data)
    else t
  }

  class Protocol {
    const cfg: Config
    var buffer: Bytes
    var state: nat
    var targetHost: string
    var targetPort: nat
    var closing: bool
    var connClosed: bool
    var replies: seq<Bytes>
    var conns: seq<(string, nat)>
    var forwarded: seq<Bytes>

    constructor (cfg: Config)
      ensures this.cfg == cfg && Now() == INITIAL
    {
      this.cfg := cfg;
      buffer, state, targetHost, targetPort := [], 0, "", 0;
      closing, connClosed := false, false;
      replies, conns, forwarded := [], [], [];
    }

    function Now(): Proto
      reads this
    {
      Proto(buffer, state, targetHost, targetPort, closing, connClosed, replies, conns, forwarded)
    }

    method Write(data: Bytes)
      modifies `replies
      ensures Now() == Reply(old(Now()), data)
    {
      if !closing {
        replies := replies + [data];
      }
    }

    method DataReceived(data: Bytes)
      modifies this
      ensures Now() == Received(cfg, old(Now()), data)
    {
      hide Handshake, Auth, Command;
      buffer := buffer + data;
      if state == 0 {
        HandleHandshake();
      } else if state == 1 {
        HandleAuth();
      } else if state == 2 {
        HandleCommand();
      } else if state == 3 {
        if conns != [] && !connClosed {
          forwarded := forwarded + [data];
        }
      }
    }

    method HandleHandshake()
      modifies this
      ensures Now() == Handshake(cfg, old(Now()))
    {
      if |buffer| < 3 {
        return;
      }
      if buffer[0] != VERSION {
        Write([0xFF, NO_ACCEPTABLE]);
        closing := true;
        return;
      }
      var n: int := buffer[1];
      if |buffer| < 2 + n {
        return;
      }
      var methods := buffer[2..2 + n];
      if cfg.authRequired && USER_PASS in methods {
        Write([VERSION, USER_PASS]);
        state := 1;
      } else if !cfg.authRequired && NO_AUTH in methods {
        Write([VERSION, NO_AUTH]);
        state := 2;
      } else {
        Write([VERSION, NO_ACCEPTABLE]);
        closing := true;
        return;
      }
      buffer := [];
    }

    method HandleAuth()
      modifies this
      ensures Now() == Auth(cfg, old(Now()))
    {
      hide Knows, Judged, Reply, Config.Text;
      if |buffer| < 5 {
        return;
      }
      if buffer[0] != 1 {
        Write([1, 0xFF]);
        closing := true;
        return;
      }
      var ulen: int := buffer[1];
      if |buffer| < 2 + ulen + 1 {
        return;
      }
      var uname := cfg.Text(buffer[2..2 + ulen]);
      var off := 2 + ulen;
      var plen: int := buffer[off];
      off := off + 1;
      if |buffer| < off + plen {
        return;
      }
      var passwd := cfg.Text(buffer[off..off + plen]);
      Judge(Knows(cfg, uname, passwd));
    }

    /** The end of `_handle_auth`, once the credentials have been read. */
    method Judge(known: bool)
      modifies this
      ensures Now() == Judged(old(Now()), known)
    {
      if !known {
        Write([1, 0xFF]);
        closing := true;
        return;
      }
      Write([1, 0]);
      state := 2;
      buffer := [];
    }

    method HandleCommand()
      modifies this
      ensures Now() == Command(cfg, old(Now()))
    {
      hide ParseAddr;
      if |buffer| < 4 {
        return;
      }
      if buffer[0] != VERSION || buffer[1] != CONNECT {
        Write(NOT_SUPPORTED);
        closing := true;
        return;
      }
      var addr := ParseAddr(cfg, buffer);
      if addr.None? {
        return;
      }
      targetHost := addr.value.0;
      var end := addr.value.1;
      if |buffer| < end + 2 {
        return;
      }
      targetPort := FromBigEndian(buffer[end..end + 2]);
      buffer := [];
      if !closing {
        Write(Success(cfg));
      }
      state := 3;
      conns := conns + [(targetHost, targetPort)];
    }
  }

  // ----- the messages of a client that keeps to the protocol -----

  predicate ValidGreeting(cfg: Config, m: Bytes) {
    && |m| >= 3 && m[0] == VERSION
    && var n: int := m[1];
    && |m| == 2 + n
    && (if cfg.authRequired then USER_PASS else NO_AUTH) in m[2..]
  }

  predicate ValidAuth(cfg: Config, m: Bytes) {
    && |m| >= 5 && m[0] == 1
    && var ulen: int := m[1];
    && ulen >= 1 && |m| >= 3 + ulen
    && var plen: int := m[2 + ulen];
    && plen >= 1 && |m| == 3 + ulen + plen
    && (cfg.Text(m[2..2 + ulen]), cfg.Text(m[3 + ulen..])) in cfg.users.Items
  }

  predicate ValidConnect(m: Bytes) {
    && |m| >= 7 && m[0] == VERSION && m[1] == CONNECT
    && var n: int := m[4];
    && |m| == (if m[3] == IPV4 then 10 else if m[3] == IPV6 then 22 else 7 + n)
    && (m[3] == IPV4 || m[3] == IPV6 || m[3] == DOMAIN)
  }

  function HostIn(cfg: Config, m: Bytes): string
    requires ValidConnect(m)
  {
    var address := m[4..|m| - 2];
    if m[3] == IPV4 then Dotted(address)
    else if m[3] == IPV6 then cfg.ntop(address)
    else cfg.Text(address[1..])
  }

  function PortIn(m: Bytes): nat
    requires ValidConnect(m)
  {
    FromBigEndian(m[|m| - 2..])
  }

  function Message(cfg: Config, state: nat, s: Proto): Proto {
    if state == 0 then Handshake(cfg, s) else if state == 1 then Auth(cfg, s) else Command(cfg, s)
  }

  predicate ValidMessage(cfg: Config, state: nat, m: Bytes) {
    if state == 0 then ValidGreeting(cfg, m)
    else if state == 1 then ValidAuth(cfg, m)
    else state == 2 && ValidConnect(m)
  }

  /** The state once a valid message has been read. */
  function Accepted(cfg: Config, s: Proto, m: Bytes): Proto
    requires ValidMessage(cfg, s.state, m)
  {
    if s.state == 0 then
      if cfg.authRequired then Reply(s, [VERSION, USER_PASS]).(state := 1, buffer := [])
      else Reply(s, [VERSION, NO_AUTH]).(state := 2, buffer := [])
    else if s.state == 1 then Reply(s, [1, 0]).(state := 2, buffer := [])
    else
      var host, port := HostIn(cfg, m), PortIn(m);
      Reply(s, Success(cfg)).(host := host, port := port, buffer := [], state := 3, conns := s.conns + [(host, port)])
  }

  /** A message not yet complete leaves everything as it is, but for the host it may note early. */
  lemma PartIsInert(cfg: Config, s: Proto, m: Bytes, k: nat)
    requires ValidMessage(cfg, s.state, m) && k < |m| && s.buffer == m[..k]
    ensures Message(cfg, s.state, s).(host := s.host) == s
  {
    hide Dotted, FromBigEndian, Config.Text;
  }

  /** A complete message is accepted, and whatever came behind it in the buffer is dropped. */
  lemma WholeIsAccepted(cfg: Config, s: Proto, m: Bytes, tail: Bytes)
    requires ValidMessage(cfg, s.state, m) && s.buffer == m + tail
    ensures Message(cfg, s.state, s) == Accepted(cfg, s, m)
  {
    hide Dotted, FromBigEndian, Config.Text;
    if s.state == 0 {
      assert s.buffer[2..|m|] == m[2..];
    } else if s.state == 1 {
      var ulen: int := m[1];
      assert s.buffer[2..2 + ulen] == m[2..2 + ulen];
      assert s.buffer[3 + ulen..|m|] == m[3 + ulen..];
    } else {
      var address := m[4..|m| - 2];
      assert s.buffer[4..|m| - 2] == address;
      assert s.buffer[|m| - 2..|m|] == m[|m| - 2..];
      if m[3] == DOMAIN {
        assert s.buffer[5..|m| - 2] == address[1..];
      }
    }
  }

  // ----- chunks -----

  /** The protocol object after receiving the chunks one after the other. */
  function Feed(cfg: Config, s: Proto, chunks: seq<Bytes>): Proto {
    if chunks == [] then s
    else Received(cfg, Feed(cfg, s, chunks[..|chunks| - 1]), chunks[|chunks| - 1])
  }

  lemma {:induction false} FeedAppend(cfg: Config, s: Proto, a: seq<Bytes>, b: seq<Bytes>)
    ensures Feed(cfg, s, a + b) == Feed(cfg, Feed(cfg, s, a), b)
  {
    hide Received;
    if b == [] {
      assert a + b == a;
    } else {
      assert (a + b)[..|a + b| - 1] == a + b[..|b| - 1];
      FeedAppend(cfg, s, a, b[..|b| - 1]);
    }
  }

  predicate NonEmpty(chunks: seq<Bytes>) {
    forall i | 0 <= i < |chunks| :: chunks[i] != []
  }

  lemma ConcatOne(chunk: Bytes)
    ensures Concat([chunk]) == chunk
  {
    var one := [chunk];
    assert one[1..] == [];
    assert chunk + [] == chunk;
  }

  lemma ConcatLast(chunks: seq<Bytes>)
    requires chunks != []
    ensures Concat(chunks) == Concat(chunks[..|chunks| - 1]) + chunks[|chunks| - 1]
  {
    var init, last := chunks[..|chunks| - 1], chunks[|chunks| - 1];
    ConcatOne(last);
    hide Concat;
    assert chunks == init + [last];
    ConcatAppend(init, [last]);
  }

  lemma ReceivedMessage(cfg: Config, s: Proto, data: Bytes)
    requires s.state <= 2
    ensures Received(cfg, s, data) == Message(cfg, s.state, s.(buffer := s.buffer + data))
  {
  }

  /** While a message is incomplete the chunks only collect in the buffer. */
  lemma {:induction false} PartsCollect(cfg: Config, s: Proto, m: Bytes, chunks: seq<Bytes>)
    requires s.state <= 2 && ValidMessage(cfg, s.state, m) && s.buffer == []
    requires |Concat(chunks)| < |m| && Concat(chunks) == m[..|Concat(chunks)|]
    ensures Feed(cfg, s, chunks).(host := s.host) == s.(buffer := Concat(chunks))
  {
    hide Received, Message, ValidMessage;
    if chunks != [] {
      var init, last := chunks[..|chunks| - 1], chunks[|chunks| - 1];
      ConcatLast(chunks);
      assert Concat(init) == m[..|Concat(init)|];
      PartsCollect(cfg, s, m, init);
      var t := Feed(cfg, s, init);
      assert t.state == s.state;
      ReceivedMessage(cfg, t, last);
      PartIsInert(cfg, t.(buffer := Concat(chunks)), m, |Concat(chunks)|);
    }
  }

  /** The state after a message does not depend on the host noted on the way. */
  lemma AcceptedIgnoresHost(cfg: Config, s: Proto, m: Bytes, t: Proto)
    requires ValidMessage(cfg, s.state, m) && t.(host := s.host) == s.(buffer := t.buffer)
    requires s.state <= 1 ==> t.host == s.host
    ensures Accepted(cfg, t, m) == Accepted(cfg, s, m)
  {
  }

  lemma {:induction false} HostUntouched(cfg: Config, s: Proto, chunks: seq<Bytes>)
    requires s.state <= 1
    ensures Feed(cfg, s, chunks).state <= 1 ==> Feed(cfg, s, chunks).host == s.host
  {
    hide Config.Text;
    if chunks != [] {
      HostUntouched(cfg, s, chunks[..|chunks| - 1]);
      StateGrows(cfg, Feed(cfg, s, chunks[..|chunks| - 1]), chunks[|chunks| - 1]);
    }
  }

  lemma StateGrows(cfg: Config, s: Proto, data: Bytes)
    ensures s.state <= Received(cfg, s, data).state
    ensures s.state <= 1 ==> Received(cfg, s, data).host == s.host
  {
    hide Config.Text, ParseAddr;
  }

  /** However a message is cut into chunks, it is accepted when the last of them arrives. */
  lemma MessageInChunks(cfg: Config, s: Proto, m: Bytes, chunks: seq<Bytes>)
    requires s.state <= 2 && ValidMessage(cfg, s.state, m) && s.buffer == []
    requires NonEmpty(chunks) && Concat(chunks) == m
    ensures Feed(cfg, s, chunks) == Accepted(cfg, s, m)
  {
    hide Received, Message, ValidMessage, Accepted;
    assert chunks != [] by { MessageNotEmpty(cfg, s.state, m); }
    var init, last := chunks[..|chunks| - 1], chunks[|chunks| - 1];
    ConcatLast(chunks);
    assert Concat(init) == m[..|Concat(init)|];
    PartsCollect(cfg, s, m, init);
    var t := Feed(cfg, s, init);
    if s.state <= 1 {
      HostUntouched(cfg, s, init);
    }
    ReceivedMessage(cfg, t, last);
    assert m + [] == m;
    WholeIsAccepted(cfg, t.(buffer := m), m, []);
    AcceptedIgnoresHost(cfg, s, m, t.(buffer := m));
  }

  lemma MessageNotEmpty(cfg: Config, state: nat, m: Bytes)
    requires ValidMessage(cfg, state, m)
    ensures m != []
  {
  }

  /** Once established, every chunk is forwarded as it is, and kept in the buffer as well. */
  lemma {:induction false} TunnelForwards(cfg: Config, s: Proto, chunks: seq<Bytes>)
    requires s.state == 3 && s.conns != [] && !s.connClosed
    ensures Feed(cfg, s, chunks) == s.(forwarded := s.forwarded + chunks, buffer := s.buffer + Concat(chunks))
  {
    if chunks == [] {
      assert s.forwarded + [] == s.forwarded && s.buffer + [] == s.buffer;
    } else {
      var init, last := chunks[..|chunks| - 1], chunks[|chunks| - 1];
      TunnelForwards(cfg, s, init);
      ConcatLast(chunks);
      assert s.forwarded + init + [last] == s.forwarded + chunks;
      assert s.buffer + Concat(init) + last == s.buffer + Concat(chunks);
    }
  }

  /** The greeting, the credentials if they are asked for, and the request. */
  predicate ValidOpening(cfg: Config, greeting: Bytes, credentials: Bytes, request: Bytes) {
    && ValidGreeting(cfg, greeting)
    && (if cfg.authRequired then ValidAuth(cfg, credentials) else credentials == [])
    && ValidConnect(request)
  }

  function Established(cfg: Config, request: Bytes): Proto
    requires ValidConnect(request)
  {
    var host, port := HostIn(cfg, request), PortIn(request);
    var replies := if cfg.authRequired then [[VERSION, USER_PASS], [1, 0], Success(cfg)]
                   else [[VERSION, NO_AUTH], Success(cfg)];
    Proto([], 3, host, port, false, false, replies, [(host, port)], [])
  }

  lemma AcceptedInTurn(cfg: Config, greeting: Bytes, credentials: Bytes, request: Bytes)
    requires ValidOpening(cfg, greeting, credentials, request)
    ensures var a := Accepted(cfg, INITIAL, greeting);
            if cfg.authRequired then
              && a.state == 1 && a.buffer == []
              && var b := Accepted(cfg, a, credentials);
              && b.state == 2 && b.buffer == []
              && Accepted(cfg, b, request) == Established(cfg, request)
            else
              a.state == 2 && a.buffer == [] && Accepted(cfg, a, request) == Established(cfg, request)
  {
    hide HostIn, PortIn, ValidGreeting, ValidAuth, ValidConnect;
  }

  /**
   * However a client's messages are cut into chunks that keep to message boundaries, the replies
   * are the same, exactly one connection is opened, to the host and port asked for, and the
   * chunks that follow are forwarded unchanged.
   */
  lemma ChunkingIndependence(cfg: Config, greeting: Bytes, credentials: Bytes, request: Bytes,
                             g: seq<Bytes>, a: seq<Bytes>, c: seq<Bytes>, t: seq<Bytes>)
    requires ValidOpening(cfg, greeting, credentials, request)
    requires NonEmpty(g) && NonEmpty(a) && NonEmpty(c)
    requires Concat(g) == greeting && Concat(a) == credentials && Concat(c) == request
    ensures Feed(cfg, INITIAL, g + a + c + t) == Established(cfg, request).(forwarded := t, buffer := Concat(t))
  {
    hide Accepted, Established, ValidGreeting, ValidAuth, ValidConnect;
    FeedAppend(cfg, INITIAL, g + a + c, t);
    FeedAppend(cfg, INITIAL, g + a, c);
    FeedAppend(cfg, INITIAL, g, a);
    AcceptedInTurn(cfg, greeting, credentials, request);
    MessageInChunks(cfg, INITIAL, greeting, g);
    var s := Accepted(cfg, INITIAL, greeting);
    if cfg.authRequired {
      MessageInChunks(cfg, s, credentials, a);
      MessageInChunks(cfg, Accepted(cfg, s, credentials), request, c);
    } else {
      NoChunks(a);
      MessageInChunks(cfg, s, request, c);
    }
    EstablishedState(cfg, request);
    TunnelForwards(cfg, Established(cfg, request), t);
  }

  lemma NoChunks(chunks: seq<Bytes>)
    requires NonEmpty(chunks) && Concat(chunks) == []
    ensures chunks == []
  {
  }

  lemma EstablishedState(cfg: Config, request: Bytes)
    requires ValidConnect(request)
    ensures var e := Established(cfg, request);
            && e.state == 3 && e.conns != [] && !e.connClosed && e.forwarded == [] && e.buffer == []
            && (forall t: seq<Bytes> :: [] + t == t) && (forall b: Bytes :: [] + b == b)
  {
  }

  /** Bytes that arrive in one chunk behind the end of a message are lost. */
  lemma TailIsDropped(cfg: Config, s: Proto, m: Bytes, data: Bytes, tail: Bytes)
    requires s.state <= 2 && ValidMessage(cfg, s.state, m) && s.buffer + data == m
    ensures Received(cfg, s, data + tail) == Received(cfg, s, data)
  {
    hide Message, ValidMessage, Accepted;
    assert s.buffer + (data + tail) == m + tail;
    assert m + [] == m;
    ReceivedMessage(cfg, s, data + tail);
    ReceivedMessage(cfg, s, data);
    WholeIsAccepted(cfg, s.(buffer := m + tail), m, tail);
    WholeIsAccepted(cfg, s.(buffer := m), m, []);
    SameAccepted(cfg, s, m, m + tail);
  }

  lemma SameAccepted(cfg: Config, s: Proto, m: Bytes, b: Bytes)
    requires ValidMessage(cfg, s.state, m)
    ensures Accepted(cfg, s.(buffer := b), m) == Accepted(cfg, s.(buffer := m), m)
  {
  }

  // ----- authentication -----

  /** The buffer starts with a credentials message whose name and password are a pair of `users`. */
  predicate ProvesUser(cfg: Config, b: Bytes) {
    && |b| >= 5 && b[0] == 1
    && var ulen: int := b[1];
    && |b| >= 3 + ulen
    && var plen: int := b[2 + ulen];
    && |b| >= 3 + ulen + plen
    && (cfg.Text(b[2..2 + ulen]), cfg.Text(b[3 + ulen..3 + ulen + plen])) in cfg.users.Items
  }

  /**
   * A complete credentials message opens the way to a request if and only if its name and password
   * are one of the pairs of `users`; any other is answered with 01 FF and a hang-up.
   */
  lemma AuthDecides(cfg: Config, s: Proto, data: Bytes)
    requires var b := s.buffer + data;
             && s.state == 1 && !s.closing && |b| >= 5 && b[0] == 1
             && var ulen: int := b[1];
             && |b| >= 3 + ulen
             && var plen: int := b[2 + ulen];
             |b| >= 3 + ulen + plen
    ensures var r, b := Received(cfg, s, data), s.buffer + data;
            var ulen: int := b[1];
            var plen: int := b[2 + ulen];
            var pair := (cfg.Text(b[2..2 + ulen]), cfg.Text(b[3 + ulen..3 + ulen + plen]));
            if pair in cfg.users.Items then r == s.(state := 2, buffer := [], replies := s.replies + [[1, 0]])
            else r == s.(buffer := b, closing := true, replies := s.replies + [[1, 0xFF]])
  {
    hide Config.Text;
  }

  /** The k-th chunk completed a credentials message of a known user. */
  predicate ProvenBy(cfg: Config, chunks: seq<Bytes>, k: nat)
    requires k < |chunks|
  {
    var s := Feed(cfg, INITIAL, chunks[..k]);
    s.state == 1 && ProvesUser(cfg, s.buffer + chunks[k])
  }

  lemma StepNeedsProof(cfg: Config, s: Proto, data: Bytes)
    requires cfg.authRequired && Received(cfg, s, data).state >= 2
    ensures s.state >= 2 || (s.state == 1 && ProvesUser(cfg, s.buffer + data))
  {
    hide ParseAddr;
  }

  /**
   * Whatever arrives, in whatever chunks: where authentication is required, no connection is opened
   * before some client message proved a known user; and never more than one is opened.
   */
  lemma {:induction false} NoTunnelWithoutProof(cfg: Config, chunks: seq<Bytes>)
    requires cfg.authRequired && Feed(cfg, INITIAL, chunks).state >= 2
    ensures exists k | 0 <= k < |chunks| :: ProvenBy(cfg, chunks, k)
  {
    hide Received, ProvesUser;
    if chunks != [] {
      var init, n := chunks[..|chunks| - 1], |chunks| - 1;
      var s := Feed(cfg, INITIAL, init);
      StepNeedsProof(cfg, s, chunks[n]);
      if s.state >= 2 {
        NoTunnelWithoutProof(cfg, init);
        var k :| 0 <= k < |init| && ProvenBy(cfg, init, k);
        assert init[..k] == chunks[..k] && init[k] == chunks[k];
        assert ProvenBy(cfg, chunks, k);
      } else {
        assert ProvenBy(cfg, chunks, n);
      }
    }
  }

  lemma {:induction false} OneConnection(cfg: Config, chunks: seq<Bytes>)
    ensures var s := Feed(cfg, INITIAL, chunks);
            && s.state <= 3
            && |s.conns| == (if s.state == 3 then 1 else 0)
            && (s.state == 3 ==> s.conns == [(s.host, s.port)])
  {
    if chunks != [] {
      OneConnection(cfg, chunks[..|chunks| - 1]);
      OneConnectionStep(cfg, Feed(cfg, INITIAL, chunks[..|chunks| - 1]), chunks[|chunks| - 1]);
      hide Received;
    }
  }

  lemma OneConnectionStep(cfg: Config, s: Proto, data: Bytes)
    requires s.state <= 3 && |s.conns| == (if s.state == 3 then 1 else 0)
    requires s.state == 3 ==> s.conns == [(s.host, s.port)]
    ensures var r := Received(cfg, s, data);
            && r.state <= 3 && |r.conns| == (if r.state == 3 then 1 else 0)
            && (r.state == 3 ==> r.conns == [(r.host, r.port)])
  {
    hide Config.Text, ParseAddr, FromBigEndian;
  }

  // ----- the address asked for -----

  /** `s.split(c)` */
  function Split(s: string, c: char): (parts: seq<string>)
    ensures |parts| >= 1
  {
    if s == "" then [""]
    else
      var parts, last := Split(s[..|s| - 1], c), s[|s| - 1];
      if last == c then parts + [""] else parts[..|parts| - 1] + [parts[|parts| - 1] + [last]]
  }

  lemma {:induction false} SplitOnce(s: string, c: char, t: string)
    requires c !in t
    ensures Split(s + [c] + t, c) == Split(s, c) + [t]
  {
    var u := s + [c] + t;
    if t == "" {
      assert u[..|u| - 1] == s && u[|u| - 1] == c;
    } else {
      var init := t[..|t| - 1];
      assert u[..|u| - 1] == s + [c] + init && u[|u| - 1] == t[|t| - 1];
      assert c !in init && t[|t| - 1] in t;
      SplitOnce(s, c, init);
      assert init + [t[|t| - 1]] == t;
    }
  }

  lemma {:induction false} SplitNowhere(t: string, c: char)
    requires c !in t
    ensures Split(t, c) == [t]
  {
    if t != "" {
      assert t[|t| - 1] in t;
      SplitNowhere(t[..|t| - 1], c);
      assert t[..|t| - 1] + [t[|t| - 1]] == t;
    }
  }

  lemma OctetReadsBack(n: byte)
    ensures '.' !in Decimal(n) && PyInt(Decimal(n)) == Some(n)
  {
    PortLength(n);
    DecimalRoundTrip(n);
    DecimalDigits(n);
    var s := Decimal(n);
    forall i | 0 <= i < |s|
      ensures s[i] != '.'
    {
      assert IsDigit(s[i]);
    }
  }

  /** The text of an IPv4 address: four parts between dots, and the i-th reads as the i-th octet. */
  lemma DottedReadsBack(b: Bytes)
    requires |b| == 4
    ensures var parts := Split(Dotted(b), '.');
            |parts| == 4 && forall i | 0 <= i < 4 :: PyInt(parts[i]) == Some(b[i])
  {
    hide PyInt, Decimal, Split;
    var x, y, z, u := Decimal(b[0]), Decimal(b[1]), Decimal(b[2]), Decimal(b[3]);
    OctetReadsBack(b[0]);
    OctetReadsBack(b[1]);
    OctetReadsBack(b[2]);
    OctetReadsBack(b[3]);
    SplitNowhere(x, '.');
    SplitOnce(x, '.', y);
    SplitOnce(x + "." + y, '.', z);
    SplitOnce(x + "." + y + "." + z, '.', u);
    assert [x] + [y] + [z] + [u] == [x, y, z, u];
  }

  /** What a complete request leads to: a success reply, and a connection to its host and port. */
  lemma RequestOpens(cfg: Config, s: Proto, reserved: byte, atyp: byte, address: Bytes, hi: byte, lo: byte)
    requires s.state == 2 && s.buffer == [] && !s.closing
    requires (atyp == 1 && |address| == 4) || (atyp == 4 && |address| == 16)
             || (atyp == 3 && |address| > 0 && |address| - 1 == address[0])
    ensures var r := Received(cfg, s, [5, 1, reserved, atyp] + address + [hi, lo]);
            && r.state == 3 && !r.closing && r.buffer == []
            && r.replies == s.replies + [[5, 0, 0] + cfg.bound]
            && |r.conns| == |s.conns| + 1 && r.conns[..|s.conns|] == s.conns
            && var (host, port) := r.conns[|s.conns|];
            && port == 256 * hi + lo
            && (atyp == 4 ==> host == cfg.ntop(address))
            && (atyp == 3 ==> host == cfg.Text(address[1..]))
            && (atyp == 1 ==> host == Dotted(address))
            && (atyp == 1 ==>
                  var parts := Split(host, '.');
                  |parts| == 4 && forall i | 0 <= i < 4 :: PyInt(parts[i]) == Some(address[i]))
  {
    hide Dotted, FromBigEndian, Config.Text, Split, PyInt, ParseAddr;
    var b := [5, 1, reserved, atyp] + address + [hi, lo];
    var n := 4 + |address|;
    assert s.buffer + b == b;
    assert b[n..n + 2] == [hi, lo];
    AddressIsRead(cfg, reserved, atyp, address, [hi, lo]);
    if atyp == 1 {
      DottedReadsBack(address);
    }
    TwoBytes(hi, lo);
  }

  lemma AddressIsRead(cfg: Config, reserved: byte, atyp: byte, address: Bytes, rest: Bytes)
    requires (atyp == 1 && |address| == 4) || (atyp == 4 && |address| == 16)
             || (atyp == 3 && |address| > 0 && |address| - 1 == address[0])
    ensures var a := ParseAddr(cfg, [5, 1, reserved, atyp] + address + rest);
            && a.Some? && a.value.1 == 4 + |address|
            && (atyp == 1 ==> a.value.0 == Dotted(address))
            && (atyp == 4 ==> a.value.0 == cfg.ntop(address))
            && (atyp == 3 ==> a.value.0 == cfg.Text(address[1..]))
  {
    hide Dotted, Config.Text;
    var b, n := [5, 1, reserved, atyp] + address + rest, 4 + |address|;
    assert b[4..n] == address && b[4] == address[0];
    if atyp == 3 {
      assert b[5..n] == address[1..];
    }
  }

  lemma TwoBytes(hi: byte, lo: byte)
    ensures FromBigEndian([hi, lo]) == 256 * hi + lo
  {
    assert [hi, lo][..1] == [hi] && [hi][..0] == [];
    assert FromBigEndian([hi]) == hi;
  }

  /** A domain name comes through as it was written, whatever its characters. */
  lemma DomainComesThrough(cfg: Config, s: Proto, reserved: byte, host: string, hi: byte, lo: byte)
    requires s.state == 2 && s.buffer == [] && !s.closing && |Utf8.Encode(host)| < 256
    ensures var text := Utf8.Encode(host);
            var r := Received(cfg, s, [5, 1, reserved, 3] + ([|text|] + text) + [hi, lo]);
            r.state == 3 && r.conns == s.conns + [(host, 256 * hi + lo)]
  {
    hide Received, Utf8.Encode;
    var text := Utf8.Encode(host);
    var r := Received(cfg, s, [5, 1, reserved, 3] + ([|text|] + text) + [hi, lo]);
    RequestOpens(cfg, s, reserved, 3, [|text|] + text, hi, lo);
    assert ([|text|] + text)[1..] == text;
    Utf8.RoundTrip(host);
    assert cfg.Text(text) == host;
    var last := r.conns[|s.conns|];
    assert last.0 == host && last.1 == 256 * hi + lo;
    assert r.conns == r.conns[..|s.conns|] + [last];
  }

  lemma FeedOne(cfg: Config, a: Bytes)
    ensures Feed(cfg, INITIAL, [a]) == Received(cfg, INITIAL, a)
  {
    assert [a][..0] == [];
  }

  lemma FeedTwo(cfg: Config, a: Bytes, b: Bytes)
    ensures Feed(cfg, INITIAL, [a, b]) == Received(cfg, Received(cfg, INITIAL, a), b)
  {
    hide Received;
    assert [a, b][..1] == [a];
    FeedOne(cfg, a);
  }

  /** Greetings as the bytes they are: accepted without and with authentication, and refused. */
  lemma Greetings(cfg: Config)
    ensures !cfg.authRequired ==>
              Received(cfg, INITIAL, [5, 2, 0, 2]) == INITIAL.(state := 2, replies := [[5, 0]])
    ensures cfg.authRequired ==>
              Received(cfg, INITIAL, [5, 2, 0, 2]) == INITIAL.(state := 1, replies := [[5, 2]])
    ensures Received(cfg, INITIAL, [4, 1, 0]).replies == [[0xFF, 0xFF]]
    ensures Received(cfg, INITIAL, [5, 1, 1]).replies == [[5, 0xFF]]
    ensures Received(cfg, INITIAL, [4, 1, 0]).closing && Received(cfg, INITIAL, [5, 1, 1]).closing
  {
    assert forall b: Bytes :: [] + b == b;
    assert forall b: Bytes :: [] + [b] == [b];
    var m: Bytes := [5, 2, 0, 2];
    assert m[2..4] == [0, 2];
  }

  lemma DottedLiteral()
    ensures Dotted([10, 20, 30, 40]) == "10.20.30.40"
  {
    assert Decimal(1) == "1" && Decimal(2) == "2" && Decimal(3) == "3" && Decimal(4) == "4";
    assert Decimal(10) == "10" && Decimal(20) == "20" && Decimal(30) == "30" && Decimal(40) == "40";
  }

  /** A whole conversation without authentication, byte by byte. */
  lemma Conversation(cfg: Config)
    requires !cfg.authRequired
    ensures var s := Feed(cfg, INITIAL, [[5, 2, 0, 2], [5, 1, 0, 1, 10, 20, 30, 40, 1, 0xBB]]);
            && s.replies == [[5, 0], [5, 0, 0] + cfg.bound]
            && s.conns == [("10.20.30.40", 443)]
  {
    hide Received, Feed;
    Greetings(cfg);
    FeedTwo(cfg, [5, 2, 0, 2], [5, 1, 0, 1, 10, 20, 30, 40, 1, 0xBB]);
    RequestLiteral(cfg, INITIAL.(state := 2, replies := [[5, 0]]));
  }

  lemma RequestLiteral(cfg: Config, s: Proto)
    requires s.state == 2 && s.buffer == [] && !s.closing && s.replies == [[5, 0]] && s.conns == []
    ensures var r := Received(cfg, s, [5, 1, 0, 1, 10, 20, 30, 40, 1, 0xBB]);
            r.replies == [[5, 0], [5, 0, 0] + cfg.bound] && r.conns == [("10.20.30.40", 443)]
  {
    DottedLiteral();
    hide Received, Dotted, Split, PyInt;
    var address: Bytes := [10, 20, 30, 40];
    RequestOpens(cfg, s, 0, 1, address, 1, 0xBB);
    assert [5, 1, 0, 1] + address + [1, 0xBB] == [5, 1, 0, 1, 10, 20, 30, 40, 1, 0xBB];
    assert [[5, 0]] + [[5, 0, 0] + cfg.bound] == [[5, 0], [5, 0, 0] + cfg.bound];
    var r := Received(cfg, s, [5, 1, 0, 1, 10, 20, 30, 40, 1, 0xBB]);
    assert r.conns[0].0 == Dotted(address) && r.conns[0].1 == 443;
    assert r.conns == [r.conns[0]];
  }

  /** Once the connection is closed, nothing is forwarded. */
  lemma {:induction false} ClosedForwardsNothing(cfg: Config, s: Proto, chunks: seq<Bytes>)
    requires s.state == 3 && s.connClosed
    ensures Feed(cfg, s, chunks) == s.(buffer := s.buffer + Concat(chunks))
  {
    if chunks == [] {
      assert s.buffer + [] == s.buffer;
    } else {
      var init, last := chunks[..|chunks| - 1], chunks[|chunks| - 1];
      ClosedForwardsNothing(cfg, s, init);
      ConcatLast(chunks);
      assert s.buffer + Concat(init) + last == s.buffer + Concat(chunks);
    }
  }

  // ----- refusals -----

  /** The message at the front of the buffer, as far as it is there, is one the protocol refuses. */
  predicate Refuses(cfg: Config, state: nat, b: Bytes) {
    if state == 0 then
      && |b| >= 3
      && var n: int := b[1];
      && (b[0] != VERSION
          || (|b| >= 2 + n && (if cfg.authRequired then USER_PASS else NO_AUTH) !in b[2..2 + n]))
    else if state == 1 then
      && |b| >= 5
      && (b[0] != 1
          || (var ulen: int := b[1];
              && |b| >= 3 + ulen
              && var plen: int := b[2 + ulen];
              && |b| >= 3 + ulen + plen
              && (cfg.Text(b[2..2 + ulen]), cfg.Text(b[3 + ulen..3 + ulen + plen])) !in cfg.users.Items))
    else state == 2 && |b| >= 4 && (b[0] != VERSION || b[1] != CONNECT)
  }

  /** The reply to a refused message. */
  function Refusal(state: nat, b: Bytes): Bytes
    requires |b| > 0
  {
    if state == 0 then if b[0] != VERSION then [0xFF, NO_ACCEPTABLE] else [VERSION, NO_ACCEPTABLE]
    else if state == 1 then [1, 0xFF]
    else NOT_SUPPORTED
  }

  lemma RefusesExtends(cfg: Config, state: nat, b: Bytes, data: Bytes)
    requires Refuses(cfg, state, b)
    ensures Refuses(cfg, state, b + data) && Refusal(state, b + data) == Refusal(state, b)
  {
    hide Config.Text;
    if state == 0 {
      var n: int := b[1];
      if |b| >= 2 + n {
        PrefixSlice(b, data, 2, 2 + n);
      }
    } else if state == 1 {
      var ulen: int := b[1];
      if |b| >= 3 + ulen {
        var plen: int := b[2 + ulen];
        if |b| >= 3 + ulen + plen {
          PrefixSlice(b, data, 2, 2 + ulen);
          PrefixSlice(b, data, 3 + ulen, 3 + ulen + plen);
        }
      }
    }
  }

  /** The transport is closing exactly when the buffer holds a refused message, and that was answered. */
  ghost predicate RefusalState(cfg: Config, s: Proto) {
    && (s.closing <==> s.state <= 2 && Refuses(cfg, s.state, s.buffer))
    && (s.closing ==> s.replies != [] && s.replies[|s.replies| - 1] == Refusal(s.state, s.buffer))
  }

  /** A handler hangs up on a refused message, and otherwise waits or moves on with an empty buffer. */
  lemma MessageOutcome(cfg: Config, s: Proto)
    requires s.state <= 2
    ensures var r := Message(cfg, s.state, s);
            if Refuses(cfg, s.state, s.buffer) then r == Hangup(s, Refusal(s.state, s.buffer))
            else r.closing == s.closing && ((r.state == s.state && r.buffer == s.buffer)
                                            || (s.state < r.state <= 3 && r.buffer == []))
  {
    hide Config.Text, ParseAddr, FromBigEndian;
  }

  lemma RefusalStep(cfg: Config, s: Proto, data: Bytes)
    requires s.state <= 3 && RefusalState(cfg, s)
    ensures Received(cfg, s, data).state <= 3 && RefusalState(cfg, Received(cfg, s, data))
    ensures s.closing ==> Received(cfg, s, data) == s.(buffer := s.buffer + data)
  {
    if s.state <= 2 {
      NothingRefused(cfg);
      ReceivedMessage(cfg, s, data);
      MessageOutcome(cfg, s.(buffer := s.buffer + data));
      if s.closing {
        RefusesExtends(cfg, s.state, s.buffer, data);
      }
      hide Message, Refuses, Refusal, Received;
    }
  }

  lemma {:induction false} RefusalStates(cfg: Config, chunks: seq<Bytes>)
    ensures Feed(cfg, INITIAL, chunks).state <= 3 && RefusalState(cfg, Feed(cfg, INITIAL, chunks))
  {
    hide Received, Refuses, Refusal;
    if chunks != [] {
      RefusalStates(cfg, chunks[..|chunks| - 1]);
      RefusalStep(cfg, Feed(cfg, INITIAL, chunks[..|chunks| - 1]), chunks[|chunks| - 1]);
    } else {
      NothingRefused(cfg);
    }
  }

  lemma NothingRefused(cfg: Config)
    ensures RefusalState(cfg, INITIAL)
    ensures forall state :: !Refuses(cfg, state, [])
  {
  }

  /**
   * A client is hung up on exactly when a message it sent is refused, with the reply for that
   * message; it never gets a connection afterwards, whatever else arrives.
   */
  lemma {:induction false} RefusedForGood(cfg: Config, before: seq<Bytes>, after: seq<Bytes>)
    requires Feed(cfg, INITIAL, before).closing
    ensures var s, t := Feed(cfg, INITIAL, before), Feed(cfg, INITIAL, before + after);
            && Refuses(cfg, s.state, s.buffer)
            && s.replies != [] && s.replies[|s.replies| - 1] == Refusal(s.state, s.buffer)
            && s.conns == [] && t == s.(buffer := s.buffer + Concat(after))
  {
    hide Received, Refuses, Refusal;
    RefusalStates(cfg, before);
    OneConnection(cfg, before);
    if after == [] {
      assert before + after == before;
      assert Feed(cfg, INITIAL, before).buffer + [] == Feed(cfg, INITIAL, before).buffer;
    } else {
      var init, last := after[..|after| - 1], after[|after| - 1];
      assert (before + after)[..|before + after| - 1] == before + init;
      RefusedForGood(cfg, before, init);
      RefusalStates(cfg, before + init);
      RefusalStep(cfg, Feed(cfg, INITIAL, before + init), last);
      ConcatLast(after);
      var b := Feed(cfg, INITIAL, before).buffer;
      assert b + Concat(init) + last == b + Concat(after);
    }
  }

  /** Section 6 of RFC 1928 has a reply for unknown address types; they are granted a connection instead. */
  lemma UnknownAddressTypeIsGranted(cfg: Config, s: Proto, reserved: byte, atyp: byte, hi: byte, lo: byte)
    requires s.state == 2 && s.buffer == [] && !s.closing
    requires atyp != IPV4 && atyp != IPV6 && atyp != DOMAIN
    ensures var r := Received(cfg, s, [VERSION, CONNECT, reserved, atyp, hi, lo]);
            && r.state == 3 && r.replies == s.replies + [Success(cfg)]
            && r.conns == s.conns + [("", FromBigEndian([hi, lo]))]
  {
    var b: Bytes := [VERSION, CONNECT, reserved, atyp, hi, lo];
    assert s.buffer + b == b;
    assert b[4..6] == [hi, lo];
  }
}
