/** The SOCKS5 conversation in literal bytes: what each input gets for an answer. Constants and message
    formats are written out from RFC 1928 sections 3 to 6 and RFC 1929 section 2. */
module Socks5Wire {
  import opened Socks5Server
  import opened Socks5Proofs

  /** VER, NMETHODS, METHODS. */
  function Hello(methods: seq<byte>): seq<byte>
    requires |methods| < 256
  {
    [5, |methods|] + methods
  }

  /** VER, ULEN, UNAME, PLEN, PASSWD. */
  function Login(username: seq<byte>, password: seq<byte>): seq<byte>
    requires |username| < 256 && |password| < 256
  {
    [1, |username|] + username + [|password|] + password
  }

  /** ATYP, DST.ADDR, DST.PORT with the most significant byte first. */
  function Place(t: Target): seq<byte>
    requires WellFormedTarget(t)
  {
    match t
    case Ipv4(address, port) => [1] + address + [port / 256, port % 256]
    case Domain(name, port) => [3, |name|] + name + [port / 256, port % 256]
    case Ipv6(address, port) => [4] + address + [port / 256, port % 256]
  }

  /** What the connection attempt is reported as. */
  predicate Reports(outcome: ConnectOutcome, code: byte) {
    match outcome
    case Connected => code == 0
    case RefusedByTarget => code == 5
    case Unreachable => code == 1
    case TimedOut => code == 1
  }

  lemma EncodingOnTheWire(d: Dialogue)
    requires WellFormed(d)
    ensures 2 in d.methods
    ensures Encode(d) == Hello(d.methods) + Login(d.username, d.password) + [5, 1, d.reserved] + Place(d.target)
  {
    hide EncodeGreeting, EncodeAuth, EncodeRequest;
    RequestOnTheWire(d.reserved, d.target);
    assert EncodeGreeting(d.methods) == Hello(d.methods)
           && EncodeAuth(d.username, d.password) == Login(d.username, d.password) by {
      HelloAndLogin(d.methods, d.username, d.password);
    }
    var x, y, z := Hello(d.methods), Login(d.username, d.password), [5, 1, d.reserved];
    assert x + (y + (z + Place(d.target))) == x + y + z + Place(d.target);
  }

  lemma HelloAndLogin(methods: seq<byte>, username: seq<byte>, password: seq<byte>)
    requires |methods| < 256 && |username| < 256 && |password| < 256
    ensures EncodeGreeting(methods) == Hello(methods) && EncodeAuth(username, password) == Login(username, password)
  {
  }

  lemma RequestOnTheWire(reserved: byte, t: Target)
    requires WellFormedTarget(t)
    ensures EncodeRequest(reserved, t) == [5, 1, reserved] + Place(t)
  {
    assert [5, 1, reserved, AddressType(t)] + EncodeDestination(t) == [5, 1, reserved]
           + ([AddressType(t)] + EncodeDestination(t));
    assert [AddressType(t)] + EncodeDestination(t) == Place(t);
  }

  /** An accepted dialogue is answered by the method choice, the status and one reply, whose code says how
      the connection attempt went; what follows the dialogue stays unread. */
  lemma AcceptedIsAnswered(
      d: Dialogue, payload: seq<byte>, accepts: Authenticator, connect: Target -> ConnectOutcome, code: byte)
    requires WellFormed(d) && accepts(d.username, d.password) && Reports(connect(d.target), code)
    ensures var input := Hello(d.methods) + Login(d.username, d.password) + [5, 1, d.reserved] + Place(d.target)
            + payload;
            Conversation(input, accepts, connect)
            == Stage(if connect(d.target) == Connected then Accepted(d.target) else Refused(ConnectFailed),
                     |input| - |payload|, [5, 2, 1, 0, 5, code, 0, 1, 0, 0, 0, 0, 0, 0])
  {
    EncodingOnTheWire(d);
    HandshakeDecodes(d, payload, accepts);
    ReplyOnTheWire(connect(d.target), code);
    hide Handshake, Encode, Decoded, Hello, Login, Place, WellFormed, Reply, ReplyCode, Reports;
    assert Conversation(Encode(d) + payload, accepts, connect).written == [5, 2, 1, 0]
           + Reply(ReplyCode(connect(d.target)));
  }

  lemma ReplyOnTheWire(outcome: ConnectOutcome, code: byte)
    requires Reports(outcome, code)
    ensures [5, 2, 1, 0] + Reply(ReplyCode(outcome)) == [5, 2, 1, 0, 5, code, 0, 1, 0, 0, 0, 0, 0, 0]
  {
  }

  /** A conversation past its greeting. */
  lemma AfterHello(methods: seq<byte>, rest: seq<byte>, accepts: Authenticator)
    requires |methods| < 256 && 2 in methods
    ensures var next := AfterGreeting(rest, accepts);
            Handshake(Hello(methods) + rest, accepts)
            == Stage(next.verdict, |Hello(methods)| + next.consumed, [5, 2] + next.written)
  {
    HelloAndLogin(methods, [], []);
    GreetingDecodes(methods, rest);
    var input := Hello(methods) + rest;
    hide Greeting, AfterGreeting, EncodeGreeting, EncodeAuth;
    assert Rest(input, Greeting(input)) == rest;
  }

  /** And past its login. */
  lemma AfterLogin(username: seq<byte>, password: seq<byte>, rest: seq<byte>, accepts: Authenticator)
    requires |username| < 256 && |password| < 256
    ensures var next := Request(rest); var n := |Login(username, password)|;
            AfterGreeting(Login(username, password) + rest, accepts)
            == if accepts(username, password) then Stage(next.verdict, n + next.consumed, [1, 0] + next.written)
               else Stage(Refused(AuthFailed), n, [1, 1])
  {
    HelloAndLogin([], username, password);
    AuthenticationDecodes(username, password, rest, accepts);
    var input := Login(username, password) + rest;
    hide Authentication, Request, EncodeGreeting, EncodeAuth;
    assert Rest(input, Authentication(input, accepts)) == rest || !accepts(username, password);
  }

  /** A greeting of another version gets no answer; one without method 2 is told so. */
  lemma GreetingIsRefused(
      version: byte, methods: seq<byte>, rest: seq<byte>, accepts: Authenticator, connect: Target -> ConnectOutcome)
    requires |methods| < 256
    ensures version != 5 ==> Conversation([version] + rest, accepts, connect) == Stage(Refused(BadVersion), 1, [])
    ensures 2 !in methods ==>
              Conversation(Hello(methods) + rest, accepts, connect)
              == Stage(Refused(NoAcceptableMethod), 2 + |methods|, [5, 255])
  {
    assert (Hello(methods) + rest)[2..2 + |methods|] == methods;
  }

  /** A login of another version ends the conversation; rejected credentials are told so. */
  lemma LoginIsRefused(
      methods: seq<byte>, version: byte, username: seq<byte>, password: seq<byte>, rest: seq<byte>,
      accepts: Authenticator, connect: Target -> ConnectOutcome)
    requires |methods| < 256 && 2 in methods && |username| < 256 && |password| < 256
    ensures version != 1 ==>
              Conversation(Hello(methods) + ([version] + rest), accepts, connect)
              == Stage(Refused(BadAuthVersion), |Hello(methods)| + 1, [5, 2])
    ensures !accepts(username, password) ==>
              Conversation(Hello(methods) + (Login(username, password) + rest), accepts, connect)
              == Stage(Refused(AuthFailed), |Hello(methods)| + |Login(username, password)|, [5, 2, 1, 1])
  {
    AfterHello(methods, [version] + rest, accepts);
    AfterHello(methods, Login(username, password) + rest, accepts);
    AfterLogin(username, password, rest, accepts);
    if version != 1 {
      assert AfterGreeting([version] + rest, accepts) == Stage(Refused(BadAuthVersion), 1, []);
      assert [5, 2] + [] == [5, 2];
    }
    hide Handshake, Login, Hello;
  }

  /** A request that cannot be served: other versions get no answer, other commands reply 7, other address
      types reply 8. */
  lemma RequestIsRefused(
      methods: seq<byte>, username: seq<byte>, password: seq<byte>, request: seq<byte>, rest: seq<byte>,
      accepts: Authenticator, connect: Target -> ConnectOutcome)
    requires |methods| < 256 && 2 in methods && |username| < 256 && |password| < 256 && accepts(username, password)
    requires |request| == 4
    ensures var input := Hello(methods) + (Login(username, password) + (request + rest));
            var n := |Hello(methods)| + |Login(username, password)|;
            var c := Conversation(input, accepts, connect);
            if request[0] != 5 then c == Stage(Refused(BadRequestVersion), n + 1, [5, 2, 1, 0])
            else if request[1] != 1 then
              c == Stage(Refused(UnsupportedCommand), n + 4, [5, 2, 1, 0, 5, 7, 0, 1, 0, 0, 0, 0, 0, 0])
            else if request[3] !in {1, 3, 4} then
              c == Stage(Refused(UnsupportedAddressType), n + 4, [5, 2, 1, 0, 5, 8, 0, 1, 0, 0, 0, 0, 0, 0])
            else c.verdict.Accepted? || c.verdict == Refused(ConnectFailed) || c.verdict == Refused(Truncated)
  {
    LoggedIn(methods, username, password, request + rest, accepts);
    RequestAlone(request, rest);
    RefusalsOnTheWire();
    hide Handshake, Request, Hello, Login;
  }

  lemma LoggedIn(methods: seq<byte>, username: seq<byte>, password: seq<byte>, rest: seq<byte>, accepts: Authenticator)
    requires |methods| < 256 && 2 in methods && |username| < 256 && |password| < 256 && accepts(username, password)
    ensures var next := Request(rest); var n := |Hello(methods)| + |Login(username, password)|;
            Handshake(Hello(methods) + (Login(username, password) + rest), accepts)
            == Stage(next.verdict, n + next.consumed, [5, 2, 1, 0] + next.written)
  {
    AfterHello(methods, Login(username, password) + rest, accepts);
    AfterLogin(username, password, rest, accepts);
    StatusThen(Request(rest).written);
    hide Handshake, AfterGreeting, Request, Hello, Login, Greeting, Rest;
  }

  lemma StatusThen(w: seq<byte>)
    ensures [5, 2] + ([1, 0] + w) == [5, 2, 1, 0] + w
  {
  }

  lemma RefusalsOnTheWire()
    ensures [5, 2, 1, 0] + [] == [5, 2, 1, 0]
    ensures [5, 2, 1, 0] + [5, 7, 0, 1, 0, 0, 0, 0, 0, 0] == [5, 2, 1, 0, 5, 7, 0, 1, 0, 0, 0, 0, 0, 0]
    ensures [5, 2, 1, 0] + [5, 8, 0, 1, 0, 0, 0, 0, 0, 0] == [5, 2, 1, 0, 5, 8, 0, 1, 0, 0, 0, 0, 0, 0]
  {
  }

  lemma RequestAlone(request: seq<byte>, rest: seq<byte>)
    requires |request| == 4
    ensures var r := Request(request + rest);
            if request[0] != 5 then r == Stage(Refused(BadRequestVersion), 1, [])
            else if request[1] != 1 then r == Stage(Refused(UnsupportedCommand), 4, [5, 7, 0, 1, 0, 0, 0, 0, 0, 0])
            else if request[3] !in {1, 3, 4} then
              r == Stage(Refused(UnsupportedAddressType), 4, [5, 8, 0, 1, 0, 0, 0, 0, 0, 0])
            else r.verdict.Accepted? || r.verdict == Refused(Truncated)
  {
  }

  /** Only a stream that ended in the middle of a message is cut off, and then all of it was read; so
      every stream longer than 1032 bytes is decided. */
  lemma CutOffOnlyAtTheEnd(input: seq<byte>, accepts: Authenticator, connect: Target -> ConnectOutcome)
    ensures var c := Conversation(input, accepts, connect);
            c.verdict == Refused(Truncated) ==> c.consumed == |input| <= 1032
  {
    ConsumptionBounded(input, accepts, connect);
    var g := Greeting(input);
    if g.verdict == Proceed {
      StageConsumption(input, accepts);
      var rest := Rest(input, g);
      StageConsumption(rest, accepts);
      StageConsumption(Rest(rest, Authentication(rest, accepts)), accepts);
      CutStages(rest, accepts);
      CutStages(Rest(rest, Authentication(rest, accepts)), accepts);
    }
    CutStages(input, accepts);
    hide Greeting, Authentication, Request;
  }

  lemma CutStages(input: seq<byte>, accepts: Authenticator)
    ensures Greeting(input).verdict == Refused(Truncated) ==> Greeting(input).consumed == |input|
    ensures Authentication(input, accepts).verdict == Refused(Truncated) ==>
              Authentication(input, accepts).consumed == |input|
    ensures Request(input).verdict == Refused(Truncated) ==> Request(input).consumed == |input|
  {
  }
}
