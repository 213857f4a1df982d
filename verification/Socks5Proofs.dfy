/** What the SOCKS5 handshake accepts, answers and consumes, for every byte stream. */
module Socks5Proofs {
  import opened Socks5Server

  // ----- the client's side: RFC 1928 sections 3 to 5, RFC 1929 section 2 -----

  /** Everything a client says before its payload. The reserved byte is free. */
  datatype Dialogue = Dialogue(
    methods: seq<byte>,
    username: seq<byte>,
    password: seq<byte>,
    reserved: byte,
    target: Target)

  predicate WellFormedTarget(t: Target) {
    && t.port < 0x1_0000
    && match t
       case Ipv4(address, _) => |address| == 4
       case Domain(name, _) => |name| < 256
       case Ipv6(address, _) => |address| == 16
  }

  predicate WellFormed(d: Dialogue) {
    && |d.methods| < 256 && USERNAME_PASSWORD in d.methods
    && |d.username| < 256 && |d.password| < 256
    && WellFormedTarget(d.target)
  }

  function EncodeGreeting(methods: seq<byte>): seq<byte>
    requires |methods| < 256
  {
    [VERSION, |methods|] + methods
  }

  function EncodeAuth(username: seq<byte>, password: seq<byte>): seq<byte>
    requires |username| < 256 && |password| < 256
  {
    [AUTH_VERSION, |username|] + username + [|password|] + password
  }

  function EncodePort(port: nat): seq<byte>
    requires port < 0x1_0000
  {
    [port / 256, port % 256]
  }

  function AddressType(t: Target): byte {
    match t case Ipv4(_, _) => IPV4 case Domain(_, _) => DOMAIN case Ipv6(_, _) => IPV6
  }

  function EncodeDestination(t: Target): seq<byte>
    requires WellFormedTarget(t)
  {
    match t
    case Ipv4(address, port) => address + EncodePort(port)
    case Domain(name, port) => [|name|] + name + EncodePort(port)
    case Ipv6(address, port) => address + EncodePort(port)
  }

  function EncodeRequest(reserved: byte, t: Target): seq<byte>
    requires WellFormedTarget(t)
  {
    [VERSION, CONNECT, reserved, AddressType(t)] + EncodeDestination(t)
  }

  function Encode(d: Dialogue): seq<byte>
    requires WellFormed(d)
  {
    EncodeGreeting(d.methods) + (EncodeAuth(d.username, d.password) + EncodeRequest(d.reserved, d.target))
  }

  // ----- the fields of a message that was read -----

  function MethodsOf(input: seq<byte>): seq<byte>
    requires Greeting(input).verdict == Proceed
  {
    input[2..2 + input[1] as nat]
  }

  function UsernameOf(input: seq<byte>, accepts: Authenticator): seq<byte>
    requires Authentication(input, accepts).verdict == Proceed
  {
    input[2..2 + input[1] as nat]
  }

  function PasswordOf(input: seq<byte>, accepts: Authenticator): seq<byte>
    requires Authentication(input, accepts).verdict == Proceed
  {
    var u := 2 + input[1] as nat;
    input[u + 1..u + 1 + input[u] as nat]
  }

  function ReservedOf(input: seq<byte>): byte
    requires Request(input).verdict.Accepted?
  {
    input[2]
  }

  // ----- decoding inverts encoding, stage by stage -----

  lemma GreetingDecodes(methods: seq<byte>, rest: seq<byte>)
    requires |methods| < 256 && USERNAME_PASSWORD in methods
    ensures var input := EncodeGreeting(methods) + rest;
            && Greeting(input) == Stage(Proceed, |EncodeGreeting(methods)|, [VERSION, USERNAME_PASSWORD])
            && MethodsOf(input) == methods
  {
    var input := EncodeGreeting(methods) + rest;
    assert input[2..2 + |methods|] == methods;
  }

  lemma AuthenticationDecodes(username: seq<byte>, password: seq<byte>, rest: seq<byte>, accepts: Authenticator)
    requires |username| < 256 && |password| < 256
    ensures var input := EncodeAuth(username, password) + rest; var n := |EncodeAuth(username, password)|;
            if accepts(username, password) then
              && Authentication(input, accepts) == Stage(Proceed, n, [AUTH_VERSION, AUTH_SUCCESS])
              && UsernameOf(input, accepts) == username && PasswordOf(input, accepts) == password
            else Authentication(input, accepts) == Stage(Refused(AuthFailed), n, [AUTH_VERSION, AUTH_FAILURE])
  {
    var input := EncodeAuth(username, password) + rest;
    var u := 2 + |username|;
    assert input[2..u] == username;
    assert input[u] == |password|;
    assert input[u + 1..u + 1 + |password|] == password;
  }

  lemma DestinationDecodes(t: Target, rest: seq<byte>)
    requires WellFormedTarget(t)
    ensures Destination(EncodeDestination(t) + rest, AddressType(t)) == Stage(Accepted(t), |EncodeDestination(t)|, [])
  {
    var input := EncodeDestination(t) + rest;
    match t
    case Ipv4(address, port) => assert input[..4] == address;
    case Domain(name, port) => assert input[1..1 + |name|] == name;
    case Ipv6(address, port) => assert input[..16] == address;
  }

  lemma RequestDecodes(reserved: byte, t: Target, rest: seq<byte>)
    requires WellFormedTarget(t)
    ensures var input := EncodeRequest(reserved, t) + rest;
            && Request(input) == Stage(Accepted(t), |EncodeRequest(reserved, t)|, [])
            && ReservedOf(input) == reserved
  {
    var input := EncodeRequest(reserved, t) + rest;
    assert input[4..] == EncodeDestination(t) + rest;
    DestinationDecodes(t, rest);
  }

  /** A well-formed dialogue with accepted credentials yields its target; what follows it stays unread. */
  lemma {:induction false} HandshakeDecodes(d: Dialogue, payload: seq<byte>, accepts: Authenticator)
    requires WellFormed(d) && accepts(d.username, d.password)
    ensures Handshake(Encode(d) + payload, accepts) ==
            Stage(Accepted(d.target), |Encode(d)|, [VERSION, USERNAME_PASSWORD, AUTH_VERSION, AUTH_SUCCESS])
    ensures (Encode(d) + payload)[|Encode(d)|..] == payload
    ensures Decoded(Encode(d) + payload, accepts) == d
  {
    hide Greeting, Authentication, Request, EncodeGreeting, EncodeAuth, EncodeRequest;
    hide MethodsOf, UsernameOf, PasswordOf, ReservedOf;
    var input := Encode(d) + payload;
    var request := EncodeRequest(d.reserved, d.target) + payload;
    var afterGreeting := EncodeAuth(d.username, d.password) + request;
    assert input == EncodeGreeting(d.methods) + afterGreeting;
    GreetingDecodes(d.methods, afterGreeting);
    assert Rest(input, Greeting(input)) == afterGreeting;
    AuthenticationDecodes(d.username, d.password, request, accepts);
    assert Rest(afterGreeting, Authentication(afterGreeting, accepts)) == request;
    RequestDecodes(d.reserved, d.target, payload);
  }

  // ----- and encoding inverts decoding -----

  /** The dialogue that an accepted input starts with. */
  ghost function Decoded(input: seq<byte>, accepts: Authenticator): (d: Dialogue)
    requires Handshake(input, accepts).verdict.Accepted?
  {
    AcceptedStages(input, accepts);
    var afterGreeting := Rest(input, Greeting(input));
    var request := Rest(afterGreeting, Authentication(afterGreeting, accepts));
    Dialogue(MethodsOf(input), UsernameOf(afterGreeting, accepts), PasswordOf(afterGreeting, accepts),
             ReservedOf(request), Request(request).verdict.target)
  }

  lemma AcceptedStages(input: seq<byte>, accepts: Authenticator)
    requires Handshake(input, accepts).verdict.Accepted?
    ensures Greeting(input).verdict == Proceed
    ensures var afterGreeting := Rest(input, Greeting(input));
            && Authentication(afterGreeting, accepts).verdict == Proceed
            && Request(Rest(afterGreeting, Authentication(afterGreeting, accepts))).verdict
               == Handshake(input, accepts).verdict
  {
  }

  lemma GreetingEncodes(input: seq<byte>)
    requires Greeting(input).verdict == Proceed
    ensures var m, n := MethodsOf(input), Greeting(input).consumed;
            |m| < 256 && USERNAME_PASSWORD in m && n <= |input| && input[..n] == EncodeGreeting(m)
  {
  }

  lemma AuthenticationEncodes(input: seq<byte>, accepts: Authenticator)
    requires Authentication(input, accepts).verdict == Proceed
    ensures var u, p := UsernameOf(input, accepts), PasswordOf(input, accepts);
            var n := Authentication(input, accepts).consumed;
            |u| < 256 && |p| < 256 && accepts(u, p) && n <= |input| && input[..n] == EncodeAuth(u, p)
  {
  }

  lemma DestinationEncodes(input: seq<byte>, addressType: byte)
    requires Destination(input, addressType).verdict.Accepted?
    ensures var t, n := Destination(input, addressType).verdict.target, Destination(input, addressType).consumed;
            WellFormedTarget(t) && AddressType(t) == addressType && n <= |input| && input[..n] == EncodeDestination(t)
  {
  }

  lemma RequestEncodes(input: seq<byte>)
    requires Request(input).verdict.Accepted?
    ensures var t, n := Request(input).verdict.target, Request(input).consumed;
            WellFormedTarget(t) && n <= |input| && input[..n] == EncodeRequest(ReservedOf(input), t)
  {
    DestinationEncodes(input[4..], input[3]);
    var n := Destination(input[4..], input[3]).consumed;
    assert input[..4 + n] == input[..4] + input[4..][..n];
  }

  /** An accepted input starts with the encoding of a well-formed dialogue whose credentials
      were accepted, and exactly that encoding is consumed. */
  lemma {:induction false} HandshakeEncodes(input: seq<byte>, accepts: Authenticator)
    requires Handshake(input, accepts).verdict.Accepted?
    ensures var d := Decoded(input, accepts); var stage := Handshake(input, accepts);
            && WellFormed(d) && accepts(d.username, d.password) && stage.verdict == Accepted(d.target)
            && stage.consumed <= |input| && input[..stage.consumed] == Encode(d)
  {
    AcceptedStages(input, accepts);
    hide Greeting, Authentication, Request, EncodeGreeting, EncodeAuth, EncodeRequest;
    hide MethodsOf, UsernameOf, PasswordOf, ReservedOf;
    var g := Greeting(input);
    GreetingEncodes(input);
    var afterGreeting := Rest(input, g);
    var a := Authentication(afterGreeting, accepts);
    AuthenticationEncodes(afterGreeting, accepts);
    var request := Rest(afterGreeting, a);
    var r := Request(request);
    RequestEncodes(request);
    ThreeSlices(input, g.consumed, a.consumed, r.consumed);
  }

  lemma ThreeSlices(s: seq<byte>, i: nat, j: nat, k: nat)
    requires i + j + k <= |s|
    ensures s[..i + (j + k)] == s[..i] + (s[i..][..j] + s[i..][j..][..k])
  {
    assert s[i..][j..] == s[i + j..];
  }

  /** The handshake accepts a target exactly when the stream starts with a well-formed dialogue
      naming it, with credentials the authenticator accepts. */
  lemma {:induction false} AcceptedExactly(input: seq<byte>, accepts: Authenticator, t: Target)
    ensures Handshake(input, accepts).verdict == Accepted(t) <==>
            exists d :: WellFormed(d) && Encode(d) <= input && accepts(d.username, d.password) && d.target == t
  {
    hide Handshake, Encode, Decoded;
    if Handshake(input, accepts).verdict == Accepted(t) {
      HandshakeEncodes(input, accepts);
      var d := Decoded(input, accepts);
      assert WellFormed(d) && Encode(d) <= input;
    }
    if d :| WellFormed(d) && Encode(d) <= input && accepts(d.username, d.password) && d.target == t {
      assert input == Encode(d) + input[|Encode(d)|..];
      HandshakeDecodes(d, input[|Encode(d)|..], accepts);
    }
  }

  /** No dialogue is a prefix of another: one stream never reads as two different dialogues. */
  lemma DialoguesArePrefixFree(d: Dialogue, e: Dialogue, input: seq<byte>)
    requires WellFormed(d) && WellFormed(e) && Encode(d) <= input && Encode(e) <= input
    ensures d == e
  {
    hide Handshake, Encode, Decoded;
    var everyone: Authenticator := (_, _) => true;
    assert input == Encode(d) + input[|Encode(d)|..] == Encode(e) + input[|Encode(e)|..];
    HandshakeDecodes(d, input[|Encode(d)|..], everyone);
    HandshakeDecodes(e, input[|Encode(e)|..], everyone);
  }

  // ----- what was read decides; bytes arriving later do not -----

  /** No stage takes more than was sent, nor more than its longest message. */
  lemma StageConsumption(input: seq<byte>, accepts: Authenticator)
    ensures Greeting(input).consumed <= |input| && Greeting(input).consumed <= 257
    ensures Authentication(input, accepts).consumed <= |input| && Authentication(input, accepts).consumed <= 513
    ensures Request(input).consumed <= |input| && Request(input).consumed <= 262
  {
  }

  /** Whatever the client sends, at most 257 + 513 + 262 = 1032 bytes are read before the relay. */
  lemma {:induction false} ConsumptionBounded(
      input: seq<byte>, accepts: Authenticator, connect: Target -> ConnectOutcome)
    ensures Conversation(input, accepts, connect).consumed <= |input|
    ensures Conversation(input, accepts, connect).consumed <= 1032
  {
    hide Greeting, Request, Authentication;
    var rest := Rest(input, Greeting(input));
    StageConsumption(input, accepts);
    StageConsumption(rest, accepts);
    StageConsumption(Rest(rest, Authentication(rest, accepts)), accepts);
  }

  lemma GreetingStable(input: seq<byte>, more: seq<byte>)
    requires Greeting(input).verdict != Refused(Truncated)
    ensures Greeting(input + more) == Greeting(input)
  {
    if |input| >= 2 && |input| >= 2 + input[1] as nat {
      assert (input + more)[2..2 + input[1] as nat] == input[2..2 + input[1] as nat];
    }
  }

  lemma AuthenticationStable(input: seq<byte>, more: seq<byte>, accepts: Authenticator)
    requires Authentication(input, accepts).verdict != Refused(Truncated)
    ensures Authentication(input + more, accepts) == Authentication(input, accepts)
  {
    if input[0] == AUTH_VERSION {
      var all := input + more;
      var u := 2 + input[1] as nat;
      var p := u + 1 + input[u] as nat;
      assert all[2..u] == input[2..u] && all[u + 1..p] == input[u + 1..p];
    }
  }

  lemma RequestStable(input: seq<byte>, more: seq<byte>)
    requires Request(input).verdict != Refused(Truncated)
    ensures Request(input + more) == Request(input)
  {
    if input[0] == VERSION && input[1] == CONNECT {
      var tail := input[4..];
      assert (input + more)[4..] == tail + more;
      if input[3] == IPV4 { assert (tail + more)[..4] == tail[..4]; }
      if input[3] == IPV6 { assert (tail + more)[..16] == tail[..16]; }
      if input[3] == DOMAIN {
        var end := 1 + tail[0] as nat;
        assert (tail + more)[1..end] == tail[1..end];
      }
    }
  }

  /** A conversation that is over is not changed by bytes that arrive later. */
  lemma {:induction false} LaterBytesNeverMatter(
      input: seq<byte>, more: seq<byte>, accepts: Authenticator, connect: Target -> ConnectOutcome)
    ensures Conversation(input, accepts, connect).verdict != Refused(Truncated) ==>
              Conversation(input + more, accepts, connect) == Conversation(input, accepts, connect)
  {
    hide Greeting, Request, Authentication;
    var g := Greeting(input);
    StageConsumption(input, accepts);
    if Conversation(input, accepts, connect).verdict != Refused(Truncated) {
      GreetingStable(input, more);
      if g.verdict == Proceed {
        var rest := Rest(input, g);
        assert Rest(input + more, g) == rest + more;
        StageConsumption(rest, accepts);
        var a := Authentication(rest, accepts);
        AuthenticationStable(rest, more, accepts);
        if a.verdict == Proceed {
          var last := Rest(rest, a);
          assert Rest(rest + more, a) == last + more;
          StageConsumption(last, accepts);
          RequestStable(last, more);
        }
      }
    }
  }

  // ----- the reply discipline -----

  /** The complete server sides of a conversation, byte by byte (RFC 1928 sections 3 and 6, RFC 1929
      section 2): method choice, authentication status, one reply with BND.ADDR and BND.PORT zero. */
  ghost predicate FullConversation(w: seq<byte>) {
    || w == [5, 255]
    || w == [5, 2, 1, 1]
    || exists code: byte :: IsLastReply(w, code)
  }

  predicate IsLastReply(w: seq<byte>, code: byte) {
    code in {0, 1, 5, 7, 8} && w == [5, 2, 1, 0, 5, code, 0, 1, 0, 0, 0, 0, 0, 0]
  }

  const CHOSEN: seq<byte> := [5, 2]
  const AUTHENTICATED: seq<byte> := [5, 2, 1, 0]

  /** How much the server has said, by verdict: a refusal of the client's input is answered as
      far as the protocol has an answer for it, and a reply is never followed by another. */
  ghost predicate Answered(verdict: Verdict, w: seq<byte>) {
    match verdict
    case Proceed => false
    case Accepted(_) => w == [5, 2, 1, 0, 5, 0, 0, 1, 0, 0, 0, 0, 0, 0]
    case Refused(reason) =>
      match reason
      case Truncated => w in {[], [5, 2], [5, 2, 1, 0]}
      case BadVersion => w == []
      case NoAcceptableMethod => w == [5, 255]
      case BadAuthVersion => w == [5, 2]
      case AuthFailed => w == [5, 2, 1, 1]
      case BadRequestVersion => w == [5, 2, 1, 0]
      case UnsupportedCommand => w == [5, 2, 1, 0, 5, 7, 0, 1, 0, 0, 0, 0, 0, 0]
      case UnsupportedAddressType => w == [5, 2, 1, 0, 5, 8, 0, 1, 0, 0, 0, 0, 0, 0]
      case ConnectFailed =>
        w == [5, 2, 1, 0, 5, 1, 0, 1, 0, 0, 0, 0, 0, 0] || w == [5, 2, 1, 0, 5, 5, 0, 1, 0, 0, 0, 0, 0, 0]
  }

  lemma StageReplies(input: seq<byte>, accepts: Authenticator)
    ensures var g := Greeting(input);
            match g.verdict
            case Proceed => g.written == [VERSION, USERNAME_PASSWORD]
            case Accepted(_) => false
            case Refused(reason) =>
              && reason in {Truncated, BadVersion, NoAcceptableMethod}
              && g.written == if reason == NoAcceptableMethod then [VERSION, NO_ACCEPTABLE] else []
    ensures var a := Authentication(input, accepts);
            match a.verdict
            case Proceed => a.written == [AUTH_VERSION, AUTH_SUCCESS]
            case Accepted(_) => false
            case Refused(reason) =>
              && reason in {Truncated, BadAuthVersion, AuthFailed}
              && a.written == if reason == AuthFailed then [AUTH_VERSION, AUTH_FAILURE] else []
    ensures var r := Request(input);
            match r.verdict
            case Proceed => false
            case Accepted(_) => r.written == []
            case Refused(reason) =>
              && reason in {Truncated, BadRequestVersion, UnsupportedCommand, UnsupportedAddressType}
              && r.written == if reason == UnsupportedCommand then Reply(COMMAND_NOT_SUPPORTED)
                              else if reason == UnsupportedAddressType then Reply(ADDRESS_TYPE_NOT_SUPPORTED) else []
  {
  }

  lemma AfterGreetingReplies(input: seq<byte>, accepts: Authenticator)
    ensures var s := AfterGreeting(input, accepts);
            match s.verdict
            case Proceed => false
            case Accepted(_) => CHOSEN + s.written == AUTHENTICATED
            case Refused(reason) => reason != ConnectFailed && Answered(s.verdict, CHOSEN + s.written)
  {
    hide Greeting, Authentication, Request;
    var a := Authentication(input, accepts);
    StageReplies(input, accepts);
    if a.verdict == Proceed {
      var last := Rest(input, a);
      StageReplies(last, accepts);
      assert CHOSEN + (a.written + Request(last).written) == AUTHENTICATED + Request(last).written;
      assert AUTHENTICATED + [] == AUTHENTICATED;
    } else {
      assert CHOSEN + [] == CHOSEN;
    }
  }

  lemma HandshakeReplies(input: seq<byte>, accepts: Authenticator)
    ensures var h := Handshake(input, accepts);
            match h.verdict
            case Proceed => false
            case Accepted(_) => h.written == AUTHENTICATED
            case Refused(reason) => reason != ConnectFailed && Answered(h.verdict, h.written)
  {
    StageReplies(input, accepts);
    AfterGreetingReplies(Rest(input, Greeting(input)), accepts);
    hide Greeting, Authentication, Request, AfterGreeting, Reply;
  }

  /** For every byte stream, authenticator and network: the bytes written are the answer owed to
      the verdict, and a prefix of a complete conversation. */
  lemma ReplyDiscipline(input: seq<byte>, accepts: Authenticator, connect: Target -> ConnectOutcome)
    ensures var c := Conversation(input, accepts, connect);
            Answered(c.verdict, c.written) && exists full :: FullConversation(full) && c.written <= full
  {
    hide Handshake;
    HandshakeReplies(input, accepts);
    var c := Conversation(input, accepts, connect);
    AnswersAreLegal(c.verdict, c.written);
  }

  lemma AnswersAreLegal(verdict: Verdict, w: seq<byte>)
    requires Answered(verdict, w)
    ensures exists full :: FullConversation(full) && w <= full
  {
    var success := [5, 2, 1, 0, 5, 0, 0, 1, 0, 0, 0, 0, 0, 0];
    assert IsLastReply(success, 0) && FullConversation(success);
    if w <= success {
    } else {
      assert |w| == 14 ==> IsLastReply(w, w[5]);
      assert FullConversation(w);
    }
  }
}
