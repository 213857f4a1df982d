/** The SOCKS5 handshake of `proxy/socks5.rs` (RFC 1928, RFC 1929), byte by byte. */
module Socks5Server {
  import opened Wrappers

  type byte = n: int | 0 <= n < 256

  const VERSION: byte := 0x05
  const USERNAME_PASSWORD: byte := 0x02
  const NO_ACCEPTABLE: byte := 0xFF
  const CONNECT: byte := 0x01
  const IPV4: byte := 0x01
  const DOMAIN: byte := 0x03
  const IPV6: byte := 0x04

  const SUCCEEDED: byte := 0x00
  const GENERAL_FAILURE: byte := 0x01
  const CONNECTION_REFUSED: byte := 0x05
  const COMMAND_NOT_SUPPORTED: byte := 0x07
  const ADDRESS_TYPE_NOT_SUPPORTED: byte := 0x08

  const AUTH_VERSION: byte := 0x01
  const AUTH_SUCCESS: byte := 0x00
  const AUTH_FAILURE: byte := 0x01

  datatype Target =
    | Ipv4(address: seq<byte>, port: nat)
    | Domain(name: seq<byte>, port: nat)
    | Ipv6(address: seq<byte>, port: nat)

  datatype Refusal =
    | Truncated // the client closed the stream in the middle of a message
    | BadVersion | NoAcceptableMethod
    | BadAuthVersion | AuthFailed
    | BadRequestVersion | UnsupportedCommand | UnsupportedAddressType
    | ConnectFailed

  datatype ConnectOutcome = Connected | RefusedByTarget | Unreachable | TimedOut

  /** How a stage of the conversation ends: on to the next one, with a target, or refused. */
  datatype Verdict = Proceed | Accepted(target: Target) | Refused(reason: Refusal)

  /** A stage's verdict, how many bytes it takes from the client and what it sends back. */
  datatype Stage = Stage(verdict: Verdict, consumed: nat, written: seq<byte>)

  type Authenticator = (seq<byte>, seq<byte>) -> bool

  // ----- the byte-level specification -----

  function Cut(input: seq<byte>): Stage { Stage(Refused(Truncated), |input|, []) }

  function Greeting(input: seq<byte>): Stage {
    if |input| < 1 then Cut(input)
    else if input[0] != VERSION then Stage(Refused(BadVersion), 1, [])
    else if |input| < 2 || |input| < 2 + input[1] as nat then Cut(input)
    else if USERNAME_PASSWORD !in input[2..2 + input[1] as nat] then
      Stage(Refused(NoAcceptableMethod), 2 + input[1] as nat, [VERSION, NO_ACCEPTABLE])
    else Stage(Proceed, 2 + input[1] as nat, [VERSION, USERNAME_PASSWORD])
  }

  function Authentication(input: seq<byte>, accepts: Authenticator): Stage {
    if |input| < 1 then Cut(input)
    else if input[0] != AUTH_VERSION then Stage(Refused(BadAuthVersion), 1, [])
    else if |input| < 2 || |input| < 3 + input[1] as nat then Cut(input)
    else
      var u := 2 + input[1] as nat;
      var p := u + 1 + input[u] as nat;
      if |input| < p then Cut(input)
      else if !accepts(input[2..u], input[u + 1..p]) then Stage(Refused(AuthFailed), p, [AUTH_VERSION, AUTH_FAILURE])
      else Stage(Proceed, p, [AUTH_VERSION, AUTH_SUCCESS])
  }

  function Reply(code: byte): seq<byte> { [VERSION, code, 0, IPV4, 0, 0, 0, 0, 0, 0] }

  function PortAt(input: seq<byte>, i: nat): nat
    requires i + 2 <= |input|
  {
    input[i] as nat * 256 + input[i + 1] as nat
  }

  /** DST.ADDR and DST.PORT for the given ATYP. */
  function Destination(input: seq<byte>, addressType: byte): Stage {
    if addressType == IPV4 then
      if |input| < 6 then Cut(input) else Stage(Accepted(Ipv4(input[..4], PortAt(input, 4))), 6, [])
    else if addressType == DOMAIN then
      if |input| < 1 || |input| < 3 + input[0] as nat then Cut(input)
      else
        var end := 1 + input[0] as nat;
        Stage(Accepted(Domain(input[1..end], PortAt(input, end))), end + 2, [])
    else if addressType == IPV6 then
      if |input| < 18 then Cut(input) else Stage(Accepted(Ipv6(input[..16], PortAt(input, 16))), 18, [])
    else Stage(Refused(UnsupportedAddressType), 0, Reply(ADDRESS_TYPE_NOT_SUPPORTED))
  }

  function Request(input: seq<byte>): Stage {
    if |input| < 1 then Cut(input)
    else if input[0] != VERSION then Stage(Refused(BadRequestVersion), 1, [])
    else if |input| < 4 then Cut(input)
    else if input[1] != CONNECT then Stage(Refused(UnsupportedCommand), 4, Reply(COMMAND_NOT_SUPPORTED))
    else
      var destination := Destination(input[4..], input[3]);
      destination.(consumed := 4 + destination.consumed)
  }

  /** `next`, started on what `first` left unread, if `first` lets the conversation go on. */
  function Then(first: Stage, next: Stage): Stage {
    if first.verdict != Proceed then first
    else Stage(next.verdict, first.consumed + next.consumed, first.written + next.written)
  }

  function Rest(input: seq<byte>, stage: Stage): seq<byte> {
    if stage.consumed <= |input| then input[stage.consumed..] else []
  }

  function AfterGreeting(input: seq<byte>, accepts: Authenticator): Stage {
    var authentication := Authentication(input, accepts);
    Then(authentication, Request(Rest(input, authentication)))
  }

  function Handshake(input: seq<byte>, accepts: Authenticator): Stage {
    var greeting := Greeting(input);
    Then(greeting, AfterGreeting(Rest(input, greeting), accepts))
  }

  function ReplyCode(outcome: ConnectOutcome): byte {
    match outcome
    case Connected => SUCCEEDED
    case RefusedByTarget => CONNECTION_REFUSED
    case Unreachable => GENERAL_FAILURE
    case TimedOut => GENERAL_FAILURE
  }

  /** Everything up to the relay: the handshake, then the connection attempt and its reply. */
  function Conversation(input: seq<byte>, accepts: Authenticator, connect: Target -> ConnectOutcome): Stage {
    var handshake := Handshake(input, accepts);
    match handshake.verdict
    case Accepted(target) =>
      var outcome := connect(target);
      Stage(if outcome == Connected then Accepted(target) else Refused(ConnectFailed),
            handshake.consumed, handshake.written + Reply(ReplyCode(outcome)))
    case _ => handshake
  }

  lemma SliceOfRest(s: seq<byte>, i: nat, from: nat, to: nat)
    requires from <= to && i + to <= |s|
    ensures s[i..][from..to] == s[i + from..i + to]
  {
  }

  // ----- the server -----

  /** The client's side of the socket: bytes still to be read and bytes sent back so far. */
  class ClientStream {
    const input: seq<byte>
    var pos: nat
    var output: seq<byte>

    ghost predicate Valid()
      reads this
    {
      pos <= |input|
    }

    ghost function Unread(): seq<byte>
      requires Valid()
      reads this
    {
      input[pos..]
    }

    constructor (input: seq<byte>)
      ensures Valid() && Unread() == input && output == []
    {
      this.input := input;
      pos, output := 0, [];
    }

    method ReadExact(n: nat) returns (bytes: Option<seq<byte>>)
      requires Valid()
      modifies this`pos
      ensures Valid()
      ensures if old(pos) + n <= |input| then pos == old(pos) + n && bytes == Some(input[old(pos)..pos])
              else pos == |input| && bytes == None
    {
      if pos + n <= |input| {
        bytes := Some(input[pos..pos + n]);
        pos := pos + n;
      } else {
        bytes := None;
        pos := |input|;
      }
    }

    method ReadU8() returns (value: Option<byte>)
      requires Valid()
      modifies this`pos
      ensures Valid()
      ensures if old(pos) < |input| then pos == old(pos) + 1 && value == Some(input[old(pos)])
              else pos == |input| && value == None
    {
      var bytes := ReadExact(1);
      value := match bytes case None => None case Some(b) => Some(b[0]);
    }

    /** Two bytes, most significant first. */
    method ReadU16() returns (value: Option<nat>)
      requires Valid()
      modifies this`pos
      ensures Valid()
      ensures if old(pos) + 2 <= |input| then pos == old(pos) + 2 && value == Some(PortAt(input, old(pos)))
              else pos == |input| && value == None
    {
      var bytes := ReadExact(2);
      value := match bytes case None => None case Some(b) => Some(PortAt(b, 0));
    }

    method WriteAll(bytes: seq<byte>)
      modifies this`output
      ensures output == old(output) + bytes
    {
      output := output + bytes;
    }

    /** The stream moved exactly as `stage` says from position `start` with `sent` already sent. */
    ghost predicate Followed(stage: Stage, start: nat, sent: seq<byte>)
      reads this
    {
      Valid() && pos == start + stage.consumed && output == sent + stage.written
    }

    method ReadGreeting() returns (verdict: Verdict)
      requires Valid()
      modifies this
      ensures var stage := Greeting(old(Unread()));
              verdict == stage.verdict && Followed(stage, old(pos), old(output))
    {
      var version := ReadU8();
      if version.None? { return Refused(Truncated); }
      if version.value != VERSION { return Refused(BadVersion); }
      var count := ReadU8();
      if count.None? { return Refused(Truncated); }
      var methods := ReadExact(count.value);
      if methods.None? { return Refused(Truncated); }
      SliceOfRest(input, old(pos), 2, 2 + count.value as nat);
      if USERNAME_PASSWORD !in methods.value {
        WriteAll([VERSION, NO_ACCEPTABLE]);
        return Refused(NoAcceptableMethod);
      }
      WriteAll([VERSION, USERNAME_PASSWORD]);
      return Proceed;
    }

    method Authenticate(accepts: Authenticator) returns (verdict: Verdict)
      requires Valid()
      modifies this
      ensures var stage := Authentication(old(Unread()), accepts);
              verdict == stage.verdict && Followed(stage, old(pos), old(output))
    {
      var version := ReadU8();
      if version.None? { return Refused(Truncated); }
      if version.value != AUTH_VERSION { return Refused(BadAuthVersion); }
      var ulen := ReadU8();
      if ulen.None? { return Refused(Truncated); }
      var username := ReadExact(ulen.value);
      if username.None? { return Refused(Truncated); }
      ghost var u := 2 + ulen.value as nat;
      SliceOfRest(input, old(pos), 2, u);
      var plen := ReadU8();
      if plen.None? { return Refused(Truncated); }
      var password := ReadExact(plen.value);
      if password.None? { return Refused(Truncated); }
      SliceOfRest(input, old(pos), u + 1, u + 1 + plen.value as nat);
      if !accepts(username.value, password.value) {
        WriteAll([AUTH_VERSION, AUTH_FAILURE]);
        return Refused(AuthFailed);
      }
      WriteAll([AUTH_VERSION, AUTH_SUCCESS]);
      return Proceed;
    }

    method ReadRequest() returns (verdict: Verdict)
      requires Valid()
      modifies this
      ensures var stage := Request(old(Unread()));
              verdict == stage.verdict && Followed(stage, old(pos), old(output))
    {
      ghost var unread := Unread();
      var version := ReadU8();
      if version.None? { return Refused(Truncated); }
      if version.value != VERSION { return Refused(BadRequestVersion); }
      var command := ReadU8();
      if command.None? { return Refused(Truncated); }
      var reserved := ReadU8();
      if reserved.None? { return Refused(Truncated); }
      var addressType := ReadU8();
      if addressType.None? { return Refused(Truncated); }
      if command.value != CONNECT {
        WriteAll(Reply(COMMAND_NOT_SUPPORTED));
        return Refused(UnsupportedCommand);
      }
      assert Unread() == unread[4..];
      verdict := ReadDestination(addressType.value);
    }

    method ReadDestination(addressType: byte) returns (verdict: Verdict)
      requires Valid()
      modifies this
      ensures var stage := Destination(old(Unread()), addressType);
              verdict == stage.verdict && Followed(stage, old(pos), old(output))
    {
      if addressType == IPV4 {
        var address := ReadExact(4);
        if address.None? { return Refused(Truncated); }
        var port := ReadU16();
        if port.None? { return Refused(Truncated); }
        assert address.value == old(Unread())[..4];
        return Accepted(Ipv4(address.value, port.value));
      } else if addressType == DOMAIN {
        var len := ReadU8();
        if len.None? { return Refused(Truncated); }
        var name := ReadExact(len.value);
        if name.None? { return Refused(Truncated); }
        var port := ReadU16();
        if port.None? { return Refused(Truncated); }
        assert name.value == old(Unread())[1..1 + len.value as nat];
        return Accepted(Domain(name.value, port.value));
      } else if addressType == IPV6 {
        var address := ReadExact(16);
        if address.None? { return Refused(Truncated); }
        var port := ReadU16();
        if port.None? { return Refused(Truncated); }
        assert address.value == old(Unread())[..16];
        return Accepted(Ipv6(address.value, port.value));
      } else {
        WriteAll(Reply(ADDRESS_TYPE_NOT_SUPPORTED));
        return Refused(UnsupportedAddressType);
      }
    }

    method AuthenticateAndRequest(accepts: Authenticator) returns (verdict: Verdict)
      requires Valid()
      modifies this
      ensures var stage := AfterGreeting(old(Unread()), accepts);
              verdict == stage.verdict && Followed(stage, old(pos), old(output))
    {
      ghost var unread := Unread();
      verdict := Authenticate(accepts);
      if verdict != Proceed { return; }
      assert Unread() == Rest(unread, Authentication(unread, accepts));
      verdict := ReadRequest();
    }

    /** The part of `handle_connection` under the handshake timeout. */
    method ReadTarget(accepts: Authenticator) returns (verdict: Verdict)
      requires Valid()
      modifies this
      ensures var stage := Handshake(old(Unread()), accepts);
              verdict == stage.verdict && Followed(stage, old(pos), old(output))
    {
      hide Greeting, AfterGreeting;
      ghost var unread, start := Unread(), pos;
      ghost var greeting := Greeting(unread);
      verdict := ReadGreeting();
      if verdict != Proceed { return; }
      assert Unread() == Rest(unread, greeting);
      ghost var later := AfterGreeting(Unread(), accepts);
      verdict := AuthenticateAndRequest(accepts);
      assert pos == start + (greeting.consumed + later.consumed);
      assert output == old(output) + (greeting.written + later.written);
      assert Handshake(unread, accepts) == Then(greeting, later);
    }

    /** `handle_connection` up to the relay, which starts on `Accepted`. */
    method HandleConnection(accepts: Authenticator, connect: Target -> ConnectOutcome)
      returns (verdict: Verdict)
      requires Valid()
      modifies this
      ensures var stage := Conversation(old(Unread()), accepts, connect);
              verdict == stage.verdict && Followed(stage, old(pos), old(output))
    {
      hide Handshake;
      verdict := ReadTarget(accepts);
      if !verdict.Accepted? { return; }
      var outcome := connect(verdict.target);
      WriteAll(Reply(ReplyCode(outcome)));
      if outcome != Connected {
        verdict := Refused(ConnectFailed);
      }
    }
  }
}
