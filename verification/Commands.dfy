/** The commands of a connection and their bytes: `<I` number, one byte of kind, then the fields of the kind. */
module Commands {
  import opened Bytes
  import opened Wrappers

  datatype Cmd =
    | Connect(sockType: nat, host: bytes, port: nat)
    | Data(payload: bytes)
    | Close(reason: bytes)
    | Ack(position: nat)
    | Unknown(kind: nat, rest: bytes)

  /** What `struct.pack` accepts. */
  predicate CmdInRange(cmd: Cmd) {
    match cmd
    case Connect(sockType, host, port) => sockType < 256 && |host| < U16 && port < U16
    case Data(_) => true
    case Close(_) => true
    case Ack(position) => position < Pow256(8)
    case Unknown(kind, _) => 3 < kind < 256
  }

  function BuildBody(cmd: Cmd): bytes
    requires CmdInRange(cmd)
  {
    match cmd
    case Connect(sockType, host, port) => [0, sockType as byte] + LE(|host|, 2) + host + LE(port, 2)
    case Data(payload) => [1] + payload
    case Close(reason) => [2] + reason
    case Ack(position) => [3] + LE(position, 8)
    case Unknown(kind, rest) => [kind as byte] + rest
  }

  function BuildCmd(no: nat, cmd: Cmd): bytes
    requires CmdInRange(cmd)
  {
    LE(no, 4) + BuildBody(cmd)
  }

  /** `ReadBuffer.get`: what is left when less than asked for is left. */
  function Front(b: bytes, n: nat): bytes {
    b[..Min(n, |b|)]
  }

  function Rest(b: bytes, n: nat): bytes {
    b[Min(n, |b|)..]
  }

  /** The body of a command; None where `struct.unpack` raises on a short field. */
  function ParseBody(b: bytes): Option<Cmd> {
    if |b| < 1 then None
    else if b[0] == 1 then Some(Data(b[1..]))
    else if b[0] == 3 then
      if |b| < 9 then None else Some(Ack(FromLE(b[1..9])))
    else if b[0] == 2 then Some(Close(b[1..]))
    else if b[0] == 0 then
      if |b| < 4 then None
      else
        var tail := b[4..];
        var n := FromLE(b[2..4]);
        if |Front(Rest(tail, n), 2)| < 2 then None
        else Some(Connect(b[1] as nat, Front(tail, n), FromLE(Front(Rest(tail, n), 2))))
    else Some(Unknown(b[0] as nat, b[1..]))
  }

  lemma ParseBuildConnect(sockType: nat, host: bytes, port: nat)
    requires CmdInRange(Connect(sockType, host, port))
    ensures ParseBody(BuildBody(Connect(sockType, host, port))) == Some(Connect(sockType, host, port))
  {
    Widths();
    UnpackPack(|host|, 2);
    UnpackPack(port, 2);
    hide LE, FromLE, Pow256;
    var b := BuildBody(Connect(sockType, host, port));
    assert b[0] == 0 && b[1] as nat == sockType;
    assert b[2..4] == LE(|host|, 2);
    assert b[4..] == host + LE(port, 2);
    assert Front(b[4..], |host|) == host;
    assert Rest(b[4..], |host|) == LE(port, 2);
    assert Front(LE(port, 2), 2) == LE(port, 2);
  }

  /** Parsing undoes building, for every command that can be built. */
  lemma ParseBuildBody(cmd: Cmd)
    requires CmdInRange(cmd)
    ensures ParseBody(BuildBody(cmd)) == Some(cmd)
  {
    hide LE, FromLE, Pow256;
    var b := BuildBody(cmd);
    match cmd
    case Connect(sockType, host, port) => ParseBuildConnect(sockType, host, port);
    case Data(payload) => assert b[1..] == payload;
    case Close(reason) => assert b[1..] == reason;
    case Ack(position) =>
      UnpackPack(position, 8);
      assert b[1..9] == LE(position, 8);
    case Unknown(kind, rest) => assert b[1..] == rest;
  }

  /** A connect or ack that is cut short raises, and so does any command without its first byte. */
  lemma CutCmdRaises(cmd: Cmd, m: nat)
    requires CmdInRange(cmd) && m < |BuildBody(cmd)| && (m == 0 || cmd.Connect? || cmd.Ack?)
    ensures ParseBody(BuildBody(cmd)[..m]) == None
  {
    if m > 0 && cmd.Connect? {
      CutConnectRaises(cmd, m);
    }
  }

  lemma CutConnectRaises(cmd: Cmd, m: nat)
    requires CmdInRange(cmd) && cmd.Connect? && 0 < m < |BuildBody(cmd)|
    ensures ParseBody(BuildBody(cmd)[..m]) == None
  {
    Widths();
    UnpackPack(|cmd.host|, 2);
    hide LE, FromLE, Pow256;
    var b := BuildBody(cmd);
    assert b[..m][0] == 0;
    if m >= 4 {
      assert b[..m][2..4] == LE(|cmd.host|, 2);
      assert |b[..m][4..]| < |cmd.host| + 2;
    }
  }

  /** The number in front of a command is read back too. */
  lemma ParseBuildCmd(no: nat, cmd: Cmd)
    requires no < U32 && CmdInRange(cmd)
    ensures |BuildCmd(no, cmd)| >= 4 && FromLE(BuildCmd(no, cmd)[..4]) == no
    ensures BuildCmd(no, cmd)[4..] == BuildBody(cmd) && ParseBody(BuildCmd(no, cmd)[4..]) == Some(cmd)
  {
    ParseBuildBody(cmd);
    U32RoundTrip(no);
    assert BuildCmd(no, cmd)[..4] == LE(no, 4);
    assert BuildCmd(no, cmd)[4..] == BuildBody(cmd);
  }

  /** A well-formed body has one reading, and building it again gives the bytes that were read. */
  lemma BuildParseBody(b: bytes)
    requires ParseBody(b).Some? && !ParseBody(b).value.Connect? && !ParseBody(b).value.Ack?
    ensures CmdInRange(ParseBody(b).value) && BuildBody(ParseBody(b).value) == b
  {
    assert b == [b[0]] + b[1..];
  }
}
