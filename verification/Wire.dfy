/** Byte-level building blocks: C strings, 32-bit integers, and `strtok_r` at single spaces. */
module Bytes {
  import opened Wrappers

  newtype byte = b: int | 0 <= b < 256

  const NUL: byte := 0
  const SPACE: byte := 32

  /** The bytes of a C string, without its terminator. */
  predicate CString(s: seq<byte>) {
    NUL !in s
  }

  predicate IsUint32(x: int) {
    0 <= x < 0x1_0000_0000
  }

  /** The four bytes `memcpy` takes from an integer, least significant first. */
  function IntBytes(x: int): (s: seq<byte>)
    requires IsUint32(x)
    ensures |s| == 4
  {
    [(x % 256) as byte, (x / 256 % 256) as byte, (x / 0x1_0000 % 256) as byte, (x / 0x100_0000) as byte]
  }

  function BytesInt(s: seq<byte>): (x: int)
    requires |s| == 4
    ensures IsUint32(x)
  {
    s[0] as int + 256 * s[1] as int + 0x1_0000 * s[2] as int + 0x100_0000 * s[3] as int
  }

  lemma IntRoundTrip(x: int)
    requires IsUint32(x)
    ensures BytesInt(IntBytes(x)) == x
  {
    assert x == 256 * (x / 256) + x % 256;
    assert x / 256 == 256 * (x / 0x1_0000) + x / 256 % 256;
    assert x / 0x1_0000 == 256 * (x / 0x100_0000) + x / 0x1_0000 % 256;
  }

  /** The number a string of bytes stands for, least significant byte first. */
  function LittleEndian(s: seq<byte>): nat {
    if s == [] then 0 else s[0] as int + 256 * LittleEndian(s[1..])
  }

  lemma BytesIntIsLittleEndian(s: seq<byte>)
    requires |s| == 4
    ensures BytesInt(s) == LittleEndian(s)
  {
    assert s[1..][1..] == s[2..] && s[2..][1..] == s[3..] && s[3..][1..] == [];
    assert LittleEndian(s[3..]) == s[3] as int;
    assert LittleEndian(s[2..]) == s[2] as int + 256 * LittleEndian(s[3..]);
    assert LittleEndian(s[1..]) == s[1] as int + 256 * LittleEndian(s[2..]);
  }

  /** Integers are packed with their least significant byte first. */
  lemma IntBytesAreLittleEndian(x: int)
    requires IsUint32(x)
    ensures LittleEndian(IntBytes(x)) == x
  {
    IntRoundTrip(x);
    BytesIntIsLittleEndian(IntBytes(x));
  }

  function Zeros(n: nat): (s: seq<byte>)
    ensures |s| == n && forall i :: 0 <= i < n ==> s[i] == NUL
  {
    seq(n, _ => NUL)
  }

  // ---------------------------------------------------------------- strtok_r

  function TokenLength(s: seq<byte>): (n: nat)
    ensures n <= |s|
    ensures forall i :: 0 <= i < n ==> s[i] != SPACE && s[i] != NUL
    ensures n < |s| ==> s[n] == SPACE || s[n] == NUL
  {
    if s == [] || s[0] == SPACE || s[0] == NUL then 0 else 1 + TokenLength(s[1..])
  }

  datatype Split = Split(token: Option<seq<byte>>, rest: seq<byte>)

  /** The next token of a NUL-terminated buffer, behind any leading spaces, and what is left. */
  function Strtok(s: seq<byte>): (r: Split)
    ensures r.token.Some? ==> r.token.value != [] && SPACE !in r.token.value && CString(r.token.value)
  {
    if s != [] && s[0] == SPACE then Strtok(s[1..])
    else
      var n := TokenLength(s);
      if n == 0 then Split(None, s)
      else Split(Some(s[..n]), if n < |s| && s[n] == SPACE then s[n + 1..] else s[n..])
  }

  function Spaces(k: nat): (s: seq<byte>)
    ensures |s| == k && forall i :: 0 <= i < k ==> s[i] == SPACE
  {
    seq(k, _ => SPACE)
  }

  /** Leading spaces are skipped. */
  lemma {:induction false} StrtokSkipsSpaces(k: nat, s: seq<byte>)
    ensures Strtok(Spaces(k) + s) == Strtok(s)
  {
    var t := Spaces(k) + s;
    if k == 0 {
      assert t == s;
    } else {
      assert t[1..] == Spaces(k - 1) + s;
      StrtokSkipsSpaces(k - 1, s);
    }
  }

  /** In front of the terminator, or at the end, there is no token. */
  lemma StrtokFindsNone(s: seq<byte>)
    requires s == [] || s[0] == NUL
    ensures Strtok(s) == Split(None, s)
  {}

  /** A word in front of a space or the terminator is the next token. */
  lemma StrtokTakesWord(w: seq<byte>, d: byte, rest: seq<byte>)
    requires w != [] && SPACE !in w && CString(w) && d in {SPACE, NUL}
    ensures Strtok(w + [d] + rest) == Split(Some(w), if d == SPACE then rest else [NUL] + rest)
  {
    var s := w + [d] + rest;
    assert s[0] == w[0];
    var n := TokenLength(s);
    assert s[|w|] == d;
    assert forall i :: 0 <= i < |w| ==> s[i] == w[i];
    assert n == |w|;
    assert s[..n] == w && s[n + 1..] == rest && s[n..] == [d] + rest;
  }

  /** `strtok_r` replaces the space behind a token by a terminator.  Started again on the same buffer it
      finds the same token once more, and nothing behind it. */
  lemma StrtokStartsOver(w: seq<byte>, rest: seq<byte>)
    requires w != [] && SPACE !in w && CString(w)
    ensures Strtok(w + [SPACE] + rest).token == Some(w)
    ensures Strtok(w + [NUL] + rest) == Split(Some(w), [NUL] + rest) && Strtok([NUL] + rest).token == None
  {
    StrtokTakesWord(w, SPACE, rest);
    StrtokTakesWord(w, NUL, rest);
    StrtokFindsNone([NUL] + rest);
  }
}

/** The wire format of peer messages (`marshall_pm`, `unmarshall_pm`, data_types.h). */
module Wire {
  import opened Wrappers
  import opened Bytes

  /** 16 bytes of integers and an entry of at most 404 bytes. */
  const MAX_MESSAGE_SIZE := 420

  datatype Message = Message(messageType: int, timestamp: int, nodeId: int, writeType: int, key: seq<byte>, value: seq<byte>)

  /** What the receiver has after unmarshalling; a missing token leaves its field alone. */
  datatype Received = Received(messageType: int, timestamp: int, nodeId: int, writeType: int,
                               key: Option<seq<byte>>, value: Option<seq<byte>>)

  predicate WellTyped(m: Message) {
    && IsUint32(m.messageType) && IsUint32(m.timestamp) && IsUint32(m.nodeId) && IsUint32(m.writeType)
    && CString(m.key) && CString(m.value)
  }

  function Header(m: Message): (s: seq<byte>)
    requires WellTyped(m)
    ensures |s| == 16
  {
    IntBytes(m.messageType) + IntBytes(m.timestamp) + IntBytes(m.nodeId) + IntBytes(m.writeType)
  }

  function Encoded(m: Message): (s: seq<byte>)
    requires WellTyped(m)
    ensures |s| == 18 + |m.key| + |m.value|
  {
    Header(m) + m.key + [SPACE] + m.value + [NUL]
  }

  predicate Fits(m: Message) {
    |m.key| + |m.value| <= 402
  }

  /** One `memcpy` behind what has been packed so far; `was` is what the buffer held before. */
  method Append(buffer: array<byte>, counter: nat, bytes: seq<byte>, ghost packed: seq<byte>, ghost was: seq<byte>)
    returns (next: nat)
    requires counter == |packed| && counter + |bytes| <= buffer.Length == |was|
    requires buffer[..] == packed + was[counter..]
    modifies buffer
    ensures next == counter + |bytes| && buffer[..] == packed + bytes + was[next..]
    ensures buffer[..next] == packed + bytes
  {
    forall i | 0 <= i < |bytes| {
      buffer[counter + i] := bytes[i];
    }
    next := counter + |bytes|;
  }

  /** `marshall_pm`: packs a message in front of whatever the buffer holds. */
  method MarshallPm(buffer: array<byte>, m: Message) returns (counter: nat)
    requires WellTyped(m) && |Encoded(m)| <= buffer.Length
    modifies buffer
    ensures counter == |Encoded(m)|
    ensures buffer[..] == Encoded(m) + old(buffer[counter..])
  {
    ghost var was := buffer[..];
    counter := Append(buffer, 0, IntBytes(m.messageType), [], was);
    counter := Append(buffer, counter, IntBytes(m.timestamp), buffer[..counter], was);
    counter := Append(buffer, counter, IntBytes(m.nodeId), buffer[..counter], was);
    counter := Append(buffer, counter, IntBytes(m.writeType), buffer[..counter], was);
    assert buffer[..counter] == Header(m);
    counter := Append(buffer, counter, m.key, Header(m), was);
    counter := Append(buffer, counter, [SPACE], Header(m) + m.key, was);
    counter := Append(buffer, counter, m.value, Header(m) + m.key + [SPACE], was);
    counter := Append(buffer, counter, [NUL], Header(m) + m.key + [SPACE] + m.value, was);
  }

  /** What goes over the wire: the message in a zeroed buffer of the fixed size. */
  function Sent(m: Message): (s: seq<byte>)
    requires WellTyped(m) && Fits(m)
    ensures |s| == MAX_MESSAGE_SIZE
  {
    Encoded(m) + Zeros(MAX_MESSAGE_SIZE - |Encoded(m)|)
  }

  /** `send_peer_message`. */
  method SendPeerMessage(m: Message) returns (sent: seq<byte>)
    requires WellTyped(m) && Fits(m)
    ensures sent == Sent(m)
  {
    var buffer := new byte[MAX_MESSAGE_SIZE](_ => NUL);
    var counter := MarshallPm(buffer, m);
    sent := buffer[..];
  }

  function UnmarshallPm(buf: seq<byte>): Received
    requires |buf| == MAX_MESSAGE_SIZE
  {
    var k := Strtok(buf[16..]);
    var v := Strtok(k.rest);
    Received(BytesInt(buf[..4]), BytesInt(buf[4..8]), BytesInt(buf[8..12]), BytesInt(buf[12..16]), k.token, v.token)
  }

  predicate Arrived(m: Message, r: Received) {
    && r.messageType == m.messageType && r.timestamp == m.timestamp && r.nodeId == m.nodeId && r.writeType == m.writeType
    && r.key == Some(m.key) && r.value == Some(m.value)
  }

  /** Where the fields are in what is sent. */
  lemma MessageLayout(m: Message)
    requires WellTyped(m) && Fits(m)
    ensures var s, k, v := Sent(m), 16 + |m.key|, 17 + |m.key| + |m.value|;
      && LittleEndian(s[..4]) == m.messageType && LittleEndian(s[4..8]) == m.timestamp
      && LittleEndian(s[8..12]) == m.nodeId && LittleEndian(s[12..16]) == m.writeType
      && s[16..k] == m.key && s[k] == SPACE && s[k + 1..v] == m.value && forall i :: v <= i < |s| ==> s[i] == NUL
  {
    var s := Sent(m);
    assert s[..4] == IntBytes(m.messageType) && s[4..8] == IntBytes(m.timestamp);
    assert s[8..12] == IntBytes(m.nodeId) && s[12..16] == IntBytes(m.writeType);
    IntBytesAreLittleEndian(m.messageType);
    IntBytesAreLittleEndian(m.timestamp);
    IntBytesAreLittleEndian(m.nodeId);
    IntBytesAreLittleEndian(m.writeType);
  }

  /** The integers always arrive. */
  lemma HeaderArrives(m: Message)
    requires WellTyped(m) && Fits(m)
    ensures var r := UnmarshallPm(Sent(m));
      r.messageType == m.messageType && r.timestamp == m.timestamp && r.nodeId == m.nodeId && r.writeType == m.writeType
  {
    var s := Sent(m);
    assert s[..4] == IntBytes(m.messageType) && s[4..8] == IntBytes(m.timestamp);
    assert s[8..12] == IntBytes(m.nodeId) && s[12..16] == IntBytes(m.writeType);
    IntRoundTrip(m.messageType);
    IntRoundTrip(m.timestamp);
    IntRoundTrip(m.nodeId);
    IntRoundTrip(m.writeType);
  }

  /** A message of legal size arrives with all six fields exactly when its key and its value are
      non-empty and free of spaces. */
  lemma RoundTripIff(m: Message)
    requires WellTyped(m) && Fits(m)
    ensures Arrived(m, UnmarshallPm(Sent(m))) <==>
      m.key != [] && m.value != [] && SPACE !in m.key && SPACE !in m.value
  {
    HeaderArrives(m);
    var s := Sent(m);
    var pad := Zeros(MAX_MESSAGE_SIZE - |Encoded(m)|);
    assert s[16..] == m.key + [SPACE] + (m.value + [NUL] + pad);
    if m.key != [] && m.value != [] && SPACE !in m.key && SPACE !in m.value {
      StrtokTakesWord(m.key, SPACE, m.value + [NUL] + pad);
      StrtokTakesWord(m.value, NUL, pad);
    }
  }

  /** An empty value arrives as no value at all, as long as the key is a single word. */
  lemma NoValueArrivesEmpty(m: Message)
    requires WellTyped(m) && Fits(m) && m.value == [] && m.key != [] && SPACE !in m.key
    ensures UnmarshallPm(Sent(m)).key == Some(m.key) && UnmarshallPm(Sent(m)).value == None
  {
    var pad := Zeros(MAX_MESSAGE_SIZE - |Encoded(m)|);
    assert Sent(m)[16..] == m.key + [SPACE] + ([NUL] + pad);
    StrtokTakesWord(m.key, SPACE, [NUL] + pad);
  }
}
