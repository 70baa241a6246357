/** The binary message codec of `message/msg.go`: seven message kinds, each
    a one-byte tag followed by little-endian fields.

    The server encodes the five kinds it sends (Hello, PlayersJoined,
    PlayersLeft, PlayersMoving, Pong) and decodes the two a client sends
    (AmmaMoving, Ping); every other direction is a stub that returns a fixed
    error. Beside each encoder stands a reference decoder (`Parse...`) that
    reads the layout back; it has no counterpart in the Go code, which never
    decodes these kinds. The lemmas below show encoder and reference decoder
    are inverse. */
module Message {
  import opened Binary

  /** The leading tag byte of every message (Go's `MsgType`, numbered by
      `iota`). */
  type MsgType = uint8

  const HelloMsg: MsgType := 0
  const PlayersJoinedMsg: MsgType := 1
  const PlayersLeftMsg: MsgType := 2
  const PlayersMovingMsg: MsgType := 3
  const AmmaMovingMsg: MsgType := 4
  const PingMsg: MsgType := 5
  const PongMsg: MsgType := 6

  /** Bytes `binary.Write` gives one `Player`: 4 + 4 + 4 + 1 + 1. */
  const PLAYER_RECORD_SIZE: nat := 14

  /** What a decoder leaves in its receiver, and the error it returns. */
  datatype Decoded<T> = Decoded(receiver: T, status: Outcome)

  // ---------------------------------------------------------------------
  // Player records

  datatype Player = Player(id: uint32, x: Float32, y: Float32, hue: uint8, moving: uint8)

  /** `binary.Write(buf, binary.LittleEndian, player)`: the fields in
      declaration order, packed, little-endian. */
  function PlayerRecord(p: Player): (r: seq<uint8>)
    ensures |r| == PLAYER_RECORD_SIZE
  {
    LE32(p.id) + LE32(p.x.bits) + LE32(p.y.bits) + [p.hue, p.moving]
  }

  /** Reads one record back. */
  function ParsePlayerRecord(b: seq<uint8>): Player
    requires |b| == PLAYER_RECORD_SIZE
  {
    Player(FromLE32(b[0..4]), Float32(FromLE32(b[4..8])), Float32(FromLE32(b[8..12])), b[12], b[13])
  }

  lemma PlayerRecordRoundTrip(p: Player)
    ensures ParsePlayerRecord(PlayerRecord(p)) == p
  {
    var b := PlayerRecord(p);
    assert b[0..4] == LE32(p.id);
    assert b[4..8] == LE32(p.x.bits);
    assert b[8..12] == LE32(p.y.bits);
    LE32RoundTrip(p.id);
    LE32RoundTrip(p.x.bits);
    LE32RoundTrip(p.y.bits);
  }

  lemma ParsedPlayerRecord(b: seq<uint8>)
    requires |b| == PLAYER_RECORD_SIZE
    ensures PlayerRecord(ParsePlayerRecord(b)) == b
  {
    FromLE32RoundTrip(b[0..4]);
    FromLE32RoundTrip(b[4..8]);
    FromLE32RoundTrip(b[8..12]);
    assert b == b[0..4] + b[4..8] + b[8..12] + [b[12], b[13]];
  }

  /** The records of `players`, one after another in list order. */
  function PlayerRecords(players: seq<Player>): seq<uint8>
  {
    if players == [] then []
    else PlayerRecords(players[..|players| - 1]) + PlayerRecord(players[|players| - 1])
  }

  lemma {:induction false} PlayerRecordsLength(players: seq<Player>)
    ensures |PlayerRecords(players)| == PLAYER_RECORD_SIZE * |players|
  {
    if players != [] {
      PlayerRecordsLength(players[..|players| - 1]);
    }
  }

  /** Record `i` occupies bytes `14·i` to `14·i + 14` and holds `players[i]`. */
  lemma {:induction false} PlayerRecordsAt(players: seq<Player>, i: nat)
    requires i < |players|
    ensures |PlayerRecords(players)| == PLAYER_RECORD_SIZE * |players|
    ensures PlayerRecords(players)[PLAYER_RECORD_SIZE * i..PLAYER_RECORD_SIZE * i + PLAYER_RECORD_SIZE]
            == PlayerRecord(players[i])
  {
    PlayerRecordsLength(players);
    var front := players[..|players| - 1];
    PlayerRecordsLength(front);
    if i < |players| - 1 {
      PlayerRecordsAt(front, i);
      assert front[i] == players[i];
    }
  }

  lemma WholeRecords(n: nat)
    ensures (PLAYER_RECORD_SIZE * n) % PLAYER_RECORD_SIZE == 0
  {
  }

  /** Splits a whole number of records into players. */
  function ParsePlayerRecords(b: seq<uint8>): seq<Player>
    requires |b| % PLAYER_RECORD_SIZE == 0
    decreases |b|
  {
    if |b| == 0 then []
    else
      var cut := |b| - PLAYER_RECORD_SIZE;
      ParsePlayerRecords(b[..cut]) + [ParsePlayerRecord(b[cut..])]
  }

  /** The records of a non-empty list end with the last player's record. */
  lemma PlayerRecordsSplitLast(players: seq<Player>)
    requires players != []
    ensures |PlayerRecords(players)| >= PLAYER_RECORD_SIZE
    ensures var cut := |PlayerRecords(players)| - PLAYER_RECORD_SIZE;
      && PlayerRecords(players)[..cut] == PlayerRecords(players[..|players| - 1])
      && PlayerRecords(players)[cut..] == PlayerRecord(players[|players| - 1])
  {
  }

  lemma {:induction false} PlayerRecordsRoundTrip(players: seq<Player>)
    ensures |PlayerRecords(players)| % PLAYER_RECORD_SIZE == 0
    ensures ParsePlayerRecords(PlayerRecords(players)) == players
  {
    PlayerRecordsLength(players);
    WholeRecords(|players|);
    if players != [] {
      var b := PlayerRecords(players);
      var front, last := players[..|players| - 1], players[|players| - 1];
      PlayerRecordsSplitLast(players);
      PlayerRecordsRoundTrip(front);
      PlayerRecordRoundTrip(last);
      var cut := |b| - PLAYER_RECORD_SIZE;
      assert ParsePlayerRecords(b) == ParsePlayerRecords(b[..cut]) + [ParsePlayerRecord(b[cut..])];
      assert players == front + [last];
    }
  }

  lemma {:induction false} ParsedPlayerRecords(b: seq<uint8>)
    requires |b| % PLAYER_RECORD_SIZE == 0
    ensures PlayerRecords(ParsePlayerRecords(b)) == b
    decreases |b|
  {
    if |b| != 0 {
      var cut := |b| - PLAYER_RECORD_SIZE;
      var players := ParsePlayerRecords(b);
      var front := ParsePlayerRecords(b[..cut]);
      assert players[..|players| - 1] == front;
      ParsedPlayerRecords(b[..cut]);
      ParsedPlayerRecord(b[cut..]);
      assert b == b[..cut] + b[cut..];
    }
  }

  // ---------------------------------------------------------------------
  // PlayersJoined and PlayersMoving: a tag, then the player records

  /** The bytes of a player batch message tagged `kind`. */
  function PlayerBatch(kind: MsgType, players: seq<Player>): (r: seq<uint8>)
    ensures |r| == 1 + PLAYER_RECORD_SIZE * |players| && r[0] == kind
  {
    PlayerRecordsLength(players);
    [kind] + PlayerRecords(players)
  }

  /** Reference decoder of a player batch (no counterpart in the Go code):
      the tag is `kind` and a whole number of records follows. */
  function ParsePlayerBatch(kind: MsgType, b: seq<uint8>): Option<seq<Player>>
  {
    if |b| >= 1 && b[0] == kind && (|b| - 1) % PLAYER_RECORD_SIZE == 0
    then Some(ParsePlayerRecords(b[1..]))
    else None
  }

  /** A batch is its tag and then each player's record in list order, so it is
      `1 + 14·n` bytes long and an empty batch is the tag alone. */
  lemma PlayerBatchLayout(kind: MsgType, players: seq<Player>)
    ensures |PlayerBatch(kind, players)| == 1 + PLAYER_RECORD_SIZE * |players|
    ensures PlayerBatch(kind, players)[0] == kind
    ensures forall i :: 0 <= i < |players| ==>
      PlayerBatch(kind, players)[1 + PLAYER_RECORD_SIZE * i..1 + PLAYER_RECORD_SIZE * i + PLAYER_RECORD_SIZE]
      == PlayerRecord(players[i])
  {
    PlayerRecordsLength(players);
    var b := PlayerBatch(kind, players);
    forall i | 0 <= i < |players|
      ensures b[1 + PLAYER_RECORD_SIZE * i..1 + PLAYER_RECORD_SIZE * i + PLAYER_RECORD_SIZE]
              == PlayerRecord(players[i])
    {
      PlayerRecordsAt(players, i);
      var lo := PLAYER_RECORD_SIZE * i;
      assert b[1 + lo..1 + lo + PLAYER_RECORD_SIZE] == PlayerRecords(players)[lo..lo + PLAYER_RECORD_SIZE];
    }
  }

  lemma PlayerBatchRoundTrip(kind: MsgType, players: seq<Player>)
    ensures ParsePlayerBatch(kind, PlayerBatch(kind, players)) == Some(players)
  {
    PlayerRecordsRoundTrip(players);
    assert PlayerBatch(kind, players)[1..] == PlayerRecords(players);
  }

  /** Whatever the reference decoder accepts is the encoding of the players
      it yields. */
  lemma ParsedPlayerBatch(kind: MsgType, b: seq<uint8>)
    requires ParsePlayerBatch(kind, b).Some?
    ensures PlayerBatch(kind, ParsePlayerBatch(kind, b).value) == b
  {
    ParsedPlayerRecords(b[1..]);
    assert b == [b[0]] + b[1..];
  }

  /** One step of the batch encoders' loops: `binary.Write` of one `Player`
      struct. */
  method WritePlayer(buf: Buffer, p: Player)
    modifies buf
    ensures buf.bytes == old(buf.bytes) + PlayerRecord(p)
  {
    buf.WriteUint32(p.id);
    buf.WriteFloat32(p.x);
    buf.WriteFloat32(p.y);
    buf.WriteByte(p.hue);
    buf.WriteByte(p.moving);
  }

  /** The loop shared by `PlayersJoinedMsgStruct.Encode` and
      `PlayersMovingMsgStruct.Encode`: the tag, then each player. */
  method EncodePlayerBatch(kind: MsgType, players: seq<Player>) returns (bytes: seq<uint8>)
    ensures bytes == PlayerBatch(kind, players)
  {
    var buf := new Buffer();
    buf.WriteByte(kind);
    var i := 0;
    while i < |players|
      invariant 0 <= i <= |players|
      invariant buf.bytes == [kind] + PlayerRecords(players[..i])
    {
      WritePlayer(buf, players[i]);
      assert players[..i + 1][..i] == players[..i];
      i := i + 1;
    }
    assert players[..i] == players;
    bytes := buf.Bytes();
  }

  datatype PlayersJoinedMsgStruct = PlayersJoinedMsgStruct(players: seq<Player>)
  {
    method Encode() returns (r: Result<seq<uint8>>)
      ensures r == Ok(PlayerBatch(PlayersJoinedMsg, players))
    {
      var bytes := EncodePlayerBatch(PlayersJoinedMsg, players);
      r := Ok(bytes);
    }

    function Decode(data: seq<uint8>): (r: Outcome)
      ensures r.Fail?
    {
      Fail(Unsupported("`PlayersJoinedMsgStruct` only client msg"))
    }
  }

  datatype PlayersMovingMsgStruct = PlayersMovingMsgStruct(players: seq<Player>)
  {
    method Encode() returns (r: Result<seq<uint8>>)
      ensures r == Ok(PlayerBatch(PlayersMovingMsg, players))
    {
      var bytes := EncodePlayerBatch(PlayersMovingMsg, players);
      r := Ok(bytes);
    }

    function Decode(data: seq<uint8>): (r: Outcome)
      ensures r.Fail?
    {
      Fail(Unsupported("`PlayersMovingMsgStruct` only client msg"))
    }
  }

  // ---------------------------------------------------------------------
  // PlayersLeft: a tag, then the ids

  /** Each id as four little-endian bytes, in list order. */
  function IdWords(ids: seq<uint32>): seq<uint8>
  {
    if ids == [] then [] else IdWords(ids[..|ids| - 1]) + LE32(ids[|ids| - 1])
  }

  lemma {:induction false} IdWordsLength(ids: seq<uint32>)
    ensures |IdWords(ids)| == 4 * |ids|
  {
    if ids != [] {
      IdWordsLength(ids[..|ids| - 1]);
    }
  }

  lemma {:induction false} IdWordsAt(ids: seq<uint32>, i: nat)
    requires i < |ids|
    ensures |IdWords(ids)| == 4 * |ids|
    ensures IdWords(ids)[4 * i..4 * i + 4] == LE32(ids[i])
  {
    IdWordsLength(ids);
    var front := ids[..|ids| - 1];
    IdWordsLength(front);
    if i < |ids| - 1 {
      IdWordsAt(front, i);
      assert front[i] == ids[i];
    }
  }

  lemma WholeWords(n: nat)
    ensures (4 * n) % 4 == 0
  {
  }

  function ParseIdWords(b: seq<uint8>): seq<uint32>
    requires |b| % 4 == 0
    decreases |b|
  {
    if |b| == 0 then [] else ParseIdWords(b[..|b| - 4]) + [FromLE32(b[|b| - 4..])]
  }

  lemma {:induction false} IdWordsRoundTrip(ids: seq<uint32>)
    ensures |IdWords(ids)| % 4 == 0
    ensures ParseIdWords(IdWords(ids)) == ids
  {
    var b := IdWords(ids);
    IdWordsLength(ids);
    WholeWords(|ids|);
    if ids != [] {
      var front, last := ids[..|ids| - 1], ids[|ids| - 1];
      IdWordsLength(front);
      WholeWords(|front|);
      IdWordsRoundTrip(front);
      LE32RoundTrip(last);
      var cut := |b| - 4;
      assert b == IdWords(front) + LE32(last);
      assert cut == |IdWords(front)|;
      assert b[..cut] == IdWords(front);
      assert b[cut..] == LE32(last);
      assert ParseIdWords(b) == ParseIdWords(b[..cut]) + [FromLE32(b[cut..])];
      assert ids == front + [last];
    }
  }

  lemma {:induction false} ParsedIdWords(b: seq<uint8>)
    requires |b| % 4 == 0
    ensures IdWords(ParseIdWords(b)) == b
    decreases |b|
  {
    if |b| != 0 {
      var ids := ParseIdWords(b);
      assert ids[..|ids| - 1] == ParseIdWords(b[..|b| - 4]);
      ParsedIdWords(b[..|b| - 4]);
      FromLE32RoundTrip(b[|b| - 4..]);
      assert b == b[..|b| - 4] + b[|b| - 4..];
    }
  }

  /** The bytes of a PlayersLeft message: tag 2, then the ids. */
  function PlayersLeftBytes(ids: seq<uint32>): (r: seq<uint8>)
    ensures |r| == 1 + 4 * |ids| && r[0] == PlayersLeftMsg
  {
    IdWordsLength(ids);
    [PlayersLeftMsg] + IdWords(ids)
  }

  /** Reference decoder of a PlayersLeft message (no counterpart in the Go
      code): tag 2, then a whole number of words. */
  function ParsePlayersLeft(b: seq<uint8>): Option<seq<uint32>>
  {
    if |b| >= 1 && b[0] == PlayersLeftMsg && (|b| - 1) % 4 == 0
    then Some(ParseIdWords(b[1..]))
    else None
  }

  /** Tag 2, then each id as a four-byte word in list order: `1 + 4·n` bytes. */
  lemma PlayersLeftLayout(ids: seq<uint32>)
    ensures |PlayersLeftBytes(ids)| == 1 + 4 * |ids|
    ensures PlayersLeftBytes(ids)[0] == PlayersLeftMsg
    ensures forall i :: 0 <= i < |ids| ==> PlayersLeftBytes(ids)[1 + 4 * i..5 + 4 * i] == LE32(ids[i])
  {
    IdWordsLength(ids);
    var b := PlayersLeftBytes(ids);
    forall i | 0 <= i < |ids|
      ensures b[1 + 4 * i..5 + 4 * i] == LE32(ids[i])
    {
      IdWordsAt(ids, i);
      assert b[1 + 4 * i..5 + 4 * i] == IdWords(ids)[4 * i..4 * i + 4];
    }
  }

  lemma PlayersLeftRoundTrip(ids: seq<uint32>)
    ensures ParsePlayersLeft(PlayersLeftBytes(ids)) == Some(ids)
  {
    IdWordsRoundTrip(ids);
    assert PlayersLeftBytes(ids)[1..] == IdWords(ids);
  }

  /** Distinct ids go out as distinct words, so a receiver can tell the
      departed players apart. */
  lemma PlayersLeftWordsDistinct(ids: seq<uint32>, i: nat, j: nat)
    requires i < |ids| && j < |ids| && ids[i] != ids[j]
    ensures PlayersLeftBytes(ids)[1 + 4 * i..5 + 4 * i] != PlayersLeftBytes(ids)[1 + 4 * j..5 + 4 * j]
  {
    PlayersLeftLayout(ids);
    if LE32(ids[i]) == LE32(ids[j]) {
      LE32Injective(ids[i], ids[j]);
    }
  }

  lemma ParsedPlayersLeft(b: seq<uint8>)
    requires ParsePlayersLeft(b).Some?
    ensures PlayersLeftBytes(ParsePlayersLeft(b).value) == b
  {
    ParsedIdWords(b[1..]);
    assert b == [b[0]] + b[1..];
  }

  datatype PlayersLeftMsgStruct = PlayersLeftMsgStruct(playerIDs: seq<uint32>)
  {
    method Encode() returns (r: Result<seq<uint8>>)
      ensures r == Ok(PlayersLeftBytes(playerIDs))
    {
      var buf := new Buffer();
      buf.WriteByte(PlayersLeftMsg);
      var i := 0;
      while i < |playerIDs|
        invariant 0 <= i <= |playerIDs|
        invariant buf.bytes == [PlayersLeftMsg] + IdWords(playerIDs[..i])
      {
        buf.WriteUint32(playerIDs[i]);
        assert playerIDs[..i + 1][..i] == playerIDs[..i];
        i := i + 1;
      }
      assert playerIDs[..i] == playerIDs;
      r := Ok(buf.Bytes());
    }

    function Decode(data: seq<uint8>): (r: Outcome)
      ensures r.Fail?
    {
      Fail(Unsupported("`PlayersLeftMsgStruct` only client msg"))
    }
  }

  // ---------------------------------------------------------------------
  // Hello

  /** The bytes of a Hello message: tag 0, then the fields in declaration
      order. */
  function HelloBytes(h: HelloMsgStruct): (r: seq<uint8>)
    ensures |r| == 14 && r[0] == HelloMsg
  {
    [HelloMsg] + LE32(h.id) + LE32(h.x.bits) + LE32(h.y.bits) + [h.hue]
  }

  /** Reference decoder of a Hello message (no counterpart in the Go code):
      14 bytes, tag 0. */
  function ParseHello(b: seq<uint8>): Option<HelloMsgStruct>
  {
    if |b| == 14 && b[0] == HelloMsg
    then Some(HelloMsgStruct(FromLE32(b[1..5]), Float32(FromLE32(b[5..9])), Float32(FromLE32(b[9..13])), b[13]))
    else None
  }

  /** Hello is 14 bytes: tag 0, `ID`, the bits of `X` and `Y`, then `Hue`. */
  lemma HelloLayout(h: HelloMsgStruct)
    ensures |HelloBytes(h)| == 14
    ensures HelloBytes(h)[0] == HelloMsg
    ensures FromLE32(HelloBytes(h)[1..5]) == h.id
    ensures FromLE32(HelloBytes(h)[5..9]) == h.x.bits
    ensures FromLE32(HelloBytes(h)[9..13]) == h.y.bits
    ensures HelloBytes(h)[13] == h.hue
  {
    var b := HelloBytes(h);
    assert b[1..5] == LE32(h.id);
    assert b[5..9] == LE32(h.x.bits);
    assert b[9..13] == LE32(h.y.bits);
    LE32RoundTrip(h.id);
    LE32RoundTrip(h.x.bits);
    LE32RoundTrip(h.y.bits);
  }

  lemma HelloRoundTrip(h: HelloMsgStruct)
    ensures ParseHello(HelloBytes(h)) == Some(h)
  {
    HelloLayout(h);
  }

  lemma ParsedHello(b: seq<uint8>)
    requires ParseHello(b).Some?
    ensures HelloBytes(ParseHello(b).value) == b
  {
    FromLE32RoundTrip(b[1..5]);
    FromLE32RoundTrip(b[5..9]);
    FromLE32RoundTrip(b[9..13]);
    assert b == [b[0]] + b[1..5] + b[5..9] + b[9..13] + [b[13]];
  }

  /** `NewHelloMsgStruct(id, x, y, hue)` is this datatype's constructor. */
  datatype HelloMsgStruct = HelloMsgStruct(id: uint32, x: Float32, y: Float32, hue: uint8)
  {
    /** The tag byte, then `binary.Write` of the struct. */
    method Encode() returns (r: Result<seq<uint8>>)
      ensures r == Ok(HelloBytes(this))
    {
      var buf := new Buffer();
      buf.WriteByte(HelloMsg);
      assert buf.bytes == [HelloMsg];
      buf.WriteUint32(id);
      buf.WriteFloat32(x);
      buf.WriteFloat32(y);
      buf.WriteByte(hue);
      r := Ok(buf.Bytes());
    }

    function Decode(data: seq<uint8>): (r: Outcome)
      ensures r.Fail?
    {
      Fail(Unsupported("`HelloMsg` only client msg"))
    }
  }

  // ---------------------------------------------------------------------
  // AmmaMoving

  /** Bytes `AmmaMovingMsgStruct.Encode` writes: the PlayersLeft tag, then the
      AmmaMoving tag, then the two fields. */
  function AmmaMovingBytes(direction: uint8, start: uint8): (r: seq<uint8>)
    ensures |r| == 4 && r[0] != AmmaMovingMsg
  {
    [PlayersLeftMsg, AmmaMovingMsg, direction, start]
  }

  /** The layout the decoder expects: the AmmaMoving tag, then the fields. */
  function AmmaMovingIntendedBytes(direction: uint8, start: uint8): seq<uint8>
  {
    [AmmaMovingMsg, direction, start]
  }

  /** What `AmmaMovingMsgStruct.Decode` does to a receiver holding
      `(direction, start)`: it reads the tag, `Direction` and `Start` in turn
      and stops at the first failure, keeping what it read so far. */
  function DecodeAmmaMoving(data: seq<uint8>, direction: uint8, start: uint8): (r: Decoded<(uint8, uint8)>)
    ensures |data| == 0 ==> r == Decoded((direction, start), Fail(EOF))
    ensures |data| >= 1 && data[0] != AmmaMovingMsg ==>
      r == Decoded((direction, start), Fail(MsgTypeMismatch(AmmaMovingMsg, data[0])))
    ensures |data| == 1 && data[0] == AmmaMovingMsg ==> r == Decoded((direction, start), Fail(EOF))
    ensures |data| == 2 && data[0] == AmmaMovingMsg ==> r == Decoded((data[1], start), Fail(EOF))
    ensures |data| >= 3 && data[0] == AmmaMovingMsg ==> r == Decoded((data[1], data[2]), Pass)
  {
    var kind := ReadUint8At(data, 0);
    if kind.result.Err? then Decoded((direction, start), Fail(kind.result.error))
    else if kind.result.value != AmmaMovingMsg then
      Decoded((direction, start), Fail(MsgTypeMismatch(AmmaMovingMsg, kind.result.value)))
    else
      var d := ReadUint8At(data, kind.pos);
      if d.result.Err? then Decoded((direction, start), Fail(d.result.error))
      else
        var s := ReadUint8At(data, d.pos);
        if s.result.Err? then Decoded((d.result.value, start), Fail(s.result.error))
        else Decoded((d.result.value, s.result.value), Pass)
  }

  /** Encoding and then decoding an AmmaMoving message always fails: the
      first byte on the wire is the PlayersLeft tag, and the receiver keeps
      its old fields. */
  lemma AmmaMovingRoundTripFails(direction: uint8, start: uint8, direction0: uint8, start0: uint8)
    ensures DecodeAmmaMoving(AmmaMovingBytes(direction, start), direction0, start0)
            == Decoded((direction0, start0), Fail(MsgTypeMismatch(AmmaMovingMsg, PlayersLeftMsg)))
  {
  }

  /** With the intended layout the decoder recovers both fields, whatever the
      receiver held before. */
  lemma AmmaMovingIntendedRoundTrip(direction: uint8, start: uint8, direction0: uint8, start0: uint8)
    ensures DecodeAmmaMoving(AmmaMovingIntendedBytes(direction, start), direction0, start0)
            == Decoded((direction, start), Pass)
  {
  }

  class AmmaMovingMsgStruct {
    var direction: uint8
    var start: uint8

    constructor (direction: uint8, start: uint8)
      ensures this.direction == direction && this.start == start
    {
      this.direction := direction;
      this.start := start;
    }

    method Encode() returns (r: Result<seq<uint8>>)
      ensures r == Ok(AmmaMovingBytes(direction, start))
    {
      var buf := new Buffer();
      buf.WriteByte(PlayersLeftMsg);
      buf.WriteByte(AmmaMovingMsg);
      buf.WriteByte(direction);
      buf.WriteByte(start);
      assert buf.bytes == [PlayersLeftMsg, AmmaMovingMsg, direction, start];
      r := Ok(buf.Bytes());
    }

    method Decode(data: seq<uint8>) returns (err: Outcome)
      modifies this
      ensures Decoded((direction, start), err) == DecodeAmmaMoving(data, old(direction), old(start))
    {
      var buf := new Reader(data);
      var kind := buf.ReadUint8();
      if kind.Err? {
        return Fail(kind.error);
      }
      if kind.value != AmmaMovingMsg {
        return Fail(MsgTypeMismatch(AmmaMovingMsg, kind.value));
      }
      var d := buf.ReadUint8();
      if d.Err? {
        return Fail(d.error);
      }
      direction := d.value;
      var s := buf.ReadUint8();
      if s.Err? {
        return Fail(s.error);
      }
      start := s.value;
      return Pass;
    }
  }

  // ---------------------------------------------------------------------
  // Ping and Pong

  /** The Ping a client sends: tag 5, then the timestamp. */
  function PingBytes(timestamp: uint32): seq<uint8>
  {
    [PingMsg] + LE32(timestamp)
  }

  /** What `PingMsgStruct.Decode` does to a receiver holding `timestamp`. */
  function DecodePing(data: seq<uint8>, timestamp: uint32): (r: Decoded<uint32>)
    ensures r.status == Pass <==> |data| >= 5 && data[0] == PingMsg
    ensures r.status == Pass ==> r.receiver == FromLE32(data[1..5])
    ensures r.status.Fail? ==> r.receiver == timestamp
    ensures |data| == 0 ==> r.status == Fail(EOF)
    ensures |data| >= 1 && data[0] != PingMsg ==> r.status == Fail(MsgTypeMismatch(PingMsg, data[0]))
    ensures |data| == 1 && data[0] == PingMsg ==> r.status == Fail(EOF)
    ensures 2 <= |data| < 5 && data[0] == PingMsg ==> r.status == Fail(UnexpectedEOF)
  {
    var kind := ReadUint8At(data, 0);
    if kind.result.Err? then Decoded(timestamp, Fail(kind.result.error))
    else if kind.result.value != PingMsg then
      Decoded(timestamp, Fail(MsgTypeMismatch(PingMsg, kind.result.value)))
    else
      var t := ReadUint32At(data, kind.pos);
      if t.result.Err? then Decoded(timestamp, Fail(t.result.error))
      else Decoded(t.result.value, Pass)
  }

  /** A client's Ping decodes to its timestamp, whatever the receiver held. */
  lemma PingRoundTrip(timestamp: uint32, timestamp0: uint32)
    ensures DecodePing(PingBytes(timestamp), timestamp0) == Decoded(timestamp, Pass)
  {
    assert PingBytes(timestamp)[1..5] == LE32(timestamp);
    LE32RoundTrip(timestamp);
  }

  /** Trailing bytes after a whole Ping do not matter. */
  lemma DecodePingIgnoresTrailing(data: seq<uint8>, extra: seq<uint8>, timestamp: uint32)
    requires |data| >= 5
    ensures DecodePing(data + extra, timestamp) == DecodePing(data, timestamp)
  {
  }

  class PingMsgStruct {
    var timestamp: uint32

    /** `NewPingMsgStruct(players)`: the argument is ignored. */
    constructor FromPlayers(players: seq<Player>)
      ensures timestamp == 0
    {
      timestamp := 0;
    }

    method Encode() returns (r: Result<seq<uint8>>)
      ensures r.Err?
    {
      r := Err(Unsupported("`PingMsgStruct` only client msg"));
    }

    method Decode(data: seq<uint8>) returns (err: Outcome)
      modifies this
      ensures Decoded(timestamp, err) == DecodePing(data, old(timestamp))
    {
      var buf := new Reader(data);
      var kind := buf.ReadUint8();
      if kind.Err? {
        return Fail(kind.error);
      }
      if kind.value != PingMsg {
        return Fail(MsgTypeMismatch(PingMsg, kind.value));
      }
      var t := buf.ReadUint32();
      if t.Err? {
        return Fail(t.error);
      }
      timestamp := t.value;
      return Pass;
    }
  }

  /** The bytes of a Pong message: tag 6, then the timestamp. */
  function PongBytes(timestamp: uint32): (r: seq<uint8>)
    ensures |r| == 5 && r[0] == PongMsg
  {
    [PongMsg] + LE32(timestamp)
  }

  /** Reference decoder of a Pong message (no counterpart in the Go code):
      5 bytes, tag 6. */
  function ParsePong(b: seq<uint8>): Option<uint32>
  {
    if |b| == 5 && b[0] == PongMsg then Some(FromLE32(b[1..5])) else None
  }

  lemma PongRoundTrip(timestamp: uint32)
    ensures |PongBytes(timestamp)| == 5
    ensures ParsePong(PongBytes(timestamp)) == Some(timestamp)
  {
    assert PongBytes(timestamp)[1..5] == LE32(timestamp);
    LE32RoundTrip(timestamp);
  }

  lemma ParsedPong(b: seq<uint8>)
    requires ParsePong(b).Some?
    ensures PongBytes(ParsePong(b).value) == b
  {
    FromLE32RoundTrip(b[1..5]);
    assert b == [b[0]] + b[1..5];
  }

  /** A Pong built from a successfully decoded Ping carries the Ping's four
      timestamp bytes unchanged after tag 6. */
  lemma PongEchoesPing(data: seq<uint8>, timestamp0: uint32)
    requires DecodePing(data, timestamp0).status == Pass
    ensures PongBytes(DecodePing(data, timestamp0).receiver) == [PongMsg] + data[1..5]
  {
    FromLE32RoundTrip(data[1..5]);
  }

  /** `NewPongMsgStruct(timestamp)` is this datatype's constructor. */
  datatype PongMsgStruct = PongMsgStruct(timestamp: uint32)
  {
    /** The tag byte, then `binary.Write` of the struct. */
    method Encode() returns (r: Result<seq<uint8>>)
      ensures r == Ok(PongBytes(timestamp))
    {
      var buf := new Buffer();
      buf.WriteByte(PongMsg);
      assert buf.bytes == [PongMsg];
      buf.WriteUint32(timestamp);
      r := Ok(buf.Bytes());
    }

    function Decode(data: seq<uint8>): (r: Outcome)
      ensures r.Fail?
    {
      Fail(Unsupported("`PongMsgStruct` only server msg"))
    }
  }
}
