/** The allocation and registry layer of `server.go`: the global id counter,
    the `players` map that `handler` fills in, `NewPlayer`, and the payload
    `sendMsg` writes for the server's own Hello struct. The websocket side
    (upgrade, read loop, writes) and the goroutines are outside the model;
    the random spawn position and hue are inputs. */
module Server {
  import opened Binary
  import Message

  /** A websocket connection. Only its identity matters here. */
  class Conn {}

  /** `server.go`'s `Player`: no hue and no movement state, unlike the
      message package's record. */
  datatype Player = Player(id: uint32, x: Float32, y: Float32, conn: Conn, remoteAddress: string)

  /** `NewPlayer(conn, remoteAddr, id, x, y)`: every argument lands in its own
      field, whatever the parameter order. */
  function NewPlayer(conn: Conn, remoteAddr: string, id: uint32, x: Float32, y: Float32): (p: Player)
    ensures p.id == id && p.x == x && p.y == y
    ensures p.conn == conn && p.remoteAddress == remoteAddr
  {
    Player(id, x, y, conn, remoteAddr)
  }

  /** `server.go`'s own `HelloMsgStruct`, whose fields are declared in the
      order x, y, hue, id. */
  datatype HelloMsgStruct = HelloMsgStruct(x: Float32, y: Float32, hue: uint8, id: uint32)

  /** What `binary.Write` produces for the struct: its fields in declaration
      order, with no tag byte in front. */
  function HelloPayload(h: HelloMsgStruct): (r: seq<uint8>)
    ensures |r| == 13
  {
    LE32(h.x.bits) + LE32(h.y.bits) + [h.hue] + LE32(h.id)
  }

  /** Reads a payload of that layout back: a reference decoder with no
      counterpart in the Go code, which never reads this payload. */
  function ParseHelloPayload(b: seq<uint8>): Option<HelloMsgStruct>
  {
    if |b| == 13
    then Some(HelloMsgStruct(Float32(FromLE32(b[0..4])), Float32(FromLE32(b[4..8])), b[8], FromLE32(b[9..13])))
    else None
  }

  /** The payload is 13 bytes: the bits of x, the bits of y, hue, then id. */
  lemma HelloPayloadLayout(h: HelloMsgStruct)
    ensures |HelloPayload(h)| == 13
    ensures FromLE32(HelloPayload(h)[0..4]) == h.x.bits
    ensures FromLE32(HelloPayload(h)[4..8]) == h.y.bits
    ensures HelloPayload(h)[8] == h.hue
    ensures FromLE32(HelloPayload(h)[9..13]) == h.id
  {
    var b := HelloPayload(h);
    assert b[0..4] == LE32(h.x.bits);
    assert b[4..8] == LE32(h.y.bits);
    assert b[9..13] == LE32(h.id);
    LE32RoundTrip(h.x.bits);
    LE32RoundTrip(h.y.bits);
    LE32RoundTrip(h.id);
  }

  lemma HelloPayloadRoundTrip(h: HelloMsgStruct)
    ensures ParseHelloPayload(HelloPayload(h)) == Some(h)
  {
    HelloPayloadLayout(h);
  }

  lemma ParsedHelloPayload(b: seq<uint8>)
    requires ParseHelloPayload(b).Some?
    ensures HelloPayload(ParseHelloPayload(b).value) == b
  {
    FromLE32RoundTrip(b[0..4]);
    FromLE32RoundTrip(b[4..8]);
    FromLE32RoundTrip(b[9..13]);
    assert b == b[0..4] + b[4..8] + [b[8]] + b[9..13];
  }

  /** The Hello the server sends is not a message of the codec in
      `message/msg.go`: it is one byte short and has no tag, so it never
      equals a codec Hello encoding, and the model's reference decoder
      `Message.ParseHello` (no counterpart in the Go code) rejects it. */
  lemma HelloPayloadIsNotCodecHello(h: HelloMsgStruct, m: Message.HelloMsgStruct)
    ensures HelloPayload(h) != Message.HelloBytes(m)
    ensures Message.ParseHello(HelloPayload(h)) == None
  {
  }

  /** `sendMsg(conn, data)` for the Hello struct: the bytes it hands to
      `conn.WriteMessage`. The write itself is network I/O and is not
      modelled; `binary.Write` into a fresh buffer cannot fail here. */
  method SendMsg(conn: Conn, data: HelloMsgStruct) returns (payload: seq<uint8>)
    ensures payload == HelloPayload(data)
  {
    var buf := new Buffer();
    buf.WriteFloat32(data.x);
    buf.WriteFloat32(data.y);
    buf.WriteByte(data.hue);
    buf.WriteUint32(data.id);
    payload := buf.Bytes();
  }

  /** The ids handed out so far, oldest first: call `k` returns `k` modulo
      2^32, the uint32 counter having started at 0. */
  ghost predicate IssuedInOrder(issued: seq<uint32>)
  {
    forall k :: 0 <= k < |issued| ==> issued[k] == k % TWO_32
  }

  /** The registry invariant: every entry sits under its own player's id, and
      that id was handed out. */
  ghost predicate Registry(players: map<uint32, Player>, issued: seq<uint32>)
  {
    && IssuedInOrder(issued)
    && forall id :: id in players ==> players[id].id == id && id in issued
  }

  /** Over at most 2^32 calls the ids are strictly increasing, hence pairwise
      distinct, and the first is 0. */
  lemma IssuedIdsIncrease(issued: seq<uint32>)
    requires IssuedInOrder(issued) && |issued| <= TWO_32
    ensures |issued| > 0 ==> issued[0] == 0
    ensures forall i, j :: 0 <= i < j < |issued| ==> issued[i] < issued[j]
  {
  }

  /** Call 2^32 returns the first id again: the counter wraps. */
  lemma IssuedIdsWrap(issued: seq<uint32>)
    requires IssuedInOrder(issued) && |issued| > TWO_32
    ensures issued[TWO_32] == issued[0] == 0
  {
  }

  /** Before the counter wraps, the next id is not yet in the registry, so
      registering it adds an entry instead of replacing one. */
  lemma NextIdUnregistered(players: map<uint32, Player>, issued: seq<uint32>)
    requires Registry(players, issued) && |issued| < TWO_32
    ensures |issued| % TWO_32 !in players
  {
  }

  /** Handing out the counter's value extends the history in order, and the
      incremented counter matches the longer history. */
  lemma IssueNext(issued: seq<uint32>, id: uint32)
    requires IssuedInOrder(issued) && id == |issued| % TWO_32
    ensures IssuedInOrder(issued + [id])
    ensures (id + 1) % TWO_32 == |issued + [id]| % TWO_32
  {
  }

  /** Storing a player under the id just handed out keeps the registry
      invariant. */
  lemma RegisterKeepsRegistry(players: map<uint32, Player>, issued: seq<uint32>, p: Player)
    requires Registry(players, issued) && |issued| > 0 && p.id == issued[|issued| - 1]
    ensures Registry(players[p.id := p], issued)
  {
  }

  /** The server's global state: `idCounter` and the `players` map. The ghost
      field `issued` records every id `getNewID` has returned. */
  class Server {
    var idCounter: uint32
    var players: map<uint32, Player>
    ghost var issued: seq<uint32>

    ghost predicate Valid()
      reads this
    {
      Registry(players, issued) && idCounter == |issued| % TWO_32
    }

    /** Program start: `init` makes the map empty and the counter is 0. */
    constructor ()
      ensures Valid()
      ensures idCounter == 0 && players == map[] && issued == []
    {
      idCounter := 0;
      players := map[];
      issued := [];
    }

    /** `getNewID`: returns the counter and increments it, wrapping at 2^32. */
    method GetNewID() returns (id: uint32)
      requires Valid()
      modifies this`idCounter, this`issued
      ensures Valid()
      ensures id == old(idCounter)
      ensures idCounter == (old(idCounter) + 1) % TWO_32
      ensures issued == old(issued) + [id]
    {
      IssueNext(issued, idCounter);
      id := idCounter;
      idCounter := (idCounter + 1) % TWO_32;
      issued := issued + [id];
    }

    /** `handler` after the upgrade (`server.go` lines 76-89): take a fresh id,
        build the player, store it under that id and produce the Hello
        payload. The spawn values `x`, `y`, `hue` and the remote address are
        inputs; the entry is never removed afterwards. */
    method Connect(conn: Conn, remoteAddr: string, x: Float32, y: Float32, hue: uint8)
      returns (id: uint32, hello: seq<uint8>)
      requires Valid()
      modifies this
      ensures Valid()
      ensures id == old(idCounter)
      ensures idCounter == (old(idCounter) + 1) % TWO_32
      ensures issued == old(issued) + [id]
      ensures players == old(players)[id := NewPlayer(conn, remoteAddr, id, x, y)]
      ensures old(players).Keys <= players.Keys
      ensures |old(issued)| < TWO_32 ==> id !in old(players)
      ensures hello == HelloPayload(HelloMsgStruct(x, y, hue, id))
    {
      if |issued| < TWO_32 {
        NextIdUnregistered(players, issued);
      }
      id := GetNewID();
      var player := NewPlayer(conn, remoteAddr, id, x, y);
      RegisterKeepsRegistry(players, issued, player);
      players := players[id := player];
      hello := SendMsg(conn, HelloMsgStruct(x, y, hue, id));
    }
  }
}
