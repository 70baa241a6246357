# Multiplayer game prototype: wire codec and server registry in Dafny

This project models two parts of the Go server of a small multiplayer arena game.

The first part is the binary message codec of `message/msg.go`. It has seven message kinds, each tagged by one leading byte: Hello 0, PlayersJoined 1, PlayersLeft 2, PlayersMoving 3, AmmaMoving 4, Ping 5 and Pong 6. The server encodes the kinds it sends into a `bytes.Buffer` with `encoding/binary`, little-endian. It decodes the two kinds a client sends (AmmaMoving, Ping) from a `bytes.Reader`, field by field, into the receiver struct. Every other direction is a stub that returns a fixed error.

The second part is the registry layer of `server.go`. It covers the global `idCounter` and `getNewID`, `NewPlayer`, the insertion into the global `players` map done by `handler`, and the Hello payload that `sendMsg` writes for the server's own `HelloMsgStruct`.

Layout:

- `binary.dfy`, module `Binary`. It holds the part of Go's `encoding/binary`, `bytes` and `io` that the code relies on:
  - `uint8` and `uint32`;
  - `Float32`, a float32 kept only as its IEEE-754 bit pattern;
  - little-endian words (`LE32`, `FromLE32`);
  - an append-only `Buffer` class;
  - a `Reader` class, whose reads follow `io.ReadFull`: `EOF` when nothing is left, `UnexpectedEOF` when only part of a word is left;
  - the error values the code returns.
- `message.dfy`, module `Message`, for `message/msg.go`:
  - Messages that are only encoded are datatypes with an `Encode` method and a `Decode` stub: Hello, PlayersJoined, PlayersLeft, PlayersMoving and Pong. A Go constructor `NewXMsgStruct(...)` is the datatype's own constructor.
  - `AmmaMovingMsgStruct` and `PingMsgStruct` are classes, because their `Decode` assigns receiver fields in place.
  - Each `Encode` builds its output in a `Buffer`, step by step, as the Go code does. The batch encoders do it in a `while` loop with invariants. Each is proved equal to a layout function (`HelloBytes`, `PlayerBatch`, `PlayersLeftBytes`, `AmmaMovingBytes`, `PongBytes`).
  - Each decoder reads through a `Reader` and is proved equal to a pure function (`DecodeAmmaMoving`, `DecodePing`) that says what error is returned and what the receiver holds afterwards, case by case.
  - Beside every encoder stands a reference decoder (`ParseHello`, `ParsePlayerBatch`, `ParsePlayersLeft`, `ParsePong`). None of them has a counterpart in the Go code, whose decoders for these kinds are stubs. Each accepts exactly a tag of the right kind followed by the right number of bytes, and lemmas prove it inverse to the encoder in both directions.
- `server.dfy`, module `Server`, for `server.go`:
  - A `Server` class with fields `idCounter` and `players`. A ghost history `issued` records every id handed out, and the invariant `Valid()` ties the counter and the map to that history.
  - A pure `HelloPayload` encoder and its reference decoder `ParseHelloPayload`, which has no counterpart in the Go code.

Layout notes:

- Hello is 1 + 4 + 4 + 4 + 1 = 14 bytes, and a player record is 4 + 4 + 4 + 1 + 1 = 14 bytes.
- The decoders of AmmaMoving and Ping ignore trailing bytes after a complete message.
- AmmaMoving's direction and start are not range-checked.
- The Hello that `server.go` sends has no tag and orders its fields x, y, hue, id, so it is 13 bytes. It never equals a codec Hello encoding (`Server.HelloPayloadIsNotCodecHello`).

## Model

| member | source | states |
|---|---|---|
| Binary.LE32RoundTrip | message/msg.go:49 | reading back the four little-endian bytes written for a uint32 gives the same word |
| Binary.FromLE32RoundTrip | message/msg.go:224 | re-encoding a word read from any four bytes gives back those four bytes, so the encoding is a bijection |
| Binary.LE32Injective | message/msg.go:103 | two ids with the same four bytes on the wire are equal |
| Message.PlayersLeftWordsDistinct | message/msg.go:102-107 | two different ids in a PlayersLeft message are written as different four-byte words |
| Binary.ReadUint8At | message/msg.go:151-153 | a one-byte read succeeds exactly when a byte is left, returns it and advances by one; otherwise it returns `io.EOF` and does not move |
| Binary.ReadUint32At | message/msg.go:224-227 | a word read succeeds exactly when four bytes are left and returns their little-endian value; with none left it returns `EOF`, with one to three left it returns `UnexpectedEOF` |
| Binary.Reader.ReadUint8 | message/msg.go:160-163 | the reader's byte read behaves as `ReadUint8At` on its position |
| Binary.Reader.ReadUint32 | message/msg.go:224-227 | the reader's word read behaves as `ReadUint32At` on its position |
| Binary.Buffer.WriteByte | message/msg.go:47 | appends exactly the one byte |
| Binary.Buffer.WriteUint32 | message/msg.go:103 | appends exactly the four little-endian bytes of the word |
| Binary.Buffer.WriteFloat32 | message/msg.go:49 | appends exactly the four little-endian bytes of the float's bit pattern |
| Message.PlayerRecord | message/msg.go:60-66 | `binary.Write` of a `Player` is 14 bytes |
| Message.PlayerRecordRoundTrip | message/msg.go:60-66 | a player record decodes back to the same `ID`, `X`, `Y`, `Hue`, `Moving` |
| Message.ParsedPlayerRecord | message/msg.go:60-66 | every 14-byte string is the record of exactly the player read from it |
| Message.PlayerRecordsLength | message/msg.go:76-81 | n players give 14·n bytes of records |
| Message.PlayerRecordsAt | message/msg.go:76-81 | record i sits at bytes 14·i to 14·i+14 and is the record of the i-th player: list order is kept |
| Message.PlayerRecordsRoundTrip | message/msg.go:76-81 | the concatenated records split back into the same player list |
| Message.ParsedPlayerRecords | message/msg.go:76-81 | every whole number of records is the encoding of the players read from it |
| Message.PlayerBatchLayout | message/msg.go:72-84 | a batch is `1 + 14·n` bytes: the tag, then each player's record in list order; an empty list gives the tag alone |
| Message.PlayerBatch | message/msg.go:72-84 | the layout both batch encoders produce: `1 + 14·n` bytes starting with the tag |
| Message.PlayerBatchRoundTrip | message/msg.go:72-84 | the reference decoder `ParsePlayerBatch` (no counterpart in the source) accepts an encoded batch and recovers the player list |
| Message.ParsedPlayerBatch | message/msg.go:181-193 | anything `ParsePlayerBatch` accepts (right tag, length `1 + 14·k`) is the encoding of the players it yields |
| Message.WritePlayer | message/msg.go:77 | writing one player appends exactly its 14-byte record |
| Message.EncodePlayerBatch | message/msg.go:76-81 | the encoding loop yields the tag followed by every player's record, in list order |
| Message.PlayersJoinedMsgStruct.Encode | message/msg.go:72-84 | PlayersJoined always succeeds and yields tag 1 and then the player records |
| Message.PlayersJoinedMsgStruct.Decode | message/msg.go:86-88 | decoding PlayersJoined always fails, whatever the input |
| Message.PlayersMovingMsgStruct.Encode | message/msg.go:181-193 | PlayersMoving always succeeds and yields tag 3 and then the player records |
| Message.PlayersMovingMsgStruct.Decode | message/msg.go:195-197 | decoding PlayersMoving always fails, whatever the input |
| Message.IdWordsLength | message/msg.go:102-107 | n ids give 4·n bytes |
| Message.IdWordsAt | message/msg.go:102-107 | id i sits at bytes 4·i to 4·i+4, little-endian, in list order |
| Message.IdWordsRoundTrip | message/msg.go:102-107 | the id words split back into the same id list |
| Message.ParsedIdWords | message/msg.go:102-107 | every whole number of words is the encoding of the ids read from it |
| Message.PlayersLeftBytes | message/msg.go:98-110 | the layout PlayersLeft's encoder produces: `1 + 4·n` bytes starting with tag 2 |
| Message.PlayersLeftLayout | message/msg.go:98-110 | PlayersLeft is `1 + 4·n` bytes: tag 2, then each id as a little-endian word in list order |
| Message.PlayersLeftRoundTrip | message/msg.go:98-110 | the reference decoder `ParsePlayersLeft` (no counterpart in the source) accepts an encoded PlayersLeft and recovers the ids |
| Message.ParsedPlayersLeft | message/msg.go:98-110 | anything `ParsePlayersLeft` accepts is the encoding of the ids it yields |
| Message.PlayersLeftMsgStruct.Encode | message/msg.go:98-110 | PlayersLeft always succeeds; its loop appends the tag and then every id in order |
| Message.PlayersLeftMsgStruct.Decode | message/msg.go:116-118 | decoding PlayersLeft always fails, whatever the input |
| Message.HelloBytes | message/msg.go:45-54 | the layout Hello's encoder produces: 14 bytes starting with tag 0 |
| Message.HelloLayout | message/msg.go:29-34 | Hello is 14 bytes: tag 0, `ID`, the bits of `X`, the bits of `Y`, then `Hue` |
| Message.HelloRoundTrip | message/msg.go:45-54 | the reference decoder `ParseHello` (no counterpart in the source) accepts an encoded Hello and recovers all four fields |
| Message.ParsedHello | message/msg.go:45-54 | every 14-byte string with tag 0 is the encoding of exactly the Hello read from it |
| Message.HelloMsgStruct.Encode | message/msg.go:45-54 | Hello encoding always succeeds and yields the tag followed by the struct's fields |
| Message.HelloMsgStruct.Decode | message/msg.go:56-58 | decoding Hello always fails, whatever the input |
| Message.AmmaMovingBytes | message/msg.go:125-145 | the layout AmmaMoving's encoder produces: 4 bytes whose first byte is not the AmmaMoving tag |
| Message.DecodeAmmaMoving | message/msg.go:147-171 | empty input gives `EOF`; a first byte other than 4 gives the type error; both leave the receiver unchanged. Tag alone gives `EOF`, unchanged. Two bytes set `Direction` only and give `EOF`. Three or more set `Direction = data[1]` and `Start = data[2]`, succeed, and ignore trailing bytes |
| Message.AmmaMovingRoundTripFails | message/msg.go:125-158 | decoding what `Encode` wrote always fails with the type error for kind 2 and leaves the receiver unchanged |
| Message.AmmaMovingIntendedRoundTrip | message/msg.go:147-171 | with tag 4 first, decoding recovers both fields and succeeds, whatever the receiver held before |
| Message.AmmaMovingMsgStruct.constructor | message/msg.go:120-123 | a struct literal holds the given direction and start |
| Message.AmmaMovingMsgStruct.Encode | message/msg.go:125-145 | encoding always succeeds and yields exactly `[2, 4, Direction, Start]` |
| Message.AmmaMovingMsgStruct.Decode | message/msg.go:147-171 | the in-place decoder leaves the receiver and returns the error that `DecodeAmmaMoving` gives |
| Message.DecodePing | message/msg.go:211-229 | succeeds exactly when the tag is 5 and at least four bytes follow, and then sets `Timestamp` to their little-endian value. Otherwise `Timestamp` keeps its old value, with `EOF`, the type error or `UnexpectedEOF` as the case may be |
| Message.PingRoundTrip | message/msg.go:211-229 | a client's Ping decodes to its own timestamp |
| Message.DecodePingIgnoresTrailing | message/msg.go:224 | bytes after the first five do not change the result |
| Message.PingMsgStruct.FromPlayers | message/msg.go:203-205 | `NewPingMsgStruct` ignores its argument and yields timestamp 0 |
| Message.PingMsgStruct.Encode | message/msg.go:207-209 | encoding a Ping always fails |
| Message.PingMsgStruct.Decode | message/msg.go:211-229 | the in-place decoder leaves the receiver and returns the error that `DecodePing` gives |
| Message.PongBytes | message/msg.go:239-248 | the layout Pong's encoder produces: 5 bytes starting with tag 6 |
| Message.PongRoundTrip | message/msg.go:239-248 | Pong is 5 bytes and the reference decoder `ParsePong` (no counterpart in the source) recovers the timestamp |
| Message.ParsedPong | message/msg.go:239-248 | every 5-byte string with tag 6 is the encoding of the timestamp read from it |
| Message.PongEchoesPing | message/msg.go:224 | a Pong built from a successfully decoded Ping is tag 6 followed by that Ping's bytes 1 to 4, unchanged |
| Message.PongMsgStruct.Encode | message/msg.go:239-248 | Pong encoding always succeeds and yields `[6]` followed by the timestamp's four bytes |
| Message.PongMsgStruct.Decode | message/msg.go:250-252 | decoding Pong always fails, whatever the input |
| Server.NewPlayer | server.go:118-126 | the player's id, x, y, connection and remote address are exactly the arguments, none swapped |
| Server.HelloPayload | server.go:128-130 | the bytes `binary.Write` produces for the server's Hello: 13 bytes |
| Server.HelloPayloadLayout | server.go:26-31 | the payload is 13 bytes: the bits of x, the bits of y, hue, id, with no tag byte |
| Server.HelloPayloadRoundTrip | server.go:128-130 | the payload reads back to the same four fields |
| Server.ParsedHelloPayload | server.go:128-130 | every 13-byte string is the payload of the fields read from it |
| Server.HelloPayloadIsNotCodecHello | server.go:88-89 | the server's Hello never equals the codec's Hello encoding, and the reference decoder `Message.ParseHello` (no counterpart in the source) rejects it |
| Server.SendMsg | server.go:128-135 | the bytes `sendMsg` hands to the connection are the declaration-order payload |
| Server.IssuedIdsIncrease | server.go:112-116 | over at most 2^32 calls the ids start at 0 and strictly increase, so they are pairwise distinct |
| Server.IssuedIdsWrap | server.go:46 | call number 2^32 returns 0 again: the uint32 counter wraps |
| Server.NextIdUnregistered | server.go:85 | before the counter wraps, the next id is not yet a key of the registry |
| Server.RegisterKeepsRegistry | server.go:85 | storing the new player under the id just issued keeps every entry under its own player's id and every key an issued id |
| Server.Server.constructor | server.go:45-56 | at start the counter is 0, the map is empty and no id has been issued |
| Server.Server.GetNewID | server.go:112-116 | returns the counter's old value and increments it modulo 2^32; the id is added to the history and the map is unchanged |
| Server.Server.Connect | server.go:76-89 | takes the next id, sets `players[id]` to the new player and changes no other entry. No key is ever removed. Before wrap-around the id was not a key yet. Returns the server's Hello payload for `(x, y, hue, id)` |

## Findings

| source | as written | input that shows it | evidently intended | confidence | as-written member | corrected member |
|---|---|---|---|---|---|---|
| message/msg.go:127-129 | `AmmaMovingMsgStruct.Encode` writes the PlayersLeft tag (2) and then the AmmaMoving tag (4) before the fields | Direction 0, Start 1 encodes to `[2, 4, 0, 1]`; `Decode` of that returns "msg type not AmmaMoving: 2" | write only tag 4: `[4, Direction, Start]`, which `Decode` accepts | not executed; high, every encoding is rejected by its own decoder | Message.AmmaMovingRoundTripFails | Message.AmmaMovingIntendedRoundTrip |

`Message.AmmaMovingMsgStruct.Encode` models the encoder as written, with the layout `Message.AmmaMovingBytes`. The corrected layout is `Message.AmmaMovingIntendedBytes`. Nothing else in the model encodes AmmaMoving.

## Left out

- Network I/O is left out: `main`, the websocket `upgrader`, `handler`'s upgrade and `ReadMessage` loop, `handleMsg`'s echo, and `sendMsg`'s `conn.WriteMessage`. `Server.SendMsg` returns the payload instead of writing it. The remote address is an input to `Server.Server.Connect`.
- Concurrency is left out: the goroutines for `tick` and `handleMsg`, and the unsynchronised access to `players` and `idCounter`. The model is sequential.
- `tick` only sleeps and prints, so it is left out.
- The random spawn values are left out: `x`, `y` and `hue` come from `math/rand` and float arithmetic, and are inputs here. So the conversion of a `hue` of 256 to 359 to `uint8`, which Go leaves implementation-dependent, is not modelled.
- Float semantics are left out: every `float32` is an opaque bit pattern, copied and never computed.
- The `if err != nil` branches after each `binary.Write` in the encoders are left out. Writing a fixed-size value into a `bytes.Buffer` cannot fail, so those branches are unreachable.
- The text of the "msg type not ..." errors is left out. The model keeps the expected tag and the byte found. The stubs' fixed error texts are kept.
- The `Msg` interface is left out. Every struct has both methods, but no modelled code dispatches through the interface.
- Object identity is not modelled. The Go constructors return references, and `players` stores `*Player`. The model uses values, because no code mutates a player or an encoded message after creation.
- Logging (`log.Printf`) is left out.
- The reference decoders `ParseHello`, `ParsePlayerBatch`, `ParsePlayersLeft`, `ParsePong` and `ParseHelloPayload` are added by the model as partners of the encoders. They match no code in the program: the Go decoders for these kinds are stubs that always fail.
- `client.mjs` is not part of this model. It is the rendering client, and it reads the first message with `JSON.parse`.
- `watch.js` is not part of this model. It is development tooling.
- `message/msg_test.go` is not part of this model. It refers to a type and field that do not exist, and it asserts nothing.
