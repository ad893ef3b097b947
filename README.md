# GateApp core in Dafny

GateApp bridges a radio station and a Mumble voice server. Its client is
MumbleSharp: a TCP control channel carrying protobuf messages in tagged,
length-prefixed frames, voice packets tunnelled through it with a varint
header, and services that keep the user and channel roster, route text
messages, and play or encode voice. The daemon's mediator keys the radio
to send while any remote user talks, and switches sending to the server
on while the radio receives.

This project models that core, one module per source file or per small
group of files. State-changing objects are classes whose methods are
proved against functions of their fields; parsing, encoding and routing
are functions with lemmas about them.

| module | models |
|---|---|
| `Common` | bytes, unsigned 32- and 64-bit integers, `Option`, `Result`, the `Outcome` of a call that may throw |
| `VarInt` | `UdpPacketBuilder`: the varint scheme of `WriteVarLong` and the builder's byte list |
| `Packets` | the packet types and their tags, the protobuf messages as values, the speech codecs |
| `TcpSocket` | `TcpSocket`: frame layout of the sends, the handshake messages, the frame reader of `Process` |
| `Connection` | `MumbleConnection`: the state machine and ping timer, processor registration and dispatch, `ProcessCryptState`, the ping tick |
| `Ping` | `PingProcessor`: ping statistics, the TCP ping and the 9-byte UDP ping |
| `VoiceFrames`, `TextMessages`, `Protocol` | `BasicMumbleProtocol`: voice blocks and their headers, text message building and routing, the protocol's roster and handlers |
| `ServerSyncState` | `ServerSyncStateService` |
| `UsersManagement`, `Roster` | the `UsersManagement` user and channel entities, and `UsersManagementService` |
| `TextMessaging` | `TextMessagingService` |
| `Model` | the `Model` user and channel entities, with the channel membership sets |
| `Encoding` | `BufferedEncoder`: the PCM queue, the pipe and the block encoder, run one step at a time |
| `Segmenting` | the recording callback of the Opus demo |
| `Players` | `UserAudioPlayer` |
| `Decoding` | the two `AudioDecodingBuffer` revisions |
| `VoiceHeader`, `Voice`, `VoiceServices` | the inbound voice header, and the two `VoiceService` classes |
| `Mediation` | `GateMediator` |
| `Radio`, `RadioEmulator` | `RadioStation` and the emulator's `RadioStateService` |
| `OpusFactoryModel` | `OpusFactory`: argument checks and the cached packet API |
| `FormatConversion` | `FormatConverter` |

Byte arrays are `seq<byte>`, so `AddPcm` and the other calls that copy a
span hold a value that later changes by the caller cannot reach. Events
raised and calls made on collaborators are appended to sequence fields
in order, and each handler is a method the model calls explicitly. The
codecs, the protobuf serialiser and the clock are parameters.

## Model

| member | source | states |
|---|---|---|
| VarInt.ToULong | GateApp/MumbleSharp/UdpPacketBuilder.cs:18 | `(ulong)value`: the result is below 2^64 and is the value itself or the value plus 2^64 |
| VarInt.FromULong | GateApp/MumbleSharp/UdpPacketBuilder.cs:18 | the inverse reinterpretation: a `long` that is the pattern itself or the pattern minus 2^64 |
| VarInt.LongRoundTrip | GateApp/MumbleSharp/UdpPacketBuilder.cs:18 | reading the `ulong` pattern of a `long` back as a `long` gives the value |
| VarInt.BigEndianByteAt | GateApp/MumbleSharp/UdpPacketBuilder.cs:44-82 | byte j of the n-byte big-endian form is `(x >> 8*(n-1-j)) & 0xFF`, the byte each shift-and-mask write produces |
| VarInt.SplitHigh | GateApp/MumbleSharp/UdpPacketBuilder.cs:44-82 | a number is its part above the n low bytes times 256^n plus the value of those n bytes |
| VarInt.UnsignedForm | GateApp/MumbleSharp/UdpPacketBuilder.cs:36-83 | below 0x80 one byte equal to the value; then the 10xxxxxx, 110xxxxx and 1110xxxx lead bytes carrying the high bits before 1, 2 or 3 big-endian bytes; below 2^32 the lead byte 0xF0 and 4 bytes; otherwise 0xF4 and 8 bytes |
| VarInt.SignedForm | GateApp/MumbleSharp/UdpPacketBuilder.cs:18-34 | -1..-4 are the single byte `0xFC \| ~v`; other negatives with `~v < 2^32` are 0xF8 then the form of `~v`; non-negatives use the unsigned form; other negatives use the form of their 64-bit pattern |
| VarInt.Encode | GateApp/MumbleSharp/UdpPacketBuilder.cs:16-84 | the bytes `WriteVarLong` writes: between 1 and 10 of them |
| VarInt.DecodeEncode | GateApp/MumbleSharp/UdpPacketBuilder.cs:16-84 | a reader that follows the lead-byte tags recovers every `long` from its encoding, whatever bytes follow, and consumes exactly the encoding |
| VarInt.EncodePrefixFree | GateApp/MumbleSharp/UdpPacketBuilder.cs:16-84 | the encoding is injective and prefix-free: two encodings that agree on a common stream are of the same value |
| VarInt.UdpPacketBuilder.constructor | GateApp/MumbleSharp/UdpPacketBuilder.cs:9 | the buffer starts empty |
| VarInt.UdpPacketBuilder.WriteByte | GateApp/MumbleSharp/UdpPacketBuilder.cs:11-14 | appends exactly the byte |
| VarInt.UdpPacketBuilder.WriteLowBytes | GateApp/MumbleSharp/UdpPacketBuilder.cs:44-82 | appends the n low bytes, most significant first |
| VarInt.UdpPacketBuilder.WriteTagged | GateApp/MumbleSharp/UdpPacketBuilder.cs:44-82 | appends the lead byte and then the n low bytes, most significant first |
| VarInt.UdpPacketBuilder.WriteComplement | GateApp/MumbleSharp/UdpPacketBuilder.cs:20-33 | the negative branch: a complement up to 3 appends `0xFC + ~v` alone, a larger one appends 0xF8 and the unsigned form of the complement |
| VarInt.UdpPacketBuilder.WriteUnsigned | GateApp/MumbleSharp/UdpPacketBuilder.cs:36-83 | the magnitude branches append exactly the unsigned form |
| VarInt.UdpPacketBuilder.WriteVarLong | GateApp/MumbleSharp/UdpPacketBuilder.cs:16-84 | appends exactly `Encode(value)`; the bytes written before are unchanged |
| VarInt.UdpPacketBuilder.Write | GateApp/MumbleSharp/UdpPacketBuilder.cs:86-89 | appends the packet's bytes in order |
| VarInt.UdpPacketBuilder.ToArray | GateApp/MumbleSharp/UdpPacketBuilder.cs:91 | returns every written byte in write order |
| VarInt.Decode | GateApp/MumbleSharp/UdpPacketBuilder.cs:16-84 | a reader that follows the lead-byte tags of the writer: a value it reads is a 64-bit value taking at least one and at most all of the bytes |
| VarInt.UnsignedEncoding | GateApp/MumbleSharp/UdpPacketBuilder.cs:36-83 | the bytes written for a non-negative value below 2^64: between 1 and 9 of them; `UnsignedForm` states their layout |
| TcpSocket.NetworkOrder | GateApp/MumbleSharp/TcpSocket.cs:99 | `HostToNetworkOrder`: exactly n bytes, most significant first |
| TcpSocket.Frame | GateApp/MumbleSharp/TcpSocket.cs:108-120 | a raw frame is 6 header bytes followed by exactly the payload |
| TcpSocket.ReadFrame | GateApp/MumbleSharp/TcpSocket.cs:158-247 | the reader of one inbound frame never consumes more bytes than it has |
| TcpSocket.ReadRawFrame | GateApp/MumbleSharp/TcpSocket.cs:108-220 | a frame written by the raw sends is read back: a UDPTunnel frame as the same raw bytes, any other accepted tag as the message deserialised from the payload, consuming exactly the frame |
| TcpSocket.ReadMessageFrame | GateApp/MumbleSharp/TcpSocket.cs:95-220 | a typed send, with its fixed 32-bit big-endian length prefix, is read back as the same message when deserialisation inverts serialisation |
| TcpSocket.RejectedTypes | GateApp/MumbleSharp/TcpSocket.cs:222-242 | Reject, Authenticate, PermissionDenied, ACL, QueryUsers, VoiceTarget, UserStats, RequestBlob and BanList throw `NotImplementedException` after reading only the tag |
| TcpSocket.ReadTag | GateApp/MumbleSharp/TcpSocket.cs:170-243 | the tag alone decides between the throwing cases and the payload readers |
| TcpSocket.ReadTunnelled | GateApp/MumbleSharp/TcpSocket.cs:205-208 | a tunnelled packet takes the big-endian 32-bit length's worth of bytes, or what is left |
| TcpSocket.ReadMessage | GateApp/MumbleSharp/TcpSocket.cs:176-230 | a length-prefixed message consumes its prefix and payload, within the input |
| TcpSocket.HandshakeVersion | GateApp/MumbleSharp/TcpSocket.cs:74-80 | the Version message has release \"MumbleSharp\" and version `(1<<16)\|(2<<8)\|0` = 0x010200 |
| TcpSocket.HandshakeAuthenticate | GateApp/MumbleSharp/TcpSocket.cs:83-90 | Authenticate carries the username and password, `Opus = true`, the tokens or none when null, and `CeltVersions = [unchecked((int)0x8000000b)]` |
| TcpSocket.Socket.constructor | GateApp/MumbleSharp/TcpSocket.cs:26-31 | a socket starts disconnected with nothing written, read or raised |
| TcpSocket.Socket.Connect | GateApp/MumbleSharp/TcpSocket.cs:35-61 | connecting opens the streams and `_ssl`, and writes exactly the handshake frames after what was written before |
| TcpSocket.Socket.Handshake | GateApp/MumbleSharp/TcpSocket.cs:72-93 | the output grows by a Version frame followed by an Authenticate frame |
| TcpSocket.Socket.Close | GateApp/MumbleSharp/TcpSocket.cs:63-70 | before any `Connect` the null reader makes it throw `NullReferenceException` and nothing changes; otherwise the socket is no longer connected and `_ssl` is cleared, so every later send throws |
| TcpSocket.Socket.WriteTag | GateApp/MumbleSharp/TcpSocket.cs:99 | appends the 2-byte big-endian tag |
| TcpSocket.Socket.Send | GateApp/MumbleSharp/TcpSocket.cs:95-106 | with `_ssl` null the lock throws `ArgumentNullException` and nothing is written; otherwise appends the tag and the serialised message with its 4-byte length prefix |
| TcpSocket.Socket.SendSegment | GateApp/MumbleSharp/TcpSocket.cs:108-120 | throws `ArgumentNullException` with `_ssl` null; otherwise appends the tag, the big-endian segment count and exactly the segment's bytes |
| TcpSocket.Socket.SendVoice | GateApp/MumbleSharp/TcpSocket.cs:122-134 | the same guard and layout as the raw send |
| TcpSocket.Socket.SendBuffer | GateApp/MumbleSharp/TcpSocket.cs:136-148 | throws `ArgumentNullException` with `_ssl` null; otherwise appends the tag, the big-endian array length and the whole array |
| TcpSocket.Socket.SendPing | GateApp/MumbleSharp/TcpSocket.cs:150-156 | throws `ArgumentNullException` with `_ssl` null; otherwise appends a Ping frame of the ping processor's TCP ping |
| TcpSocket.Socket.Deliver | GateApp/MumbleSharp/TcpSocket.cs:163 | bytes arriving from the server are appended to the unread input |
| TcpSocket.Socket.ReadBytes | GateApp/MumbleSharp/TcpSocket.cs:207 | `ReadBytes(n)` returns the next n bytes, or all that remain, and advances past them |
| TcpSocket.Socket.Process | GateApp/MumbleSharp/TcpSocket.cs:158-247 | not connected throws \"Not connected\" and reads nothing; no data returns without reading; otherwise it consumes one frame as `ReadFrame` does and raises `PacketReceived` exactly once for a frame read, with its tag, and not for a failed one |
| TcpSocket.Socket.ProcessPayload | GateApp/MumbleSharp/TcpSocket.cs:173-243 | after the tag, the accepted tags read their payload as `ReadPayload` says; a truncated header ends the stream |
| TcpSocket.Socket.TakeTunnelled | GateApp/MumbleSharp/TcpSocket.cs:205-208 | the tunnelled branch reads as `ReadTunnelled` says |
| TcpSocket.Socket.TakeMessage | GateApp/MumbleSharp/TcpSocket.cs:176-230 | the message branches read as `ReadMessage` says |
| TcpSocket.HandshakeFrames | GateApp/MumbleSharp/TcpSocket.cs:72-93 | the bytes of the handshake: a Version frame followed by an Authenticate frame |
| Packets.Tag | GateApp/MumbleSharp/TcpSocket.cs:99 | `(short)type`: each packet type has one number, its position in the protocol's numbering |
| Packets.FromTag | GateApp/MumbleSharp/TcpSocket.cs:170 | `(PacketType)` of a read number: a type exactly for the numbers 0..25, and the inverse of `Tag` there |
| Packets.TagInjective | GateApp/MumbleSharp/TcpSocket.cs:99-170 | distinct types have distinct tags and reading a written tag gives the type back |
| Packets.AllPacketTypesComplete | GateApp/MumbleSharp/TcpSocket.cs:173-243 | the numbering covers every packet type |
| Packets.ChooseCodec | GateApp/MumbleSharp.Voice/Services/VoiceService.cs:21-30 | Opus exactly when offered, CeltAlpha exactly when not and alpha is preferred, CeltBeta otherwise |
| Packets.CodecOf | GateApp/MumbleSharp.Voice/Services/VoiceService.cs:34 | `(SpeechCodec)type` names a codec exactly for 0, 2, 3 and 4 and keeps any other number |
| Packets.CodecRoundTrip | GateApp/MumbleSharp.Voice/Services/VoiceService.cs:34 | the cast to `SpeechCodec` and back to a number loses nothing |
| Connection.Calls | GateApp/MumbleSharp/MumbleConnection.cs:207-210 | the `foreach` over a processor list calls each processor once, in registration order, with the packet |
| Connection.TimerAfter | GateApp/MumbleSharp/MumbleConnection.cs:41-52 | the `State` setter enables the timer on Connecting, disables it on Disconnecting and otherwise leaves it as it was |
| Connection.TimerFollowsTransitions | GateApp/MumbleSharp/MumbleConnection.cs:38-133 | along the transitions `Connect` and `Close` make, the timer runs exactly while connecting or connected |
| Connection.MumbleConnection.constructor | GateApp/MumbleSharp/MumbleConnection.cs:74-84 | the state is Disconnected with the timer off, and every packet type has an empty processor list |
| Connection.MumbleConnection.SetState | GateApp/MumbleSharp/MumbleConnection.cs:38-53 | the state becomes the value and the timer follows `TimerAfter` |
| Connection.MumbleConnection.RegisterPacketProcessor | GateApp/MumbleSharp/MumbleConnection.cs:87-90 | appends the processor to its type's list; every other list is unchanged |
| Connection.MumbleConnection.RegisterVoicePacketProcessor | GateApp/MumbleSharp/MumbleConnection.cs:92-95 | the empty body changes nothing, so the voice processor list stays empty |
| Connection.MumbleConnection.Connect | GateApp/MumbleSharp/MumbleConnection.cs:97-123 | throws `InvalidOperationException` unless Disconnected, changing nothing; otherwise passes through Connecting to Connected with the timer on, the TCP socket connected with the handshake written, and the UDP socket created but not connected |
| Connection.MumbleConnection.Establish | GateApp/MumbleSharp/MumbleConnection.cs:111-122 | from Connecting, a reachable host ends Connected after the handshake; an unreachable one throws in Connecting |
| Connection.MumbleConnection.OpenSockets | GateApp/MumbleSharp/MumbleConnection.cs:111-122 | the handshake is written and the state becomes Connected |
| Connection.MumbleConnection.Close | GateApp/MumbleSharp/MumbleConnection.cs:125-133 | passes through Disconnecting and ends Disconnected with the timer off; before any `Connect`, `_udp` is null and the call throws in Disconnecting; after a failed reconnect the new TCP socket's `Close` throws, also in Disconnecting |
| Connection.MumbleConnection.Process | GateApp/MumbleSharp/MumbleConnection.cs:135-139 | reads at most one frame from TCP; a frame read is dispatched to the processors registered for its tag; nothing else about the connection changes |
| Connection.MumbleConnection.SendControl | GateApp/MumbleSharp/MumbleConnection.cs:141-144 | while the TCP socket is connected, appends one typed frame to its output; once it is closed, throws `ArgumentNullException` and writes nothing |
| Connection.MumbleConnection.SendVoice | GateApp/MumbleSharp/MumbleConnection.cs:146-153 | while the TCP socket is connected, appends one UDPTunnel frame carrying the packet; once it is closed, throws and writes nothing |
| Connection.MumbleConnection.ProcessCryptState | GateApp/MumbleSharp/MumbleConnection.cs:159-174 | a full key setup sets key and both nonces; else a server nonce alone replaces the server nonce; else the client nonce is sent back in a CryptSetup frame |
| Connection.MumbleConnection.PingTimerOnElapsed | GateApp/MumbleSharp/MumbleConnection.cs:176-189 | nothing unless Connected; then one TCP ping frame, and a 9-byte UDP ping starting 0x20 only when UDP is connected |
| Connection.MumbleConnection.TcpOnPacketReceived | GateApp/MumbleSharp/MumbleConnection.cs:191-211 | the built-in handling of CryptSetup (then a ping), UDPTunnel and Ping runs first, then every processor registered for the tag in order; a packet of the wrong runtime type fails the cast before any processor runs |
| Connection.MumbleConnection.HandleBuiltIn | GateApp/MumbleSharp/MumbleConnection.cs:193-205 | the switch: CryptSetup processes the setup and sends a ping, UDPTunnel hands the bytes to UDP, Ping updates the ping processor |
| Connection.MumbleConnection.ProcessCryptSetup | GateApp/MumbleSharp/MumbleConnection.cs:195-197 | the crypt state is processed and a TCP ping follows |
| Connection.MumbleConnection.Dispatch | GateApp/MumbleSharp/MumbleConnection.cs:207-210 | each registered processor is called once, in order |
| Connection.MumbleConnection.CryptSetupReply | GateApp/MumbleSharp/MumbleConnection.cs:159-197 | what a CryptSetup makes the client send: the client nonce in a CryptSetup frame when no server nonce came, then a TCP ping frame |
| Ping.PingProcessor.constructor | GateApp/MumbleSharp/PingProcessor.cs:12-19 | no ping counted, no timestamp flag and none of the three statistics present |
| Ping.PingProcessor.ReceivePing | GateApp/MumbleSharp/PingProcessor.cs:21-42 | every ping sets the timestamp flag; only a present, non-zero timestamp counts one more ping and updates the running mean and the variance sum, publishing count, mean and variance divided by the count; any other ping leaves the statistics unchanged; the statistics are present exactly once a ping has been counted |
| Ping.PingProcessor.CreateTcpPing | GateApp/MumbleSharp/PingProcessor.cs:44-69 | the timestamp is present exactly when the flag is set, and is then the current ticks; average, variance and packet count are copied exactly when present |
| Ping.PingProcessor.CreateUdpPing | GateApp/MumbleSharp/PingProcessor.cs:71-87 | 9 bytes, the first `1 << 5`, the other eight the timestamp's 64-bit pattern big-endian, so recombining them gives the timestamp back |
| Ping.OneWayMillis | GateApp/MumbleSharp/PingProcessor.cs:25-29 | half the round trip in milliseconds, from 100-ns ticks |
| Ping.RunningMean | GateApp/MumbleSharp/PingProcessor.cs:33-34 | the running mean after the count was incremented |
| Ping.RunningSquares | GateApp/MumbleSharp/PingProcessor.cs:35-36 | Welford's update of the variance times the count |
| Protocol.Voices | GateApp/MumbleSharp/BasicMumbleProtocol.cs:416 | one `SendVoice` call per block packet, in order |
| Protocol.ChannelEvents | GateApp/MumbleSharp/BasicMumbleProtocol.cs:529-536 | one non-recursive `ChannelMessageReceived` per channel id, in order |
| Protocol.RouteTargetsKnown | GateApp/MumbleSharp/BasicMumbleProtocol.cs:503-538 | the channels a message is routed to are the known ones looked up by `TryGetValue` |
| Protocol.BasicMumbleProtocol.constructor | GateApp/MumbleSharp/BasicMumbleProtocol.cs:20-63 | empty tables, no root channel, no local user, no server sync, the default codec, sequence index 0, the encoding thread not started, the connection attached |
| Protocol.BasicMumbleProtocol.Call | GateApp/MumbleSharp/BasicMumbleProtocol.cs:94 | a call on `_connection` is recorded while attached and is a null dereference after `Close` |
| Protocol.BasicMumbleProtocol.ChannelState | GateApp/MumbleSharp/BasicMumbleProtocol.cs:222-240 | `AddOrUpdate` creates the channel with name, parent and temporary flag the first time and later replaces only the name; no other channel changes; id 0 becomes `RootChannel`; `ChannelJoined` is raised for the channel |
| Protocol.BasicMumbleProtocol.AddChannel | GateApp/MumbleSharp/BasicMumbleProtocol.cs:224-226 | the add branch: a fresh channel with the message's fields and no users |
| Protocol.BasicMumbleProtocol.ChannelRemove | GateApp/MumbleSharp/BasicMumbleProtocol.cs:246-253 | only the id leaves the table; `ChannelLeft` is raised exactly when it was present |
| Protocol.BasicMumbleProtocol.UserState | GateApp/MumbleSharp/BasicMumbleProtocol.cs:271-307 | ignored without a session; otherwise the user is reused or created, only the present fields are overwritten, the user is placed in the named channel or in `RootChannel` and `UserJoined` is raised; an unknown channel id throws with the user's channel unchanged; every other user keeps its channel and profile, and only the old and new channel's member sets change |
| Protocol.BasicMumbleProtocol.UpdateUser | GateApp/MumbleSharp/BasicMumbleProtocol.cs:277-305 | the session branch of `UserState`; its frame lets only the profile fields and the session's user's channel change among existing users, and only the member sets of the old and new channel change |
| Protocol.BasicMumbleProtocol.AdmitUser | GateApp/MumbleSharp/BasicMumbleProtocol.cs:277-297 | `AddOrUpdate` and the guarded copies; no channel and no other user's profile changes |
| Protocol.BasicMumbleProtocol.EnterChannel | GateApp/MumbleSharp/BasicMumbleProtocol.cs:299-305 | the channel assignment and the `UserJoined` event, or the `KeyNotFoundException` of the indexer; only the user's channel and the member sets of its old and new channel change |
| Protocol.BasicMumbleProtocol.FetchUser | GateApp/MumbleSharp/BasicMumbleProtocol.cs:278-282 | `AddOrUpdate` returns the existing user or a fresh one with default fields |
| Protocol.BasicMumbleProtocol.Place | GateApp/MumbleSharp/BasicMumbleProtocol.cs:299-302 | the `Channel` setter moves the user to the target, leaving its other fields alone; only the user's channel and the member sets of its old channel and the target may change |
| Protocol.BasicMumbleProtocol.UserRemove | GateApp/MumbleSharp/BasicMumbleProtocol.cs:313-325 | corrected: a known user leaves the table with its channel cleared and `UserLeft` raised, and the connection is closed when it is the local user; an unknown session changes nothing; no other user's channel, and no member set but the old channel's, changes |
| Protocol.BasicMumbleProtocol.Evict | GateApp/MumbleSharp/BasicMumbleProtocol.cs:316-318 | `TryRemove` of a present user and the cleared channel; no other user's channel changes and only the old channel's members change |
| Protocol.BasicMumbleProtocol.UserRemoveAsWritten | GateApp/MumbleSharp/BasicMumbleProtocol.cs:313-325 | as written: an unknown session throws `NullReferenceException` at `user.Equals` and requests nothing, and so does any removal while there is no local user; a known session with a local user closes the connection exactly when it is the local user's, throwing when no connection is attached; no other user's channel, and no member set but the old channel's, changes |
| Protocol.BasicMumbleProtocol.ServerSync | GateApp/MumbleSharp/BasicMumbleProtocol.cs:348-360 | a second sync throws \"Second ServerSync Received\" and changes nothing; an unknown session throws `KeyNotFoundException`; otherwise the local user is set and the encoding thread starts, and `ReceivedServerSync` becomes true unless the thread was already started |
| Protocol.BasicMumbleProtocol.CodecVersion | GateApp/MumbleSharp/BasicMumbleProtocol.cs:427-435 | the codec becomes Opus if offered, else CeltAlpha if preferred, else CeltBeta |
| Protocol.BasicMumbleProtocol.Close | GateApp/MumbleSharp/BasicMumbleProtocol.cs:186-192 | the connection is dropped and the local user cleared |
| Protocol.BasicMumbleProtocol.SendEncodedPacket | GateApp/MumbleSharp/BasicMumbleProtocol.cs:389-420 | one packet is sent as consecutive blocks of at most 480 bytes covering it in order, one `SendVoice` per block with consecutive sequence numbers; `sequenceIndex` advances by the number of blocks, modulo 2^32 |
| Protocol.BasicMumbleProtocol.SendVoiceStop | GateApp/MumbleSharp/BasicMumbleProtocol.cs:477-481 | `sequenceIndex` becomes 0; before `ServerSync` the buffer is null and the call throws |
| Protocol.BasicMumbleProtocol.TextMessage | GateApp/MumbleSharp/BasicMumbleProtocol.cs:500-539 | an unknown sender raises nothing; otherwise events are raised as the routing says: personal, one recursive message to the first known tree root, or one per known channel id |
| Protocol.BasicMumbleProtocol.SendUserMessage | GateApp/MumbleSharp/BasicMumbleProtocol.cs:112-119 | corrected: one TextMessage addressed to the user, with the local user as actor and the lines joined by the newline; without a local user a null dereference |
| Protocol.BasicMumbleProtocol.SendUserText | GateApp/MumbleSharp/BasicMumbleProtocol.cs:102-106 | the text is split on \"\r\n\" and \"\n\" and sent as the overload above does |
| Protocol.BasicMumbleProtocol.SendChannelMessage | GateApp/MumbleSharp/BasicMumbleProtocol.cs:125-149 | one TextMessage with the channel id as the only tree id when recursive, else as the only channel id |
| Protocol.BasicMumbleProtocol.SendChannelText | GateApp/MumbleSharp/BasicMumbleProtocol.cs:155-159 | the text is split into lines and sent as the overload above does |
| Protocol.BasicMumbleProtocol.SendChannelsMessage | GateApp/MumbleSharp/BasicMumbleProtocol.cs:65-96 | one TextMessage for all the channels, their ids in order as tree ids or channel ids; none for no channels |
| Protocol.BasicMumbleProtocol.MoveUser | GateApp/MumbleSharp/BasicMumbleProtocol.cs:164-172 | nothing is sent when the user is already in the channel, otherwise one UserState with the user as actor and the channel id |
| Protocol.BasicMumbleProtocol.JoinChannel | GateApp/MumbleSharp/BasicMumbleProtocol.cs:174-184 | one UserState naming the local user as session and actor and the channel; a null dereference without a local user |
| Protocol.CopyPresentFields | GateApp/MumbleSharp/BasicMumbleProtocol.cs:284-297 | each field present in the message overwrites the user's, and no other |
| Protocol.Ids | GateApp/MumbleSharp/BasicMumbleProtocol.cs:82-89 | `group.Select(c => c.Id)`: the ids of the channels, in order |
| Protocol.CutAndSend | GateApp/MumbleSharp/BasicMumbleProtocol.cs:394-420 | the block loop sends exactly the reference sends and leaves `sequenceIndex` advanced by their number, modulo 2^32 |
| Protocol.RaiseChannelMessages | GateApp/MumbleSharp/BasicMumbleProtocol.cs:529-536 | the `foreach` raises one message per known channel id, in order, skipping unknown ones |
| Protocol.VoiceSendsAreVoices | GateApp/MumbleSharp/BasicMumbleProtocol.cs:394-420 | the block loop's sends are the voice packets of the 480-byte blocks of the packet, one per block |
| Protocol.VoiceSendsFrom | GateApp/MumbleSharp/BasicMumbleProtocol.cs:396-419 | one iteration sends the block at the offset with the current sequence number and continues after it with the next |
| VoiceFrames.BlocksCover | GateApp/MumbleSharp/BasicMumbleProtocol.cs:391-420 | the blocks of a packet concatenate back to it, each holds 1 to 480 bytes, all but the last exactly 480, and there are `ceil(n / 480)` of them |
| VoiceFrames.TypeByte | GateApp/MumbleSharp/BasicMumbleProtocol.cs:398-400 | the first header byte is `4 << 5` for Opus and 0 for any other codec, with the low five target bits clear |
| VoiceFrames.VoicePacket | GateApp/MumbleSharp/BasicMumbleProtocol.cs:401-414 | a block's packet starts with the type byte and ends with exactly the block's bytes, after at least the two varints |
| VoiceFrames.Frames | GateApp/MumbleSharp/BasicMumbleProtocol.cs:401-418 | consecutive blocks carry consecutive sequence numbers |
| VoiceFrames.FramesAt | GateApp/MumbleSharp/BasicMumbleProtocol.cs:418 | block k carries the starting sequence number plus k, modulo 2^32 |
| VoiceFrames.Serialize | GateApp/MumbleSharp/BasicMumbleProtocol.cs:401-414 | each frame becomes its voice packet |
| VoiceFrames.VoicePacketsAt | GateApp/MumbleSharp/BasicMumbleProtocol.cs:394-420 | the packet sent for block k is the voice packet of that block with sequence number start + k, modulo 2^32 |
| VoiceFrames.VoicePacketsCons | GateApp/MumbleSharp/BasicMumbleProtocol.cs:416-418 | sending one block and then the rest with the next sequence number |
| VoiceFrames.ParseVoicePacketInverse | GateApp/MumbleSharp/BasicMumbleProtocol.cs:398-414 | the header layout is readable: the type byte, the sequence and the block are read back from a voice packet |
| VoiceFrames.VoicePacketFields | GateApp/MumbleSharp/BasicMumbleProtocol.cs:404-414 | after the type byte come the sequence varint, the length varint and then the block, which fill the packet exactly |
| TextMessages.SplitLines | GateApp/MumbleSharp/BasicMumbleProtocol.cs:104 | `Split(new[] {\"\r\n\", \"\n\"}, None)` gives at least one line |
| TextMessages.SplitLinesHaveNoFeed | GateApp/MumbleSharp/BasicMumbleProtocol.cs:104 | no line of the split holds a line feed |
| TextMessages.JoinSplit | GateApp/MumbleSharp/BasicMumbleProtocol.cs:104-117 | joining the split lines with \"\n\" gives the text back with each \"\r\n\" read as \"\n\" |
| TextMessages.SplitJoin | GateApp/MumbleSharp/BasicMumbleProtocol.cs:104-117 | lines without line feeds, none but the last ending in '\r', come back from a join with \"\n\" and a split |
| TextMessages.SplitSingle | GateApp/MumbleSharp/BasicMumbleProtocol.cs:104 | a text without line feed is one line |
| TextMessages.SplitBeforeFeed | GateApp/MumbleSharp/BasicMumbleProtocol.cs:104 | a line feed ends the line before it |
| TextMessages.Addressees | GateApp/MumbleSharp/BasicMumbleProtocol.cs:112-119 | the sessions, channels and trees a message is addressed to |
| TextMessages.UserMessageAddressees | GateApp/MumbleSharp/BasicMumbleProtocol.cs:112-119 | as written the user overload addresses nobody, so the user is not among the sessions; the corrected message addresses exactly the user's session |
| TextMessages.Known | GateApp/MumbleSharp/BasicMumbleProtocol.cs:529-536 | the ids kept by the `foreach` are known, in list order |
| TextMessages.KnownMembers | GateApp/MumbleSharp/BasicMumbleProtocol.cs:529-536 | an id is kept exactly when it is listed and known; all known keeps the list, none known keeps nothing |
| TextMessages.RouteRules | GateApp/MumbleSharp/BasicMumbleProtocol.cs:500-539 | an unknown sender raises nothing; no channel and no tree ids make a personal message; tree ids alone make at most one message, to the first tree id exactly when it is known; channel ids make one message per known id and the tree ids are then ignored |
| TextMessages.ChannelMessageRoundTrip | GateApp/MumbleSharp/BasicMumbleProtocol.cs:500-539 | a channel message this client sends is routed back to that channel, as a tree message exactly when sent recursive, with the text unchanged |
| TextMessaging.RoutedEvents | GateApp/MumbleSharp/Services/TextMessagingService.cs:99-143 | one event per routed target, personal exactly for a personal routing |
| TextMessaging.ChannelEvents | GateApp/MumbleSharp/Services/TextMessagingService.cs:132-141 | one non-recursive channel message per id, in order |
| TextMessaging.RouteTargetsKnown | GateApp/MumbleSharp/Services/TextMessagingService.cs:119-134 | the channels routed to are the ones `TryGetChannel` finds |
| TextMessaging.TextMessagingService.constructor | GateApp/MumbleSharp/Services/TextMessagingService.cs:18-23 | registers its processor for TextMessage only, appended to that type's list |
| TextMessaging.TextMessagingService.ProcessTextMessagePacket | GateApp/MumbleSharp/Services/TextMessagingService.cs:99-143 | an unknown sender raises nothing; otherwise the events raised are those of the routing of the message against the known channels |
| TextMessaging.TextMessagingService.SendUserMessage | GateApp/MumbleSharp/Services/TextMessagingService.cs:39-46 | corrected: one TextMessage to the user's session with the local user as actor and the lines joined by `Environment.NewLine`; a null dereference without a local user |
| TextMessaging.TextMessagingService.SendUserText | GateApp/MumbleSharp/Services/TextMessagingService.cs:29-33 | the split text sent by the overload above |
| TextMessaging.TextMessagingService.SendChannelMessage | GateApp/MumbleSharp/Services/TextMessagingService.cs:52-84 | one TextMessage with the channel id as the only tree id when recursive, else as the only channel id |
| TextMessaging.TextMessagingService.SendChannelText | GateApp/MumbleSharp/Services/TextMessagingService.cs:90-94 | the split text sent by the overload above |
| TextMessaging.RaiseChannelMessages | GateApp/MumbleSharp/Services/TextMessagingService.cs:132-141 | the `foreach` raises one message per known channel id, in order |
| TextMessaging.ChannelSendIsReceived | GateApp/MumbleSharp/Services/TextMessagingService.cs:52-143 | a channel message sent by this client and received by a client that knows the sender and the channel raises exactly one event for that channel, recursive as sent, with the joined text |
| ServerSyncState.ServerSyncStateService.constructor | GateApp/MumbleSharp/Services/ServerSyncStateService.cs:12-21 | registers its processor for ServerSync only; not yet synchronised and nothing raised |
| ServerSyncState.ServerSyncStateService.ProcessServerSyncPacket | GateApp/MumbleSharp/Services/ServerSyncStateService.cs:30-42 | a second sync throws \"Second ServerSync Received\" before changing anything; the first sets `ReceivedServerSync` and `Session` and raises `SyncReceived` once; the event is raised exactly when synchronised |
| ServerSyncState.SyncOnce | GateApp/MumbleSharp/Services/ServerSyncStateService.cs:30-42 | from a fresh service one sync records its session, two or more always fail, and the event is raised at most once |
| VoiceFrames.Blocks | GateApp/MumbleSharp/BasicMumbleProtocol.cs:391-420 | the reference definition of the encoding loop's cut: 480-byte blocks from the front, a shorter last one; `BlocksCover` proves it covers the packet |
| VoiceFrames.VoicePackets | GateApp/MumbleSharp/BasicMumbleProtocol.cs:394-420 | the reference definition of what the loop sends: one voice packet per block under consecutive sequence numbers; `VoicePacketsAt` proves the k-th packet |
| TextMessages.JoinLines | GateApp/MumbleSharp/BasicMumbleProtocol.cs:117 | `string.Join(separator, lines)`: the lines with the separator between neighbours; `JoinSplit` and `SplitJoin` relate it to the split |
| TextMessages.Normalize | GateApp/MumbleSharp/BasicMumbleProtocol.cs:104 | the text with each "\r\n" read as one "\n": what `JoinSplit` proves a split-then-join gives back |
| TextMessages.ChannelTextMessage | GateApp/MumbleSharp/BasicMumbleProtocol.cs:125-149 | the message `SendMessage(Channel, …)` builds: the channel id alone in the tree ids when recursive, else in the channel ids |
| TextMessages.ChannelsTextMessage | GateApp/MumbleSharp/BasicMumbleProtocol.cs:65-96 | the message built for one group of channels: all their ids, in order, as tree ids when recursive, else as channel ids |
| TextMessages.UserTextMessageAsWritten | GateApp/MumbleSharp/BasicMumbleProtocol.cs:112-119 | the message `SendMessage(User, string[])` builds as written: actor and text only, so it is addressed to nobody |
| TextMessages.UserTextMessage | GateApp/MumbleSharp/BasicMumbleProtocol.cs:112-119 | the corrected message: the user's session as the only addressee |
| TextMessages.Route | GateApp/MumbleSharp/BasicMumbleProtocol.cs:500-539 | the routing of an incoming text message: ignored for an unknown actor, personal without channel or tree ids, the first tree id if known, else the known channel ids; `RouteRules` and `RouteTargetsKnown` are proved about it |
| UsersManagement.Channel.constructor | GateApp/MumbleSharp/Services/UsersManagement/Channel.cs:20-25 | the id, name and parent are the arguments and the channel is not temporary |
| UsersManagement.Channel.Equals | GateApp/MumbleSharp/Services/UsersManagement/Channel.cs:32-37 | false for null, otherwise equal exactly when the ids are |
| UsersManagement.Channel.EqualsObject | GateApp/MumbleSharp/Services/UsersManagement/Channel.cs:39-45 | false for null and for another runtime type, otherwise equal exactly when the ids are |
| UsersManagement.Channel.Hash | GateApp/MumbleSharp/Services/UsersManagement/Channel.cs:47-50 | `(int)Id`: a 32-bit signed value congruent to the id modulo 2^32 |
| UsersManagement.Same | GateApp/MumbleSharp/Services/UsersManagement/Channel.cs:52-55 | `object.Equals(left, right)`: null equals null, null never equals a channel, two channels are equal exactly when their ids are |
| UsersManagement.Differ | GateApp/MumbleSharp/Services/UsersManagement/Channel.cs:57-60 | the negation of `==` |
| UsersManagement.SameIsEquivalence | GateApp/MumbleSharp/Services/UsersManagement/Channel.cs:32-60 | `==` is reflexive, symmetric and transitive, and two channels are equal exactly when their hashes are |
| UsersManagement.User.constructor | GateApp/MumbleSharp/Services/UsersManagement/User.cs:35-38 | the id is the argument; every other property has its default |
| UsersManagement.User.Equals | GateApp/MumbleSharp/Services/UsersManagement/User.cs:45-50 | false for null, otherwise equal exactly when the ids are |
| UsersManagement.User.EqualsObject | GateApp/MumbleSharp/Services/UsersManagement/User.cs:52-58 | false for null and another runtime type, otherwise by id |
| UsersManagement.User.Hash | GateApp/MumbleSharp/Services/UsersManagement/User.cs:60-63 | `(int)Id`, congruent to the id modulo 2^32 |
| UsersManagement.UserEqualityMatchesHash | GateApp/MumbleSharp/Services/UsersManagement/User.cs:45-63 | equality agrees with the hash and is reflexive and symmetric; a channel never equals a user |
| Roster.Assigned | GateApp/MumbleSharp/Services/UsersManagementService.cs:96-108 | a named channel must be known, or the indexer throws; without a name the user goes to channel 0, or to none when 0 is unknown |
| Roster.AssignedHasId | GateApp/MumbleSharp/Services/UsersManagementService.cs:96-108 | the channel assigned has the id named, or id 0 by default |
| Roster.UsersManagementService.constructor | GateApp/MumbleSharp/Services/UsersManagementService.cs:18-28 | empty tables, no local user, and the four processors appended for UserState, UserRemove, ChannelState and ChannelRemove |
| Roster.UsersManagementService.TryGetUser | GateApp/MumbleSharp/Services/UsersManagementService.cs:34 | found exactly when the session is in the table, and then the user with that id |
| Roster.UsersManagementService.TryGetChannel | GateApp/MumbleSharp/Services/UsersManagementService.cs:36 | found exactly when the id is in the table, and then the channel with that id |
| Roster.UsersManagementService.MoveUser | GateApp/MumbleSharp/Services/UsersManagementService.cs:44-52 | nothing is sent when the user's channel `==` the target, otherwise one UserState with the user as actor and the channel id |
| Roster.UsersManagementService.JoinChannel | GateApp/MumbleSharp/Services/UsersManagementService.cs:55-65 | one UserState naming the local user as session and actor and the channel; a null dereference without a local user |
| Roster.UsersManagementService.ProcessUserStatePacket | GateApp/MumbleSharp/Services/UsersManagementService.cs:68-111 | without a session nothing changes; otherwise the user is reused or created, only the present fields are overwritten, and the user is placed as `Assigned` says, or the lookup throws with its channel unchanged; other users are untouched and both tables keep entries under their ids |
| Roster.UsersManagementService.UpdateUser | GateApp/MumbleSharp/Services/UsersManagementService.cs:75-108 | the session branch of the processor |
| Roster.UsersManagementService.ProcessUserRemovePacket | GateApp/MumbleSharp/Services/UsersManagementService.cs:116-130 | a known user leaves the table with its channel cleared; an unknown one changes nothing |
| Roster.UsersManagementService.ProcessChannelStatePacket | GateApp/MumbleSharp/Services/UsersManagementService.cs:135-147 | the first state for an id creates the channel with name, parent and temporary flag; a later one replaces only the name; no other channel changes |
| Roster.UsersManagementService.ProcessChannelRemovePacket | GateApp/MumbleSharp/Services/UsersManagementService.cs:152-159 | only the id leaves the table |
| Roster.UsersManagementService.OnSyncReceived | GateApp/MumbleSharp/Services/UsersManagementService.cs:161-164 | the local user becomes the user under the synchronised session; an unknown session throws and changes nothing |
| Roster.CopyPresentFields | GateApp/MumbleSharp/Services/UsersManagementService.cs:81-94 | each field present in the message overwrites the user's, and no other |
| Packets.MoveRequest | GateApp/MumbleSharp/Services/UsersManagementService.cs:49 | a move names the actor and the channel and no session |
| Packets.JoinRequest | GateApp/MumbleSharp/Services/UsersManagementService.cs:57-62 | a join names the local user as session and actor and the channel, and nothing else |
| Packets.ApplyUserStateFrame | GateApp/MumbleSharp/Services/UsersManagementService.cs:81-94 | a message with no field present changes nothing; applying a message twice is applying it once; of two messages the later present field wins, else the earlier, else the old value |
| Packets.ApplyUserState | GateApp/MumbleSharp/BasicMumbleProtocol.cs:284-297 | the `ShouldSerializeX()` guarded copies: a field the message carries overwrites, an absent one is kept; `ApplyUserStateFrame` proves its algebra |
| Model.Channel.constructor | GateApp/MumbleSharp/Model/Channel.cs:24-29 | id, name and parent are the arguments; no users and not temporary |
| Model.Channel.Users | GateApp/MumbleSharp/Model/Channel.cs:19-22 | the members are exactly the users kept in the set |
| Model.Channel.Equals | GateApp/MumbleSharp/Model/Channel.cs:33-38 | false for null, otherwise by id |
| Model.Channel.EqualsObject | GateApp/MumbleSharp/Model/Channel.cs:40-46 | false for null and another runtime type, otherwise by id |
| Model.Channel.Hash | GateApp/MumbleSharp/Model/Channel.cs:48-51 | `(int)Id`, congruent to the id modulo 2^32 |
| Model.Channel.AddUser | GateApp/MumbleSharp/Model/Channel.cs:58-61 | `GetOrAdd`: the user joins the set, which is keyed by id, so an equal user already present is kept; nothing else changes |
| Model.Channel.RemoveUser | GateApp/MumbleSharp/Model/Channel.cs:63-67 | `TryRemove`: the user with that id leaves the set, present or not; nothing else changes |
| Model.WithMember | GateApp/MumbleSharp/Model/Channel.cs:58-61 | adding keeps every member, adds the id, and changes nothing when an equal user is present |
| Model.AddUserIdempotent | GateApp/MumbleSharp/Model/Channel.cs:58-61 | adding a user twice is adding it once |
| Model.RemoveUserEffect | GateApp/MumbleSharp/Model/Channel.cs:63-67 | removing an absent user changes nothing, the id is gone afterwards, and every other member stays |
| Model.User.constructor | GateApp/MumbleSharp/Model/User.cs:41-45 | the id is the argument; no channel and every other property at its default |
| Model.User.SetChannel | GateApp/MumbleSharp/Model/User.cs:23-34 | the old channel loses the user, the new one gains it, the user's channel is the value, and the channel-membership invariant is kept; no other property changes |
| Model.User.Leave | GateApp/MumbleSharp/Model/User.cs:28-30 | setting null: the old channel loses the user and keeps its name and temporary flag |
| Model.User.Join | GateApp/MumbleSharp/Model/User.cs:30-32 | setting a channel from none: the channel gains the user and keeps its name and temporary flag |
| Model.User.Equals | GateApp/MumbleSharp/Model/User.cs:71-74 | `other.Id == Id` throws `NullReferenceException` for null and otherwise compares ids |
| Model.User.EqualsObject | GateApp/MumbleSharp/Model/User.cs:62-69 | a user compares by id; anything else is equal only to itself, which is never the case for a non-user |
| Model.User.Hash | GateApp/MumbleSharp/Model/User.cs:57-60 | `Id.GetHashCode()`, congruent to the id modulo 2^32 |
| Model.UserEqualityMatchesHash | GateApp/MumbleSharp/Model/User.cs:57-74 | users are equal exactly when their hashes are; equality is reflexive and symmetric |
| Model.ChannelEqualityMatchesHash | GateApp/MumbleSharp/Model/Channel.cs:33-51 | channels are equal exactly when their hashes are; equality is reflexive and symmetric |
| Model.MembershipAddChannel | GateApp/MumbleSharp/Model/Channel.cs:19-30 | a new empty channel keeps the membership invariant |
| Model.MembershipAddUser | GateApp/MumbleSharp/Model/User.cs:41-45 | a new user without a channel keeps the membership invariant |
| Model.MemberOfOneChannel | GateApp/MumbleSharp/Model/User.cs:23-34 | under the invariant, a user is in a channel's set exactly when its `Channel` is that channel |
| FormatConversion.SampleFormatValue | GateApp/PulseAudioNet/Api/SampleFormat.cs:3-19 | the enum's numbering: `U8 = 0` upward to 13, and `Invalid = -1` alone |
| FormatConversion.Convert | GateApp/NAudio.Pulse/FormatConverter.cs:9-25 | converts exactly Unknown, Pcm, MuLaw and ALaw; any other encoding throws `NotImplementedException` |
| FormatConversion.ConvertTable | GateApp/NAudio.Pulse/FormatConverter.cs:11-20 | Unknown gives Invalid, Pcm gives U8, MuLaw gives ULaw, ALaw gives ALaw; the conversion is injective on the encodings it accepts and `Unconvert` undoes it |
| FormatConversion.Unconvert | GateApp/NAudio.Pulse/FormatConverter.cs:11-20 | an encoding found for a format converts back to that format |
| OpusFactoryModel.ApplicationValue | GateApp/Gate/Gate.Opus/Api/Application.cs:6-20 | the coding modes' values 2048, 2049 and 2051 |
| OpusFactoryModel.CheckArguments | GateApp/Gate.Opus/OpusFactory.cs:58-65 | passes exactly for the rates 8000, 12000, 16000, 24000 and 48000 with 1 or 2 channels; a bad rate is reported as `samplingRate` even when the channels are bad too, otherwise a bad channel count as `channels` |
| OpusFactoryModel.OpusFactory.constructor | GateApp/Gate.Opus/OpusFactory.cs:11-13 | no API loaded and no packet API yet |
| OpusFactoryModel.OpusFactory.CreateEncoder | GateApp/Gate.Opus/OpusFactory.cs:56-69 | bad arguments throw before the native library is loaded; otherwise the library is loaded and an encoder with the rate, channels and mode is returned |
| OpusFactoryModel.OpusFactory.CreateDecoder | GateApp/Gate.Opus/OpusFactory.cs:71-84 | the same checks, then a decoder with the rate and channels |
| OpusFactoryModel.OpusFactory.GetPacketApi | GateApp/Gate.Opus/OpusFactory.cs:86-94 | the packet API is created, with the library loaded, only on the first call; every later call returns the same object |
| OpusFactoryModel.EncoderDecoderAgree | GateApp/Gate.Opus/OpusFactory.cs:58-80 | both factories accept exactly a supported rate with 1 or 2 channels, and a bad rate decides the error whatever the channels |
| Radio.Transition | GateApp/Gate.Radio/RadioStation.cs:18-28 | the setter raises `StateChanged` once, with the old and new state, exactly when the state changes |
| Radio.RadioStation.constructor | GateApp/Gate.Radio/RadioStation.cs:8-13 | the state is Idle and nothing has been raised |
| Radio.RadioStation.SetState | GateApp/Gate.Radio/RadioStation.cs:18-28 | the state becomes the value and at most one change, the transition, is raised |
| Radio.RadioStation.StartTransceiving | GateApp/Gate.Radio/RadioStation.cs:33-37 | the state becomes Tx, raising the change if it was not Tx; a station never in Rx stays so |
| Radio.RadioStation.StopTransceiving | GateApp/Gate.Radio/RadioStation.cs:39-42 | the state becomes Idle, raising the change if it was not Idle; a station never in Rx stays so |
| Radio.PublicCallsNeverReceive | GateApp/Gate.Radio/RadioStation.cs:15-42 | repeating a call raises nothing more, and through the public calls alone a station not in Rx never enters or leaves Rx |
| RadioEmulator.RadioStateService.constructor | GateApp/Gate.Radio.Emulator/RadioStateService.cs:10-14 | both states at their defaults and no action |
| RadioEmulator.RadioStateService.SetAction | GateApp/Gate.Radio.Emulator/RadioStateService.cs:14 | `OnStateChangedAction` is set or cleared |
| RadioEmulator.RadioStateService.StartTx | GateApp/Gate.Radio.Emulator/RadioStateService.cs:35-39 | `TxState` becomes Tx, `RxState` is unchanged, and the action runs once if set |
| RadioEmulator.RadioStateService.StopTx | GateApp/Gate.Radio.Emulator/RadioStateService.cs:41-45 | `TxState` becomes Idle, `RxState` is unchanged, and the action runs once if set |
| RadioEmulator.RadioStateService.OnStateChanged | GateApp/Gate.Radio.Emulator/RadioStateService.cs:47-50 | the action runs once if set, and not otherwise |
| RadioEmulator.Run | GateApp/Gate.Radio.Emulator/RadioStateService.cs:35-50 | after a run of calls the Tx state is that of the last call, and the action has run once per call if set |
| Radio.Run | GateApp/Gate.Radio/RadioStation.cs:33-42 | the state after a run of `StartTransceiving`/`StopTransceiving` calls: that of the last call |
| Radio.RunChanges | GateApp/Gate.Radio/RadioStation.cs:18-42 | the `StateChanged` events such a run raises: one per call that changes the state; `PublicCallsNeverReceive` is proved about it |
| Decoding.BufferedWaveProvider.constructor | GateApp/MumbleSharp/Audio/AudioDecodingBuffer.cs:22 | the wave provider starts with no samples |
| Decoding.DecodedRunAscends | GateApp/MumbleSharp/Audio/AudioDecodingBuffer.cs:41-47 | the sequence numbers a buffer decodes never fall below the last decoded one and never decrease, and a repeat of the last one is decoded again |
| Decoding.AudioDecodingBuffer.constructor | GateApp/MumbleSharp/Audio/AudioDecodingBuffer.cs:15-23 | `_lastDecodedSequence = 0`, no codec, the timer stopped and a fresh, empty wave provider |
| Decoding.AudioDecodingBuffer.WithProvider | GateApp/MumbleSharp.Voice/AudioDecodingBuffer.cs:13-22 | the same, over the wave provider passed in |
| Decoding.AudioDecodingBuffer.AddEncodedPacket | GateApp/MumbleSharp/Audio/AudioDecodingBuffer.cs:33-55 | the first codec given is kept; a packet older than the last decoded is dropped with nothing changed; otherwise it becomes the last decoded, is decoded and appended to the provider and the timer runs; with no codec at all the decode is a null dereference after the timer was stopped |
| Decoding.AudioDecodingBuffer.Elapsed | GateApp/MumbleSharp/Audio/AudioDecodingBuffer.cs:57-60 | `_lastDecodedSequence = -1`, so the next packet of any sequence number is accepted |
| Decoding.DecodedRun | GateApp/MumbleSharp/Audio/AudioDecodingBuffer.cs:41-47 | the sequence numbers a buffer decodes from a run of packets with no timeout: a packet older than the last decoded one is skipped; `DecodedRunAscends` is proved about it |
| Players.Assign | GateApp/MumbleSharp.Voice/UserAudioPlayer.cs:30-55 | the `State` setter always leaves the assigned state; assigning the current state changes nothing; a change into `Idle` resets the last sequence to -1 and keeps the timer; a change into `Tx` keeps the sequence and leaves the timer running |
| Players.AsWrittenStopsTimer | GateApp/MumbleSharp.Voice/UserAudioPlayer.cs:59-74 | a fresh player is live, but after two accepted frames as the code is written it is `Tx` with its timer stopped, so nothing returns it to `Idle` |
| Players.AcceptKeepsLive | GateApp/MumbleSharp.Voice/UserAudioPlayer.cs:59-74 | with the timer restarted after each accepted frame a live player stays live; an older frame changes nothing, any other makes its sequence the last one, `Tx`, with the timer on; state and sequence agree with the code as written |
| Players.UserAudioPlayer.constructor | GateApp/MumbleSharp.Voice/UserAudioPlayer.cs:12-28 | a new player has last sequence -1, is `Idle` with its timer stopped, and has played and raised nothing |
| Players.UserAudioPlayer.SetState | GateApp/MumbleSharp.Voice/UserAudioPlayer.cs:30-55 | the control fields become `Assign` of the old ones, and `StateChanged` is raised once, with old and new state, exactly when the state changes |
| Players.UserAudioPlayer.ProcessEncodedVoiceAsWritten | GateApp/MumbleSharp.Voice/UserAudioPlayer.cs:59-74 | the code as written: a frame older than the last decoded one changes nothing; any other is decoded and appended to the playback, stops the timer and assigns `Tx` |
| Players.UserAudioPlayer.ProcessEncodedVoice | GateApp/MumbleSharp.Voice/UserAudioPlayer.cs:59-74 | the same, with the transmission timer running after every accepted frame |
| Players.UserAudioPlayer.Elapsed | GateApp/MumbleSharp.Voice/UserAudioPlayer.cs:96-99 | the elapsed timer sets `Idle`: the last sequence is forgotten on a change from `Tx`, and `StateChanged` is raised only on a change |
| Players.UserAudioPlayer.Dispose | GateApp/MumbleSharp.Voice/UserAudioPlayer.cs:76-81 | disposing stops the timer for good and marks the player disposed |
| Players.AcceptAsWritten | GateApp/MumbleSharp.Voice/UserAudioPlayer.cs:59-74 | the control state after a frame as the code is written: an older frame changes nothing; any other becomes the last sequence, stops the timer and assigns `Tx` |
| Players.Accept | GateApp/MumbleSharp.Voice/UserAudioPlayer.cs:59-74 | the corrected control state: the same, with the timer running afterwards |
| Players.Live | GateApp/MumbleSharp.Voice/UserAudioPlayer.cs:59-74 | the property timer-driven return to `Idle` needs: a `Tx` player's timer runs; `AcceptKeepsLive` and `AsWrittenStopsTimer` settle it for both versions |
| VoiceHeader.ReadVarInt | GateApp/MumbleSharp.Voice/VoiceService.cs:125-128 | a varint read succeeds exactly when the bytes hold a whole varint, gives a 64-bit value and strictly fewer remaining bytes, and fails only with end of stream |
| VoiceHeader.ReadEncoded | GateApp/MumbleSharp.Voice/VoiceService.cs:125-128 | a varint encoded by the packet builder reads back as its value, leaving exactly the bytes after it |
| VoiceHeader.ParseBody | GateApp/MumbleSharp.Voice/VoiceService.cs:123-136 | the only error of the header parse is end of stream, and a delivered header has a 64-bit sequence and between 1 and 8191 bytes of audio |
| VoiceHeader.AfterSession | GateApp/MumbleSharp.Voice/VoiceService.cs:126-136 | after the session, a read error is passed on, and a delivered header carries that session and the sequence read next |
| VoiceHeader.AfterSequence | GateApp/MumbleSharp.Voice/VoiceService.cs:128-136 | after the sequence, the packet is dropped exactly when the size masked to 13 bits is zero or more than the bytes left; otherwise the audio is that many bytes after the size |
| VoiceHeader.ParseBodyRoundTrip | GateApp/MumbleSharp.Voice/VoiceService.cs:123-136 | a body encoded as session, sequence and size varints followed by 1 to 8191 bytes of audio, with anything after them, parses back to exactly that header |
| VoiceHeader.ParseAfterReads | GateApp/MumbleSharp.Voice/VoiceService.cs:123-136 | when the three varint reads give the session, sequence and size and the audio follows, the parse gives that header |
| VoiceHeader.ZeroSizeDrops | GateApp/MumbleSharp.Voice/VoiceService.cs:128-132 | a size whose low 13 bits are zero drops the packet, whatever follows |
| VoiceHeader.ReadHeader | GateApp/MumbleSharp.Voice/VoiceService.cs:123-136 | the sequential reads of session, sequence, size and payload compute `ParseBody` |
| VoiceServices.VoiceService.constructor | GateApp/MumbleSharp.Voice/Services/VoiceService.cs:14-19 | the transmission codec starts at its default and one processor is registered, for `CodecVersion` only |
| VoiceServices.VoiceService.ProcessCodecVersionPacket | GateApp/MumbleSharp.Voice/Services/VoiceService.cs:21-30 | Opus is chosen exactly when the server offers it; CELT alpha exactly when it does not offer Opus and prefers alpha; CELT beta otherwise |
| VoiceServices.VoiceService.ProcessPackage | GateApp/MumbleSharp.Voice/Services/VoiceService.cs:32-54 | an empty packet fails with index out of range; otherwise the header parse of the bytes after the first decides: its error is passed on, a dropped packet gives nothing, and a header comes with the codec of the packet type and the target in the low 5 bits of the first byte |
| VoiceServices.PackageRoundTrip | GateApp/MumbleSharp.Voice/Services/VoiceService.cs:37-50 | whatever the first byte, a packet built from session, sequence, size and 1 to 8191 bytes of audio delivers exactly that header |
| Encoding.EncodeAll | GateApp/MumbleSharp.Voice/BufferedEncoder.cs:64-67 | one encoded frame per block, in order, each the codec's encoding of its block |
| Encoding.ChunksCover | GateApp/MumbleSharp.Voice/BufferedEncoder.cs:52-67 | the bytes split into whole blocks of the block size, followed by the residual, are exactly the bytes; there are length/size blocks and a residual of length mod size |
| Encoding.ResidualIsTail | GateApp/MumbleSharp.Voice/BufferedEncoder.cs:58-66 | the residual is the last length-mod-size bytes of the input |
| Encoding.ChunksUnique | GateApp/MumbleSharp.Voice/BufferedEncoder.cs:52-67 | any split of the bytes into whole blocks followed by fewer than a block's bytes is the split into chunks and residual |
| Encoding.BufferedEncoder.constructor | GateApp/MumbleSharp.Voice/BufferedEncoder.cs:16-37 | a new encoder has empty queues and pipe and the block size is twice the largest permitted frame size |
| Encoding.BufferedEncoder.AddPcm | GateApp/MumbleSharp.Voice/BufferedEncoder.cs:41-44 | the PCM array is queued at the end of the incoming channel, and its bytes are added to what was ever added |
| Encoding.BufferedEncoder.MovePcm | GateApp/MumbleSharp.Voice/BufferedEncoder.cs:72-80 | one step of the mover takes the oldest queued array, when there is one, and writes it at the end of the pipe; otherwise nothing changes |
| Encoding.BufferedEncoder.EncodeStep | GateApp/MumbleSharp.Voice/BufferedEncoder.cs:54-69 | one step of the encoder encodes exactly when the pipe holds at least one block: the first block is taken off the pipe and its encoding is written at the end of the ready frames; a shorter pipe changes nothing |
| Encoding.BufferedEncoder.RunUntilIdle | GateApp/MumbleSharp.Voice/BufferedEncoder.cs:46-80 | once both loops have run out of work, every byte ever added has been encoded in whole blocks, in order, exactly once, with the residual left in the pipe, and the earlier ready frames are kept in front |
| Encoding.Chunks | GateApp/MumbleSharp.Voice/BufferedEncoder.cs:52-67 | the whole blocks of the block size cut from the front; `ChunksCover` and `ChunksUnique` are proved about it |
| Encoding.Residual | GateApp/MumbleSharp.Voice/BufferedEncoder.cs:58-66 | what is left after the whole blocks; `ResidualIsTail` proves it is the last length-mod-size bytes |
| Segmenting.AsShorts | GateApp/Gate.Opus.Demo/Program.cs:73-74 | the cast to 16-bit samples gives half as many samples as bytes, an odd last byte included in none |
| Segmenting.AsBytes | GateApp/Gate.Opus.Demo/Program.cs:94 | the cast of samples back to bytes gives two bytes per sample |
| Segmenting.AsShortsAsBytes | GateApp/Gate.Opus.Demo/Program.cs:73-94 | casting samples to bytes and back to samples gives the same samples |
| Segmenting.SentAfterWraps | GateApp/Gate.Opus.Demo/Program.cs:92 | the unchecked `ulong` byte count after the segments is the old count plus the encoded lengths, modulo 2^64, and is exactly that sum when it fits |
| Segmenting.AddULong | GateApp/Gate.Opus.Demo/Program.cs:92 | the unchecked `+=` on a `ulong` wraps modulo 2^64 |
| Segmenting.OpusDemo.constructor | GateApp/Gate.Opus.Demo/Program.cs:41-42 | the demo starts with no residual samples, no bytes sent and nothing played |
| Segmenting.OpusDemo.DataAvailable | GateApp/Gate.Opus.Demo/Program.cs:71-96 | the residual and the recorded samples are split into whole 960-sample segments plus a new residual of fewer than 960 samples, with no sample lost or repeated; the byte count grows by the encoded lengths and the playback by each segment's decoded round trip, in order |
| Segmenting.EncodeSegments | GateApp/Gate.Opus.Demo/Program.cs:82-95 | the loop over the segments counts their encoded lengths and plays their decodings, in order |
| Segmenting.SentAfter | GateApp/Gate.Opus.Demo/Program.cs:88-92 | `_bytesSent` after the loop: each encoded length added in turn with `ulong` wrap-around; `SentAfterWraps` proves the closed form |
| Segmenting.Playback | GateApp/Gate.Opus.Demo/Program.cs:88-94 | the bytes the loop adds to the play buffer: each segment's decoding of its encoding, as bytes, in order |
| Voice.VoiceService.constructor | GateApp/MumbleSharp.Voice/VoiceService.cs:25-43 | a new service has no players, is not sending to the server and owns a fresh, empty encoder whose block size is twice the largest frame size; its processor is added for `CodecVersion` and no other packet type |
| Voice.VoiceService.StartSendingVoice | GateApp/MumbleSharp.Voice/VoiceService.cs:49-57 | afterwards the service is sending to the server |
| Voice.VoiceService.StopSendingVoice | GateApp/MumbleSharp.Voice/VoiceService.cs:59-66 | afterwards the service is not sending to the server |
| Voice.VoiceService.UsersState | GateApp/MumbleSharp.Voice/VoiceService.cs:68-71 | one entry per player, with that player's voice state |
| Voice.VoiceService.AddVoiceFramesToSendBuffer | GateApp/MumbleSharp.Voice/VoiceService.cs:73-79 | while sending, the PCM goes to the encoder's queue; otherwise the encoder is left as it was |
| Voice.VoiceService.UserLeft | GateApp/MumbleSharp.Voice/VoiceService.cs:81-88 | the user's player, if any, leaves the table, is no longer observed and is disposed; the other players are untouched and stay observed |
| Voice.VoiceService.UserJoinedAsWritten | GateApp/MumbleSharp.Voice/VoiceService.cs:90-102 | the code as written: for a new user the freshly added player is at once unsubscribed and disposed, so the table holds a dead, unobserved player; a known user changes nothing |
| Voice.VoiceService.UserJoined | GateApp/MumbleSharp.Voice/VoiceService.cs:90-102 | as evidently intended: a new user gets a fresh, observed, live player in the table, and every player stays observed; a known user changes nothing |
| Voice.VoiceService.ProcessCodecVersionPacket | GateApp/MumbleSharp.Voice/VoiceService.cs:109-116 | accepted exactly when the server offers Opus; otherwise it throws `NotImplementedException` |
| Voice.VoiceService.ProcessIncomingVoicePackage | GateApp/MumbleSharp.Voice/VoiceService.cs:118-147 | an empty packet throws; a header parse error is thrown; a dropped packet or an unknown session changes no player; a known session's player processes the frame as the code is written (`ProcessEncodedVoiceAsWritten`: the control state becomes `AcceptAsWritten` of the old one), and each state change of an observed player raises `UsersStateChanged` once |
| Voice.VoiceService.ProcessIncomingVoicePackageCorrected | GateApp/MumbleSharp.Voice/VoiceService.cs:118-147 | the same handler over the corrected player (`ProcessEncodedVoice`: the control state becomes `Accept` of the old one, timer running) |
| Voice.VoiceService.PlayerTimerElapsed | GateApp/MumbleSharp.Voice/VoiceService.cs:104-107 | a player's elapsed timer makes it `Idle`, no other player changes, and `UsersStateChanged` is raised when an observed player actually changed state |
| Voice.VoiceService.OnPlayerStateChanged | GateApp/MumbleSharp.Voice/VoiceService.cs:104-107 | each player state change raises `UsersStateChanged` once |
| Mediation.TxDecision | GateApp/Gate.Daemon/GateMediator.cs:44-60 | while the radio receives nothing is decided; otherwise transmitting is chosen exactly when some user is in `Tx`, and stopping exactly when every user is `Idle` |
| Mediation.GateMediator.constructor | GateApp/Gate.Daemon/GateMediator.cs:15-22 | the mediator keeps the radio station and the voice service it is given |
| Mediation.GateMediator.CalculateTx | GateApp/Gate.Daemon/GateMediator.cs:44-60 | a receiving radio is left alone; otherwise the radio ends up transmitting exactly when some user is in `Tx` and idle exactly when none is, and raises the matching state changes |
| Mediation.GateMediator.OnUsersStateChanged | GateApp/Gate.Daemon/GateMediator.cs:24-27 | a change of the users' voice states recomputes the radio state as `CalculateTx` does |
| Mediation.GateMediator.OnRadioStateChanged | GateApp/Gate.Daemon/GateMediator.cs:29-42 | entering `Rx` starts sending voice to the server and leaves the radio as it is; leaving `Rx` stops sending voice and recomputes the radio state; any other change does nothing |
| Mediation.AnyTx | GateApp/Gate.Daemon/GateMediator.cs:51 | some user's voice state is `Tx` |

## Left out

- Null arguments: every reference a method is given is non-null; only the fields the source leaves null until later (the local user, the UDP socket, a codec, a callback) are modelled as nullable.
- Concurrency: tasks, `Channel`/`Pipe` plumbing, locks, `Thread.Abort` and timer threads are not modelled; the two loops of `BufferedEncoder` run one step at a time (`MovePcm`, `EncodeStep`), and timers are a flag plus an explicit `Elapsed` step.
- Event wiring: `+=`/`-=` subscriptions are not modelled as delegates; a handler is a method the caller invokes, and a subscription is an `observed` flag where it matters.
- `AudioEncodingBuffer` and `SendVoice(pcm)` of `BasicMumbleProtocol` are not part of this model; the encoding thread is modelled from the encoded packets it takes.
- Protocol.BasicMumbleProtocol.SendChannelsMessage: channels carry no `Owner` here, so all the channels are taken to belong to this protocol, and one message is sent with this protocol's local user as actor. With channels of several owners the code sends one message per owner, each with that owner's local user as actor and all over this protocol's connection; that grouping is not modelled.
- The handler switch of `ConnectionOnPacketReceived` in `BasicMumbleProtocol` is not modelled as one method; each handler is modelled on its own.
- PacketType.cs is not part of this model: the tags are numbered as in the Mumble protocol, `Version` = 0 up to `SuggestConfig` = 25.
- `Var64` is not part of this model: `writeVarint64_alternative`, which writes the sequence number and the block length of each voice packet, is taken to write the `UdpPacketBuilder` varint of a non-negative value (`VarInt.UnsignedEncoding`).
- UdpPacketReader is not part of this model: its reads are taken to follow the `UdpPacketBuilder` scheme, a varint cut short to give `EndOfStream`, and a short `ReadBytes` to give null.
- `SendEncodedFramesAsync` of `MumbleSharp.Voice/VoiceService.cs` calls a `SendEncodedVoice` that no connection declares, so the sending side of the voice service is not modelled.
- Logging and console output.
- The float frame-size tables of the Opus codec: the largest permitted frame size is a parameter.
- `GetApi` loading of the native library: only whether it has been loaded is kept.
- The native codecs and the protobuf serialiser are functions passed in. Modelling them as functions assumes they are deterministic and stateless, whereas the Opus encoder and decoder keep state from one frame to the next. The only other property assumed, and only by the lemmas that require it, is that deserialisation inverts serialisation.
- Static classes (`OpusFactory`, the demo program) are modelled as one object holding their static fields.
- Ping.PingProcessor.ReceivePing: the mean and the variance are computed over the reals, so `float` rounding is not modelled, and the count is unbounded, so the `(uint)` cast of the packet count after 2^32 pings is not modelled.
- `CryptState` is reduced to its key and two nonces as byte strings; encryption is not modelled.
- The UDP socket is reduced to whether it exists and is connected, and to the pings and packets handed to it.
- The two revisions of the entities are not reconciled: `BasicMumbleProtocol` uses the `Model` user and channel, the services the `UsersManagement` ones.
- VoiceServices.VoiceService.ProcessPackage returns the header it parsed with the codec and the target, which the source computes and discards (its delivery call is commented out).
- `MemoryMarshal.Cast` in the demo is taken to be little-endian.
- Segmenting.OpusDemo.DataAvailable takes only the `BytesRecorded` bytes of the callback's buffer.
- `RadioStation` has no public way into `Rx`; the mediator's handling of `Rx` is reachable only through the station's state field.
- The TLS handshake and the two-second authentication wait of `TcpSocket.Connect`.
- `_client.Connected` going false on its own, when the server drops the connection, is not modelled: a TCP socket is connected exactly while its `_ssl` is set.
- `DateTime.Now` and the tick counter are parameters of the members that read them.

## Findings

| source | as written | input that shows it | evidently intended | confidence | as-written member | corrected member |
|---|---|---|---|---|---|---|
| GateApp/MumbleSharp.Voice/VoiceService.cs:90-102 | the new player is unsubscribed and disposed when `TryAdd` succeeds | any `UserJoined` for an id not in the table: the table then holds a disposed player that raises nothing | dispose the player only when `TryAdd` fails | not executed | Voice.VoiceService.UserJoinedAsWritten | Voice.VoiceService.UserJoined |
| GateApp/MumbleSharp.Voice/UserAudioPlayer.cs:59-74 | every accepted frame stops the transmission timer, which is restarted only on a change into `Tx`; the voice service's packet handler delivers frames to this player | two frames, sequence 0 then 1, to a fresh player: it stays `Tx` with no timer and never returns to `Idle` | restart the timer after every accepted frame | not executed | Players.AsWrittenStopsTimer | Players.AcceptKeepsLive |
| GateApp/MumbleSharp/BasicMumbleProtocol.cs:313-325 | `user.Equals(LocalUser)` is called when `TryRemove` found no user, so `user` is null | a `UserRemove` for a session not in the table | compare with the local user only when a user was removed | not executed | Protocol.BasicMumbleProtocol.UserRemoveAsWritten | Protocol.BasicMumbleProtocol.UserRemove |
| GateApp/MumbleSharp/BasicMumbleProtocol.cs:112-119 | `SendMessage(User, string[])` sets only the actor and the message; the user is not used | any user: the message names no session, channel or tree | address the message to the user's session | not executed | TextMessages.UserMessageAddressees | Protocol.BasicMumbleProtocol.SendUserMessage |
| GateApp/MumbleSharp/Services/TextMessagingService.cs:39-46 | the same overload copied into the service ignores the user as well | any user: the message names no session, channel or tree | address the message to the user's session | not executed | TextMessages.UserMessageAddressees | TextMessaging.TextMessagingService.SendUserMessage |
