# PSP-DRP in Dafny

PSP-DRP shows what a PlayStation Portable is running as Discord rich presence on a desktop. It has five parts:

- a plugin on the PSP that reports the game over UDP (the "net" plugin);
- a second plugin that reports it over a USB bulk link (the "usb" plugin);
- a small loader that starts the net plugin;
- an on-PSP statistics viewer;
- the desktop companion, which receives the reports, reassembles icons and usage statistics, and keeps playtime records.

This project models the logic at the heart of these parts and proves properties of it.

One module per source file:

- **Wire formats.** `Protocol` covers the "PSPR" network frames and `UsbProtocol` the "PSPD" USB frames. Both split icons and statistics into chunks of 1024, 450 or 480 bytes.
- **Transfers.** `Network` (net plugin), `Server` (companion, UDP) and `UsbTransport` (companion, USB) send, receive and reassemble these chunked transfers.
- **Main loops.** `NetMain` and `UsbMain` model the main loops of the two plugins as one step function over the thread's globals. That covers heartbeat and resend gating, the ACK handshake, the connect timeout, send-once exit, icon gating and the statistics-sync flags.
- **Usage records.** `CompanionUsage` (companion) and `PluginUsage` (net plugin) are the two usage trackers. `StatsApp`, `StatsConfig` and `StatsViewer` are the statistics viewer: its JSON scan, its configuration, and its scrolling and selection state.
- **Leaf parsers.** `Sfo`, `NetConfig`, `UsbConfig`, `GameDetect`, `Thumbnail` and `Loader`.
- **Shared vocabulary.** `Common` holds bytes, options, little-endian fields, NUL-terminated strings and chunk splitting.

Code that mutates state in place is modelled as classes with `modifies` frames or as loops with invariants. The server's connection map, the USB stream receiver, the trackers and the viewer's `AppState` are classes. Each method is proved against a specification function, and the properties are lemmas about those functions.

The UDP server counts a chunk index once (desktop-companion/src/server.rs:519-521 and 578-583). The USB icon accumulator counts every chunk that fits, repeats included (desktop-companion/src/usb_transport.rs:564-567).

## Model

| member | source | states |
|---|---|---|
| Protocol.MessageTypeOf | desktop-companion/src/protocol.rs:28-45 | exactly the seven codes 0x01-0x04, 0x10, 0x20, 0x21 decode; every other byte is an error |
| Protocol.TypeCodeInjective | desktop-companion/src/protocol.rs:15-45 | distinct message types carry distinct codes, so a code names one type |
| Protocol.StateOf | desktop-companion/src/protocol.rs:57-70 | codes 0-4 decode to a PSP state, larger ones fail |
| Protocol.StateOrXmb | desktop-companion/src/protocol.rs:137 | an unknown state code reads as Xmb; a known one encodes back to itself |
| Protocol.ParsePacket | desktop-companion/src/protocol.rs:299-321 | accepted exactly when at least five bytes start with "PSPR" and a known type byte; the payload is everything after the header |
| Protocol.FrameRoundTrip | desktop-companion/src/protocol.rs:299-321 | a framed payload parses back to its type and payload |
| Protocol.DecodeHeartbeat | desktop-companion/src/protocol.rs:91-105 | succeeds exactly when five bytes are present, and re-encoding gives those five bytes |
| Protocol.HeartbeatRoundTrip | desktop-companion/src/protocol.rs:91-105 | an encoded heartbeat, followed by anything, decodes to itself |
| Protocol.DecodeGameInfo | desktop-companion/src/protocol.rs:119-165 | needs 144 bytes; `persistent` only from byte 144 when present; `psp_name` empty below 177 bytes; unknown state reads as Xmb; `has_icon` from byte 143 |
| Protocol.GameInfoRoundTrip | desktop-companion/src/protocol.rs:119-165 | a game-info packet with NUL-free fields that fit decodes to itself |
| Protocol.DecodeIconChunk | desktop-companion/src/protocol.rs:174-204 | needs 16 header bytes plus `data_length` more; the data is exactly those bytes, with the index and total read from their offsets |
| Protocol.IconChunkRoundTrip | desktop-companion/src/protocol.rs:174-204 | an encoded icon chunk decodes to itself |
| Protocol.DecodeIconEnd | desktop-companion/src/protocol.rs:212-233 | succeeds exactly when 18 bytes are present, with 32-bit size and CRC |
| Protocol.IconEndRoundTrip | desktop-companion/src/protocol.rs:212-233 | an encoded icon-end message decodes to itself |
| Protocol.DecodeDiscoveryResponse | desktop-companion/src/protocol.rs:241-262 | succeeds exactly when 41 bytes are present; the battery is byte 40 |
| Protocol.DiscoveryResponseRoundTrip | desktop-companion/src/protocol.rs:241-262 | a response with fitting NUL-free name and version decodes to itself |
| Protocol.EncodeDiscoveryRequest | desktop-companion/src/protocol.rs:269-296 | always 15 bytes that parse as a discovery request, carry the port little-endian and at most seven version bytes |
| NetConfig.Defaults | psp-plugin/net/src/config.c:23-39 | the defaults are in range, with no desktop address, discovery on and the default port |
| NetConfig.ParseBool | psp-plugin/net/src/config.c:302-308 | a true value is one to four characters starting with '1' or a lower-case letter |
| NetConfig.LinesShape | psp-plugin/net/src/config.c:72-88 | every line handed to `parse_line` is non-empty, at most 127 characters and free of CR, LF and NUL |
| NetConfig.Trim | psp-plugin/net/src/config.c:258-277 | the result starts and ends with a non-blank (or is empty) |
| NetConfig.TrimIdempotent | psp-plugin/net/src/config.c:258-277 | trimming twice is trimming once |
| NetConfig.StrLen | psp-plugin/net/src/config.c:258-277 | the length found is the first NUL, and the text before it is the C string |
| NetConfig.LeadingBlanks | psp-plugin/net/src/config.c:263-265 | the skip loop stops at the first character that is not a space or tab, leaving the text with its leading blanks skipped |
| NetConfig.MoveToFront | psp-plugin/net/src/config.c:267 | the characters at `start` and the NUL after them move to the front; the rest of the buffer is unchanged |
| NetConfig.ClearTrailing | psp-plugin/net/src/config.c:270-276 | the trailing blanks become NULs, leaving the text trimmed at its end |
| NetConfig.TrimWhitespace | psp-plugin/net/src/config.c:258-277 | the buffer's C string afterwards is the trimmed C string it held before |
| NetConfig.StrToInt | psp-plugin/net/src/config.c:209 | the C library's base-10 conversion always lands in its result range |
| NetConfig.StrToIntDecimal | psp-plugin/net/src/config.c:209 | a number written in decimal reads back unchanged when in range |
| NetConfig.StrToIntDigits | psp-plugin/net/src/config.c:209 | a digit run reads as its value whatever follows |
| NetConfig.StrToIntUnsigned | psp-plugin/net/src/config.c:209 | text starting with a digit reads as its leading digits' value, clamped |
| NetConfig.Atoi | psp-plugin/net/src/config.c:209 | `atoi` on the 32-bit target stays within the 32-bit signed range |
| NetConfig.AtoiDecimal | psp-plugin/net/src/config.c:97-163 | a value written with `%d` by `config_save` reads back unchanged |
| NetConfig.PortValue | psp-plugin/net/src/config.c:208-212 | the port is the 16-bit value of the number, and 0 becomes the default port |
| NetConfig.Interval | psp-plugin/net/src/config.c:221-247 | an interval is the 32-bit value of the number clamped to its range |
| NetConfig.Set | psp-plugin/net/src/config.c:204-252 | assigning a known key keeps the configuration in range |
| NetConfig.Assign | psp-plugin/net/src/config.c:203-252 | an unknown key changes nothing, and a known one keeps the configuration in range |
| NetConfig.ParseLine | psp-plugin/net/src/config.c:168-253 | comments, empty lines and lines without '=' change nothing; any line keeps the configuration in range |
| NetConfig.ApplyLinesInRange | psp-plugin/net/src/config.c:44-92 | whatever the file holds, the loaded configuration is in range |
| NetConfig.ConfigLoad | psp-plugin/net/src/config.c:44-92 | a missing file gives the defaults, is saved and returns 0; an empty one gives -1; otherwise every line is parsed in order and the result is in range |
| NetConfig.ScanIsDone | psp-plugin/net/src/config.c:72-88 | the scan hands on exactly the non-empty pieces between terminators, each cut to 127 characters |
| NetConfig.ScanLinesOf | psp-plugin/net/src/config.c:72-88 | scanning the NUL-terminated buffer yields the file's lines |
| NetConfig.ScanPrefix | psp-plugin/net/src/config.c:72-88 | scanning further never takes back a line already handed on |
| NetConfig.ScanLines | psp-plugin/net/src/config.c:72-88 | the loop's result is the parse of every line of the buffer in order |
| NetConfig.DoneStep | psp-plugin/net/src/config.c:73-87 | one character either ends the current line or extends it |
| NetConfig.ScanStep | psp-plugin/net/src/config.c:74-88 | one turn of the character loop advances the scan as the line reading does, and the configuration stays the parse of every line handed on so far |
| NetConfig.ScanAdvance | psp-plugin/usb/src/config.c:267-297 | one turn of the search loop advances the scan as the line reading does, and says whether a non-empty line was just handed on |
| Network.Crc32Calc | psp-plugin/net/src/network.c:94-112 | a NULL buffer gives 0; otherwise the result is the reflected CRC-32 (polynomial 0xEDB88320) of the bytes |
| Network.CrcShift | psp-plugin/net/src/network.c:103-106 | the inner loop performs exactly eight shift-and-xor steps |
| Network.Crc32Empty | psp-plugin/net/src/network.c:94-112 | the CRC of no bytes is zero |
| Network.Crc32CheckValue | psp-plugin/net/src/network.c:94-112 | the CRC-32 of "123456789" is the standard check value 0xCBF43926 |
| Network.Crc32 | psp-plugin/net/src/network.c:94-112 | the CRC-32 of no bytes is 0 |
| Network.FormatIpv4 | psp-plugin/net/src/network.c:82-92 | a dotted quad of 7 to 15 characters |
| Network.IdField | psp-plugin/net/src/network.c:639 | the game id as `copy_str` leaves it fits the 10-byte field |
| Network.IconChunkCount | psp-plugin/net/src/network.c:631 | the 16-bit chunk count is the ceiling of size / 1024 whenever that fits in 16 bits |
| Network.IconFrames | psp-plugin/net/src/network.c:637-667 | an icon upload is the chunk frames followed by one end frame |
| Network.IconFrameAt | psp-plugin/net/src/network.c:637-667 | frame k carries bytes k*1024 onward, at most 1024 of them, with index k and the total; the last frame is the end marker with size and CRC |
| Network.DeliverResult | psp-plugin/net/src/network.c:651-667 | a run of sends that never fails reports the length of the last frame |
| Network.IconUploadResult | psp-plugin/net/src/network.c:616-668 | the result of an icon upload is an error code or 23, never 0 |
| Network.DeliverLast | psp-plugin/net/src/network.c:651-667 | when every chunk goes out, all frames are sent and the result is that of the end marker |
| Network.DeliverStops | psp-plugin/net/src/network.c:653-655 | the first failing chunk send ends the upload with its error |
| Network.Uptime | psp-plugin/net/src/network.c:585-593 | the uptime is the whole seconds since start, below 2^32 |
| Network.GameInfoFields | psp-plugin/net/src/network.c:598-611 | each text is cut to its field by `copy_str`, the other fields are copied |
| Network.GameInfoDelivered | psp-plugin/net/src/network.c:598-611 | the companion decodes the packet the plugin sends into those same fields |
| Network.CopyStrCString | psp-plugin/net/src/network.c:65-80 | copying a C string into `size` bytes keeps its first `size - 1` bytes |
| Network.WriteBackSettles | psp-plugin/net/src/network.c:733-747 | discovery saves exactly when address, port or auto-discovery differ, always turns auto-discovery off, and a second identical discovery saves nothing |
| Network.NetLink.SendPacket | psp-plugin/net/src/network.c:546-580 | -1 without socket or desktop, -2 for a payload over 2043 bytes, otherwise the frame is sent and a non-negative result is its length |
| Network.NetLink.SendIcon | psp-plugin/net/src/network.c:616-668 | an empty icon gives -1 and sends nothing; otherwise exactly the delivered prefix of the icon's frames goes out and the result is the delivery result |
| Network.NetLink.ChunkPass | psp-plugin/net/src/network.c:637-655 | a pass of the chunk loop sends exactly frame `index` of the icon, or fails with the link's result for it and sends nothing; -1 when the link is down |
| Network.NetLink.SendChunks | psp-plugin/net/src/network.c:637-659 | the chunk loop sends chunk frames in order and stops at the first failure with its error |
| Network.NetLink.SendChunk | psp-plugin/net/src/network.c:638-655 | one chunk frame holds the piece at its offset, at most 1024 bytes |
| Network.NetLink.SendHeartbeat | psp-plugin/net/src/network.c:585-593 | with the link down the result is -1 and nothing is sent; otherwise the heartbeat frame carrying the uptime in whole seconds and strength 100 is logged exactly when its send succeeds, and the result is the send's |
| Network.NetLink.SendGameInfo | psp-plugin/net/src/network.c:598-611 | with the link down the result is -1 and nothing is sent; otherwise the game-info frame with each text cut to its field is logged exactly when its send succeeds, and the result is the send's |
| Network.NetLink.Poll | psp-plugin/net/src/network.c:333-378 | 0 for no datagram, a short one or a wrong magic; an ACK sets the desktop; an icon request returns its game id |
| Network.NetLink.HandleDiscovery | psp-plugin/net/src/network.c:673-755 | 0 without a socket or datagram, -1 for anything but a discovery request, with nothing changed; for a request the sender becomes the desktop at the requested port, the configuration is the write-back and is saved only when it changed, the response frame is logged exactly when its send succeeds, and the result is 1 exactly then and -1 otherwise |
| Network.ResponseName | psp-plugin/net/src/network.c:714-722 | the configured name when there is one, else the system nickname, else "PSP", each cut to at most 31 characters of the 32-byte field |
| Network.DiscoveryResponseFrame | psp-plugin/net/src/network.c:710-750 | the response to a discovery request is one header plus the 41-byte discovery-response payload |
| Network.DiscoveryResponseDelivered | desktop-companion/src/protocol.rs:241-260 | the companion parses the plugin's discovery response back into the same name, version and battery level |
| Network.WriteBack | psp-plugin/net/src/network.c:733-747 | auto-discovery ends off; the configuration is saved exactly when address, port or auto-discovery differ, and then holds the address and port found; otherwise it is unchanged |
| UsbProtocol.UsbPacket | psp-plugin/usb/src/usb_protocol.c:163-166 | a packet is the magic, the type and the payload length, followed by the payload |
| UsbProtocol.TextField | psp-plugin/usb/src/usb_protocol.c:231 | a field filled by `strncpy` over zeros has its size and reads back as the text cut to the field |
| UsbProtocol.GameInfoPacket | psp-plugin/usb/src/usb_protocol.c:38-70 | the game-info packet is 128 bytes |
| UsbProtocol.HeartbeatPacket | psp-plugin/usb/src/usb_protocol.c:72-88 | the heartbeat packet is 16 bytes |
| UsbProtocol.StatsRequestPacket | psp-plugin/usb/src/usb_protocol.c:263-277 | the statistics request is 16 bytes |
| UsbProtocol.AckPacket | psp-plugin/usb/src/usb_protocol.c:160-167 | the acknowledgement is a bare header of type ACK |
| UsbProtocol.IconChunksFit | psp-plugin/usb/src/usb_protocol.c:209-213 | an icon of at most 65535 bytes needs at most 146 chunks, so the "too many chunks" error cannot occur |
| UsbProtocol.IconChunkPacket | psp-plugin/usb/src/usb_protocol.c:222-240 | every icon chunk packet is 476 bytes |
| UsbProtocol.IconPackets | psp-plugin/usb/src/usb_protocol.c:216-253 | an accepted icon is sent as one chunk packet per 450 bytes, packet k being chunk k of the total |
| UsbProtocol.StatsUploadPacket | psp-plugin/usb/src/usb_protocol.c:279-328 | every upload chunk packet is 502 bytes |
| UsbProtocol.StatsUploadPackets | psp-plugin/usb/src/usb_protocol.c:279-328 | an accepted log is sent as one packet per 480 bytes, packet k being chunk k of the total |
| UsbProtocol.DecodeResponseChunk | psp-plugin/usb/src/usb_protocol.c:128-129 | the fields of a response chunk are within their widths |
| UsbProtocol.Receive | psp-plugin/usb/src/usb_protocol.c:131-183 | chunk 0, or any chunk with no stream, restarts the stream from its totals; a chunk is counted only while the file is open; the last chunk closes the file and verifies the byte count |
| UsbProtocol.StreamStatus | psp-plugin/usb/src/usb_protocol.c:345-364 | -1 with no stream, 0 exactly while chunks are missing, 1 when verified, -2 when not |
| UsbProtocol.UsbLink.Send | psp-plugin/usb/src/usb_driver.c:519-609 | -1 when the host is not attached; otherwise the transfer's result, and only a successful packet counts as sent |
| UsbProtocol.UsbLink.Poll | psp-plugin/usb/src/usb_protocol.c:90-190 | 0 when disconnected, for nothing, a short packet, a wrong magic or an unknown type; otherwise the type, with an icon request's game id and a response chunk fed to the stream (which stays within bounds) and acknowledged with one ACK packet |
| UsbProtocol.UsbLink.PollStatsResponse | psp-plugin/usb/src/usb_protocol.c:330-365 | -1 when disconnected; otherwise the stream's status, and on completion its timestamp and byte count with the stream closed |
| UsbProtocol.UsbLink.SendGameInfo | psp-plugin/usb/src/usb_protocol.c:38-70 | -1 when disconnected, otherwise the game-info packet is sent |
| UsbProtocol.UsbLink.SendHeartbeat | psp-plugin/usb/src/usb_protocol.c:72-88 | -1 when disconnected, otherwise the heartbeat packet is sent |
| UsbProtocol.UsbLink.SendStatsRequest | psp-plugin/usb/src/usb_protocol.c:263-277 | -1 when disconnected, otherwise the request packet is sent |
| UsbProtocol.UsbLink.SendIcon | psp-plugin/usb/src/usb_protocol.c:192-256 | -1 when disconnected, -2 for an empty icon or one over 65535 bytes; otherwise the chunk packets go out in order until the first failure |
| UsbProtocol.UsbLink.IconPass | psp-plugin/usb/src/usb_protocol.c:216-252 | a pass of the icon loop sends exactly packet `index` of the upload, of at most 450 bytes within the icon, or fails with the driver's result and sends nothing |
| UsbProtocol.UsbLink.SendStatsUpload | psp-plugin/usb/src/usb_protocol.c:279-328 | -1 when disconnected, -2 for an empty log, -3 for more than 65535 chunks; otherwise the chunk packets go out in order until the first failure |
| UsbProtocol.UsbLink.StatsPass | psp-plugin/usb/src/usb_protocol.c:300-326 | a pass of the upload loop sends exactly packet `index` of the upload, of at most 480 bytes within the log, or fails with the driver's result and sends nothing |
| UsbProtocol.UsbLink.IconChunkAt | psp-plugin/usb/src/usb_protocol.c:217-240 | the packet for the chunk at `offset` is chunk `index` of the icon, holding at most 450 bytes that lie within the icon |
| UsbProtocol.UsbLink.StatsChunkAt | psp-plugin/usb/src/usb_protocol.c:279-328 | the packet for the chunk at `offset` is chunk `index` of the log, holding at most 480 bytes that lie within the log |
| UsbTransport.ParsePacket | desktop-companion/src/usb_transport.rs:278-423 | an event only from a framed packet; game info needs 128 bytes, a statistics request 16 |
| UsbTransport.TryParseIconChunk | desktop-companion/src/usb_transport.rs:433-470 | a chunk exactly from an icon-chunk packet of at least 26 bytes holding all announced data; its data is those bytes and its id a NUL-free text of at most 10 bytes |
| UsbTransport.AckAgrees | desktop-companion/src/usb_transport.rs:185-198 | the companion's ACK is the very packet the plugin builds for one |
| UsbTransport.IconRequestBytes | desktop-companion/src/usb_transport.rs:200-219 | an icon request is 24 bytes |
| UsbTransport.IconRequestDelivered | desktop-companion/src/usb_transport.rs:200-219 | the plugin reads an icon request back as the id it names, for NUL-free ids of at most 9 bytes |
| UsbTransport.StatsResponseBytes | desktop-companion/src/usb_transport.rs:221-276 | every statistics-response chunk is a 512-byte packet |
| UsbTransport.StatsResponsePackets | desktop-companion/src/usb_transport.rs:221-276 | the log is sent as one chunk per 480 bytes, packet k being chunk k of the total |
| UsbTransport.Accept | desktop-companion/src/usb_transport.rs:558-584 | a chunk either completes its icon (emitted, entry removed) or leaves an entry pending; entries for other ids are untouched |
| UsbTransport.AcceptKeepsCountsFit | desktop-companion/src/usb_transport.rs:567 | the 8-bit received counts never overflow |
| UsbTransport.IconAccumulator.Add | desktop-companion/src/usb_transport.rs:558-584 | the accumulator's new entries and the emitted icon are those of one accepted chunk |
| UsbTransport.Transport.SendStatsResponse | desktop-companion/src/usb_transport.rs:221-276 | the chunks are sent in order and the first failed transfer ends it with an error |
| UsbTransport.GameInfoDelivered | desktop-companion/src/usb_transport.rs:306-328 | the companion reads the plugin's game-info packet field by field, texts as the plugin cut them |
| UsbTransport.StatsRequestDelivered | desktop-companion/src/usb_transport.rs:278-423 | the plugin's statistics request reads as a request with its timestamp |
| UsbTransport.HeartbeatIgnored | desktop-companion/src/usb_transport.rs:278-423 | a heartbeat produces no event |
| UsbTransport.SingleStatsUploadDelivered | desktop-companion/src/usb_transport.rs:278-423 | a log that fits in one upload chunk reaches the companion whole |
| UsbTransport.IconChunkDelivered | desktop-companion/src/usb_transport.rs:433-470 | each icon chunk the plugin sends parses back to its id, sizes, offset and piece |
| UsbTransport.IconChunksDelivered | desktop-companion/src/usb_transport.rs:433-470 | every icon chunk the plugin sends parses back |
| UsbTransport.IconPrefix | desktop-companion/src/usb_transport.rs:558-584 | fed one icon's chunks in order, the accumulator holds the prefix received so far |
| UsbTransport.IconDelivered | desktop-companion/src/usb_transport.rs:558-584 | all chunks of an icon, parsed and accumulated in order, yield exactly the plugin's icon under its id and leave no entry behind |
| UsbTransport.StatsResponseDecoded | desktop-companion/src/usb_transport.rs:221-276 | the plugin's receiver reads chunk k of the response as that chunk's fields and piece |
| UsbTransport.StreamPrefix | desktop-companion/src/usb_transport.rs:221-276 | after the first m chunks the plugin's stream holds m chunks and their bytes |
| UsbTransport.StatsResponseDelivered | desktop-companion/src/usb_transport.rs:221-276 | a response received whole with every write complete leaves a verified log of the right size, and the plugin reports it complete |
| Server.Fresh | desktop-companion/src/server.rs:572-576 | a fresh buffer has `total` empty slots and a zero counter, and is consistent |
| Server.Store | desktop-companion/src/server.rs:578-583 | an index past the buffer is ignored; otherwise the slot holds the chunk and the counter rises only when it was empty |
| Server.StoreConsistent | desktop-companion/src/server.rs:578-583 | storing a chunk keeps the counter equal to the number of filled slots |
| Server.DuplicateCountedOnce | desktop-companion/src/server.rs:579-581 | a chunk received twice is counted once |
| Server.FedShape | desktop-companion/src/server.rs:578-583 | after m chunks in order the first m slots hold them and the counter is m |
| Server.AssembleFilled | desktop-companion/src/server.rs:600-604 | with every slot filled, the assembled data is the chunks joined in index order |
| Server.FedComplete | desktop-companion/src/server.rs:566-604 | every chunk of a transfer delivered in order assembles to the joined data |
| Server.AcceptIconChunk | desktop-companion/src/server.rs:566-586 | the game's buffer is created on its first chunk, sized from that chunk, and the chunk is stored; other games' buffers are untouched |
| Server.FinishIcon | desktop-companion/src/server.rs:589-623 | the game's buffer is removed, and the joined chunks are the icon exactly when their CRC-32 matches |
| Server.AcceptIconChunkConsistent | desktop-companion/src/server.rs:566-586 | every buffer a connection keeps stays consistent through a chunk |
| Server.IconChunksPrefix | desktop-companion/src/server.rs:566-586 | after the first m chunks of an icon its buffer holds exactly those chunks |
| Server.IconReassembled | desktop-companion/src/server.rs:566-623 | all chunks of an icon followed by its end marker emit exactly the joined chunks and remove the buffer |
| Server.IconFrameDecoded | desktop-companion/src/server.rs:323-330 | piece k of the net plugin's upload decodes as chunk k of the icon |
| Server.IconEndDecoded | desktop-companion/src/server.rs:331-338 | the net plugin's end marker decodes with the icon's size and CRC |
| Server.IconPiecesJoin | desktop-companion/src/server.rs:600-604 | the pieces of the plugin's upload join back to the icon |
| Server.IconDeliveredOverNetwork | desktop-companion/src/server.rs:566-636 | the chunks the net plugin sends for a non-empty icon, decoded and fed in order, yield exactly that icon |
| Server.AcceptStatsChunk | desktop-companion/src/server.rs:502-546 | chunk 0 starts a fresh buffer, chunks inside the buffer are stored, and once every chunk is in the joined data is emitted and the buffer dropped |
| Server.AcceptStatsChunkConsistent | desktop-companion/src/server.rs:502-546 | the upload buffer stays consistent through a chunk |
| Server.StatsDuplicateIgnored | desktop-companion/src/server.rs:519-521 | a chunk already received does not advance the count, so it cannot complete the upload |
| Server.StatsChunksPrefix | desktop-companion/src/server.rs:502-546 | part-way through an upload in order the buffer holds what arrived and nothing is emitted |
| Server.StatsUploadCompletes | desktop-companion/src/server.rs:502-546 | an upload arriving once each in order completes on its last chunk with the joined chunks and its timestamp, and the buffer is dropped |
| Server.DefaultName | desktop-companion/src/server.rs:436 | an unintroduced PSP is named "PSP-" and its port |
| Server.LastSeen | desktop-companion/src/server.rs:420-446 | a known PSP is marked seen and asked for discovery at most once; an unknown one is added with the default name |
| Server.DiscoveryRequestedOnce | desktop-companion/src/server.rs:420-446 | a discovery request is due at most once per connection |
| Server.ElapsedSecs | desktop-companion/src/server.rs:199 | whole seconds between two instants, saturating at zero when the clock goes back |
| Server.Server.UpdateLastSeen | desktop-companion/src/server.rs:420-446 | the connection table afterwards is `LastSeen` of the old one, and the result says whether to ask for discovery |
| Server.Server.HandleGameInfo | desktop-companion/src/server.rs:281-322 | the PSP is marked seen, its game replaced, its name taken from a non-empty PSP name, and a persistent flag is kept once set |
| Server.Server.HandleDiscoveryResponse | desktop-companion/src/server.rs:339-377 | a responding PSP is added under its own name, never replacing a known connection |
| Server.Server.HandleIconChunk | desktop-companion/src/server.rs:566-586 | the chunk is stored in the connection's buffer; an unknown PSP is ignored |
| Server.Server.HandleIconEnd | desktop-companion/src/server.rs:589-636 | the buffer is removed and the icon returned when its CRC matches; an unknown PSP is ignored |
| Server.Server.HandleStatsUpload | desktop-companion/src/server.rs:502-563 | once complete, the connection's name, the joined JSON and its timestamp; an unknown PSP is ignored |
| Server.Server.Sweep | desktop-companion/src/server.rs:183-213 | the non-persistent connections unseen for more than the timeout are removed and reported; all others stay |
| Server.ExpiredAddrs | desktop-companion/src/server.rs:194-202 | the addresses collected are exactly those of non-persistent connections unseen for more than the timeout |
| Server.Dropped | desktop-companion/src/server.rs:204-212 | removing the collected addresses leaves exactly the other connections, unchanged |
| NetMain.IncompatibleOnlyListed | psp-plugin/net/src/main.c:45-56 | exactly the listed game id is incompatible, and an empty id never is |
| NetMain.IsIncompatibleGame | psp-plugin/net/src/main.c:45-56 | only a nine-character id can be incompatible |
| NetMain.Since | psp-plugin/net/src/main.c:244 | the difference of two 64-bit clock readings, exact when the clock did not go back |
| NetMain.HeartbeatPeriod | psp-plugin/net/src/main.c:515-522 | the heartbeat period is the configured one, clamped to one second .. five minutes |
| NetMain.ResendPeriod | psp-plugin/net/src/main.c:531-539 | no resend for 0; otherwise the period clamped to one second .. one hour |
| NetMain.GameCheckPeriod | psp-plugin/net/src/main.c:496-500 | the detector period is the poll interval, at least half a second |
| NetMain.IconTestNeverPasses | psp-plugin/net/src/main.c:561-568 | an icon upload never returns 0, so the test as written never records an icon as sent; the corrected test records exactly the uploads that returned 23 |
| NetMain.Connecting | psp-plugin/net/src/main.c:377-391 | a connect attempt leaves the plugin not connected, with everything else kept |
| NetMain.InitPhase | psp-plugin/net/src/main.c:362-403 | bringing the network up keeps the loop running and the link state coherent |
| NetMain.WlanPhase | psp-plugin/net/src/main.c:405-410 | with the WLAN switch off the network is down afterwards |
| NetMain.DiscoveryPhase | psp-plugin/net/src/main.c:412-420 | discovery changes neither the running flag nor the network state, keeps the link coherent, and connects only on a received request whose response went out |
| NetMain.FailedResponseStrands | psp-plugin/net/src/main.c:412-420 | a request whose response send fails leaves the plugin unconnected with auto-discovery off, so no later pass discovers again |
| NetMain.PollPhase | psp-plugin/net/src/main.c:423-450 | the poll keeps the loop running and the link coherent |
| NetMain.RetryPhase | psp-plugin/net/src/main.c:452-476 | a connect attempt is made exactly when the network is up, the host is not connected, discovery is off and five seconds have passed since the last attempt; otherwise nothing changes; the loop keeps running and the link stays coherent |
| NetMain.DetectPhase | psp-plugin/net/src/main.c:495-511 | detection changes only the current game, the changed flag and the check time |
| NetMain.SendPhase | psp-plugin/net/src/main.c:513-589 | as written: the loop ends only in send-once mode with the network up, the link stays coherent, and the last icon sent changes only for an upload result of 0 |
| NetMain.SendPhaseWith | psp-plugin/net/src/main.c:513-589 | for either outcome of the icon test, the loop ends only in send-once mode with the network up and the link stays coherent |
| NetMain.SendGating | psp-plugin/net/src/main.c:513-555 | the heartbeat goes out exactly when the network is up and its period has elapsed, and only then is its time stamped; the game info goes out exactly when the network is up, the host is connected and an update is due; a successful send stamps the last send and clears the change, and is followed by the shutdown exactly in send-once mode |
| NetMain.SendPhaseCorrected | psp-plugin/net/src/main.c:561-568 | with the corrected test the last icon sent changes only for a non-negative upload result |
| NetMain.Prelude | psp-plugin/net/src/main.c:360-476 | link management and the poll keep the loop running and the link coherent |
| NetMain.Step | psp-plugin/net/src/main.c:359-593 | one pass is the phases in order with the as-written icon test; it keeps the link coherent (never connected and awaiting an ACK, never connected without a network) |
| NetMain.AckConnectsOnlyWhenAwaited | psp-plugin/net/src/main.c:427-432 | an ACK connects the plugin exactly when it waits for one |
| NetMain.IconRequestServedOnlyWhenConnected | psp-plugin/net/src/main.c:433-449 | an icon request is served exactly when connected with icons on |
| NetMain.ForceCleanupOnlyFirst | psp-plugin/net/src/main.c:392-402 | force cleanup follows only the first failed initialisation |
| NetMain.TimeoutStops | psp-plugin/net/src/main.c:478-493 | the connect timeout stops the loop, and only under its four conditions |
| NetMain.SendOnceStops | psp-plugin/net/src/main.c:545-587 | after a successful game-info send in send-once mode the loop ends with the network down |
| NetMain.IconGating | psp-plugin/net/src/main.c:546-573 | in both the as-written and the corrected send phase the icon follows the game info only for a changed game with an icon, icons on, not the last icon sent, and a successful game-info send; with the corrected test the last icon sent changes only to the uploaded game after a successful upload |
| NetMain.NoRepeatUpload | psp-plugin/net/src/main.c:546-573 | with the corrected test, an icon uploaded successfully is not due again when the same game is marked changed once more |
| NetMain.IconResentAsWritten | psp-plugin/net/src/main.c:561-568 | as written, a successful upload (result 23) leaves the icon unrecorded, so the same game marked changed again uploads it again |
| NetMain.DetectMarksChange | psp-plugin/net/src/main.c:501-510 | a detection differing in id or state replaces the current game and marks it changed; an equal one does not |
| NetMain.Initial | psp-plugin/net/src/main.c:335-357 | the loop starts running with a coherent link |
| NetMain.PluginThread.Loop | psp-plugin/net/src/main.c:359-593 | the thread's globals and action log after the loop are those of the run of one as-written pass per reading, and the link stays coherent |
| NetMain.Passes | psp-plugin/net/src/main.c:359-593 | the `while (g_running)` loop over the readings ends with exactly the globals and actions of the run of as-written passes, and keeps the link coherent |
| UsbMain.Since | psp-plugin/usb/src/main.c:281 | the difference of two 32-bit second readings, exact when the clock did not go back |
| UsbMain.Timestamp | psp-plugin/usb/src/main.c:92-111 | the digits after the first "last_updated", past quotes, colons and spaces, as a 64-bit value; 0 without the key |
| UsbMain.LocalTimestamp | psp-plugin/usb/src/main.c:72-114 | 0 without a file or with an empty one; otherwise the stamp in the text before the first NUL of its first 511 bytes |
| UsbMain.TimestampRoundTrip | psp-plugin/usb/src/main.c:72-114 | a stamp written as the desktop writes it reads back as the same number |
| UsbMain.ValueAfterKey | psp-plugin/usb/src/main.c:100-107 | after any run of separators a decimal number below 2^64 reads back exactly |
| UsbMain.TimestampReadsPrefix | psp-plugin/usb/src/main.c:84-90 | only the first 511 bytes count, and reading stops at a NUL |
| UsbMain.ReadLocalTimestamp | psp-plugin/usb/src/main.c:92-113 | the pointer scan returns the stamp of the text |
| UsbMain.SeparatorRun | psp-plugin/usb/src/main.c:101-103 | the loop stops at the first character that is not a quote, colon or space, leaving the text with those skipped |
| UsbMain.FindKey | psp-plugin/usb/src/main.c:93-97 | the first position of "last_updated", or the end of the text when there is none |
| UsbMain.AccumulateWrapping | psp-plugin/usb/src/main.c:104-107 | the digit loop computes the number modulo 2^64 |
| UsbMain.Normalize | psp-plugin/usb/src/main.c:290-296 | the system menu ids become "XMB" / "Browsing XMB"; other games are kept |
| UsbMain.NormalizeXmb | psp-plugin/usb/src/main.c:290-296 | normalising is idempotent and changes exactly the system-menu ids |
| UsbMain.NormalizeExamples | psp-plugin/usb/src/main.c:290-296 | "Xmb...", "SystemControl" map to XMB and a game id is kept |
| UsbMain.StartupGame | psp-plugin/usb/src/main.c:477-494 | id and title are empty unless a block with the right magic came; then each is cut to its field |
| UsbMain.VblankWaitCount | psp-plugin/usb/src/main.c:499-512 | no wait when the configured wait is 0; otherwise the per-game override for a start-up game, else the configured wait |
| UsbMain.Startup | psp-plugin/usb/src/main.c:180-246 | an announcement is made exactly when the host is connected: a loader-passed game is announced as playing with its title (its id when the title is empty) and an icon, and its id cut to 15 characters becomes the last game; without one XMB is recorded as the last game and announced as "Browsing XMB"; the last update is stamped only after a successful send |
| UsbMain.ConnectPhase | psp-plugin/usb/src/main.c:270-278 | a new host connection resets the stats sync |
| UsbMain.PollPhase | psp-plugin/usb/src/main.c:281-352 | a changed game becomes the last game and is sent; an unchanged one is resent only when the resend interval has elapsed |
| UsbMain.HeartbeatPhase | psp-plugin/usb/src/main.c:355-358 | the heartbeat goes out exactly when its interval has elapsed, and then its time is stamped; otherwise nothing changes |
| UsbMain.IconPhase | psp-plugin/usb/src/main.c:362-384 | the requested icon is sent exactly when the message is an icon request, icons are on, the id is non-empty and the icon loads |
| UsbMain.SyncPhase | psp-plugin/usb/src/main.c:388-442 | as written: the configuration and running flag are kept, and a request goes out only when none is pending and the written test says one is due |
| UsbMain.SyncPhaseWith | psp-plugin/usb/src/main.c:388-442 | a request carrying the local stamp goes out exactly when none is pending and one is due; the sync is pending afterwards only if that send succeeded, stamped now; a pending one changes `done` only on a response of 1 |
| UsbMain.SyncPhaseCorrected | psp-plugin/usb/src/main.c:388-402 | with the corrected test a request goes out only when none is pending and the retry rule says one is due |
| UsbMain.Step | psp-plugin/usb/src/main.c:248-451 | without a host nothing happens but forgetting the connection, and the configuration never changes; otherwise the phases in order with the as-written sync test |
| UsbMain.NewConnectionResetsSync | psp-plugin/usb/src/main.c:270-278 | a pass on a new connection sees the sync state reset before deciding |
| UsbMain.RequestOnlyWhenDue | psp-plugin/usb/src/main.c:388-416 | in the as-written and the corrected phase a request goes out exactly when no sync is pending and that phase's test says one is due, carrying the local stamp, and a sync becomes pending only through a request |
| UsbMain.ResponseHandling | psp-plugin/usb/src/main.c:417-442 | 1 completes the sync, -2 and other errors except -1 clear the pending flag, 0, -1 and values above 1 change nothing; the corrected phase handles a pending sync the same way |
| UsbMain.SyncStallsAsWritten | psp-plugin/usb/src/main.c:388-402 | as written, once the initial sync was attempted and did not complete, the sync phase requests nothing more; no sync runs again while the host stays connected (a new connection resets the sync state, `UsbMain.NewConnectionResetsSync`) |
| UsbMain.SyncRetriesAfterFailure | psp-plugin/usb/src/main.c:388-402 | the corrected test retries an abandoned sync once five minutes have passed |
| UsbMain.SyncStallExample | psp-plugin/usb/src/main.c:388-442 | a truncated initial sync at second 10 leaves the code as written idle at second 400, where the corrected test syncs |
| UsbMain.ShouldSyncExtends | psp-plugin/usb/src/main.c:388-402 | the corrected test agrees with the written one except on abandoned-sync states |
| UsbMain.ChangedGameRecorded | psp-plugin/usb/src/main.c:299-325 | a changed game is recorded whether or not its send succeeds; the update time only after a successful send; send-once ends the loop on success |
| UsbMain.ResendGating | psp-plugin/usb/src/main.c:326-339 | an unchanged game is resent only when the interval is set and has elapsed |
| UsbMain.Initial | psp-plugin/usb/src/main.c:158-246 | the starting state is that of the start-up announcement |
| UsbMain.RunKeepsConfig | psp-plugin/usb/src/main.c:248-451 | the configuration never changes while the loop runs |
| UsbMain.UsbThread.constructor | psp-plugin/usb/src/main.c:158-246 | the thread starts from the state after the start-up announcement |
| UsbMain.UsbThread.Loop | psp-plugin/usb/src/main.c:248-451 | the thread's state and action log after the loop are those of the run of one as-written pass per reading |
| CompanionUsage.Record | desktop-companion/src/usage_tracker.rs:295-412 | the game's entry exists afterwards (created if missing) and no other game changes |
| CompanionUsage.RecordAdds | desktop-companion/src/usage_tracker.rs:295-412 | recording adds the delta to the total and to the day, and one session when finishing |
| CompanionUsage.SaveAllInvariant | desktop-companion/src/usage_tracker.rs:295-354 | through any run of saves the saved total equals the recorded time and never exceeds the last reading |
| CompanionUsage.SessionAccounting | desktop-companion/src/usage_tracker.rs:295-412 | however often a running session is saved, on a clock that does not go back, the saves and the finish together record exactly the session's elapsed seconds |
| CompanionUsage.MergeDailyPointwise | desktop-companion/src/usage_tracker.rs:689-707 | per date the merged count is the larger of the local one and every uploaded one, and the dates played gain exactly the uploaded dates |
| CompanionUsage.MergeAll | desktop-companion/src/usage_tracker.rs:636-709 | the merge of the whole uploaded array, with the count of totals that rose |
| CompanionUsage.MergeHighWater | desktop-companion/src/usage_tracker.rs:636-709 | after a merge every game's total and session count are the largest of the local value and every uploaded one; entries without an id are skipped |
| CompanionUsage.MergeOneStep | desktop-companion/src/usage_tracker.rs:662-687 | one uploaded game raises its own entry to the high-water mark and touches no other |
| CompanionUsage.MergeCountNoRise | desktop-companion/src/usage_tracker.rs:677-680 | the merge count counts uploaded games whose total rose, so it is 0 when none rose |
| CompanionUsage.MergeAgainCountsNothing | desktop-companion/src/usage_tracker.rs:619-717 | merging the same statistics twice changes no total the second time and counts nothing |
| CompanionUsage.MergeOneDaily | desktop-companion/src/usage_tracker.rs:689-707 | a merged game's daily counts are the larger of local and uploaded, and its dates gain the uploaded dates |
| CompanionUsage.SumForDistinct | desktop-companion/src/usage_tracker.rs:432-464 | in a list with one entry per title an entry's seconds are that title's sum |
| CompanionUsage.Aggregate | desktop-companion/src/usage_tracker.rs:432-464 | aggregation keeps one entry per title, the titles of the input, each holding the title's summed seconds |
| CompanionUsage.SortDesc | desktop-companion/src/usage_tracker.rs:432-464 | the stable sort is ordered largest first and is a permutation of its input, keeping every title's sum |
| CompanionUsage.TopPlayedSpec | desktop-companion/src/usage_tracker.rs:432-464 | the top list holds distinct non-empty titles with their summed totals, largest first, at most `count`, and no title left out has more seconds than one kept |
| CompanionUsage.TopPlayed | desktop-companion/src/usage_tracker.rs:432-464 | at most `count` entries, each a title of the summed totals |
| CompanionUsage.LeftOut | desktop-companion/src/usage_tracker.rs:432-464 | in a list sorted largest first, an entry past the first n has no more seconds than any of them |
| CompanionUsage.DistinctCount | desktop-companion/src/usage_tracker.rs:432-464 | a list with one entry per title is as long as its set of titles |
| CompanionUsage.StatsForDateSpec | desktop-companion/src/usage_tracker.rs:552-580 | the day's list has one entry per title played that day, holding all that title's seconds that day, largest first |
| CompanionUsage.StatsForDate | desktop-companion/src/usage_tracker.rs:552-580 | the day's list is sorted largest first with distinct titles, exactly the titles played that day |
| CompanionUsage.UsageTracker.constructor | desktop-companion/src/usage_tracker.rs:97-108 | the tracker holds the data file as it is, with no address registered |
| CompanionUsage.UsageTracker.RegisterPsp | desktop-companion/src/usage_tracker.rs:152-176 | the address is added or renamed, its session kept |
| CompanionUsage.UsageTracker.SaveSession | desktop-companion/src/usage_tracker.rs:295-354 | the unsaved time of a running session is recorded and the saved total returned |
| CompanionUsage.UsageTracker.FinishSession | desktop-companion/src/usage_tracker.rs:356-412 | the rest of a session is recorded and counted, unless it lasted under the minimum |
| CompanionUsage.UsageTracker.UnregisterPsp | desktop-companion/src/usage_tracker.rs:178-190 | the address is forgotten; a running session is saved (not finished) under its PSP, and without one the data file is unchanged |
| CompanionUsage.UsageTracker.UpdateGame | desktop-companion/src/usage_tracker.rs:192-293 | the address is registered or renamed, other addresses kept; for the same game and state the session is saved and kept, otherwise the old one is finished and a new one starts now with nothing saved; the data file is exactly the save or the finish |
| CompanionUsage.UsageTracker.FlushAll | desktop-companion/src/usage_tracker.rs:414-430 | every address is forgotten, and the data file is that of finishing every running session, one address after another in the map's order, with no PSP entry lost |
| CompanionUsage.SavedPsps | desktop-companion/src/usage_tracker.rs:295-354 | a save adds or changes only the entry of its PSP, and keeps every other one |
| CompanionUsage.FinishedPsps | desktop-companion/src/usage_tracker.rs:356-412 | a finish adds or changes only the entry of its PSP, and keeps every other one |
| CompanionUsage.FlushTouchesOnlySessions | desktop-companion/src/usage_tracker.rs:414-430 | a flush keeps every PSP entry, adds only those of PSPs with a running session, and leaves every other PSP's games as they were |
| CompanionUsage.UsageTracker.MergeFromPsp | desktop-companion/src/usage_tracker.rs:619-717 | an upload that is not JSON leaves the file alone; otherwise every uploaded game is merged into the PSP's entry and the file is stamped |
| CompanionUsage.UsageTracker.LastUpdated | desktop-companion/src/usage_tracker.rs:582-586 | the file's stamp, or 0 without one |
| CompanionUsage.MergeGame | desktop-companion/src/usage_tracker.rs:637-708 | the loop body merges one uploaded game as `MergeOne` does |
| CompanionUsage.MergeDailyEntries | desktop-companion/src/usage_tracker.rs:690-707 | the inner loop merges one game's daily array as `MergeDaily` does |
| PluginUsage.NewGame | psp-plugin/net/src/usage_tracker.c:67-74 | a new row carries the id (cut to its buffer) with zero seconds and zero sessions |
| PluginUsage.FindFrom | psp-plugin/net/src/usage_tracker.c:56-60 | the result is the first row at or after the start whose id matches, and None when no such row exists |
| PluginUsage.SlotSpec | psp-plugin/net/src/usage_tracker.c:55-75 | the row handed back holds the id; the table only grows by that one row, stays within 50 rows and keeps ids distinct; no row exactly when the id is absent and the table is full |
| PluginUsage.Tracker.FindOrCreate | psp-plugin/net/src/usage_tracker.c:55-75 | the scanning loop yields the table and row the specification function gives |
| PluginUsage.Elapsed | psp-plugin/net/src/usage_tracker.c:247-249 | without wrap-around the elapsed seconds are the tick difference divided by the resolution |
| PluginUsage.Bumped | psp-plugin/net/src/usage_tracker.c:255-260 | a credited row keeps its id and gains the seconds and one session when neither counter wraps |
| PluginUsage.CreditKeepsTotal | psp-plugin/net/src/usage_tracker.c:239-268 | the running total stays the sum of the rows' seconds after a session is credited; a short session or one with no room changes nothing |
| PluginUsage.CreditOneRow | psp-plugin/net/src/usage_tracker.c:251-263 | crediting touches only the session's row, which gains the seconds and one session and takes a non-empty session title |
| PluginUsage.Tracker.constructor | psp-plugin/net/src/usage_tracker.c:206-213 | the tracker starts with no rows, zero total and no session |
| PluginUsage.Tracker.EndSession | psp-plugin/net/src/usage_tracker.c:239-268 | a running session is credited to its game by the crediting function and cleared; without one nothing changes |
| PluginUsage.Tracker.StartSession | psp-plugin/net/src/usage_tracker.c:218-234 | a running session is ended first; an empty id starts nothing; otherwise the id, title (or id) and start tick are recorded |
| PluginUsage.NumberKey | psp-plugin/net/src/usage_tracker.c:78-82 | the pattern is the key in quotes followed by a colon |
| PluginUsage.StringKey | psp-plugin/net/src/usage_tracker.c:93-101 | the string pattern is the number pattern followed by an opening quote |
| PluginUsage.ParseJsonNumber | psp-plugin/net/src/usage_tracker.c:78-90 | the value fits 64 bits and is 0 when the key is absent |
| PluginUsage.ParseJsonString | psp-plugin/net/src/usage_tracker.c:93-113 | the value fits the output buffer and holds no quote |
| PluginUsage.JsonStringRoundTrip | psp-plugin/net/src/usage_tracker.c:93-113 | a string field written in front of the text reads back unchanged when it fits and holds no quote |
| PluginUsage.JsonNumberRoundTrip | psp-plugin/net/src/usage_tracker.c:78-90 | a count written in decimal after the key reads back as written, below 2^63 |
| PluginUsage.JsonNumberDigits | psp-plugin/net/src/usage_tracker.c:78-90 | any run of digits after the key reads back as its decimal value, below 2^63 |
| Sfo.Key | psp-plugin/net/src/sfo.c:66 | an entry's key is read up to, not including, its terminator |
| Sfo.Value | psp-plugin/net/src/sfo.c:71-75 | the value copied is the entry's length cut to the field's capacity |
| Sfo.View | psp-plugin/net/src/sfo.c:65-102 | the string fields read the value cut to their buffer; CATEGORY reads its first two bytes exactly when it has at least two |
| Sfo.Views | psp-plugin/net/src/sfo.c:65 | the entries read are exactly the ones the header counts, in order |
| Sfo.Apply | psp-plugin/net/src/sfo.c:69-102 | one entry keeps every field within its buffer |
| Sfo.ApplyAll | psp-plugin/net/src/sfo.c:65-103 | applying the entries in order keeps every field within its buffer |
| Sfo.ParseBuffer | psp-plugin/net/src/sfo.c:34-106 | -1 with the record untouched exactly below 20 bytes; -2 exactly on a bad magic and -3 exactly on a table offset past the end, both with the record zeroed; otherwise 0 and the entries applied |
| Sfo.LastWith | psp-plugin/net/src/sfo.c:65-103 | the last entry with a key: every later entry has another key, and none has it when there is none |
| Sfo.ApplyField | psp-plugin/net/src/sfo.c:69-95 | an entry sets the field its key names and leaves the others alone |
| Sfo.LastEntryWins | psp-plugin/net/src/sfo.c:65-103 | each string field ends holding the value of the last entry with its key, or its earlier value when none has it |
| Sfo.ParsedTitle | psp-plugin/net/src/sfo.c:45-77 | the parsed title is the last TITLE entry's value cut to 127 bytes, or empty when no entry is titled |
| Sfo.CategoryBigEndian | psp-plugin/net/src/sfo.c:97-101 | CATEGORY is the first two value bytes, most significant first, and nothing changes when it has fewer |
| Sfo.TitleOnlyRoundTrip | psp-plugin/net/src/sfo.c:34-106 | a file holding only a non-empty title parses to that title cut to 127 bytes, the other fields empty |
| UsbConfig.Defaults | psp-plugin/usb/src/config.c:46-58 | the defaults lie in the loaded ranges: enabled, icons on, send-once and logging off, no game-update interval, a 300-frame vblank wait |
| UsbConfig.ParseInt | psp-plugin/usb/src/config.c:18-41 | the accumulator loop reads the signed leading decimal after the blanks |
| UsbConfig.SkipBlankRun | psp-plugin/usb/src/config.c:23-24 | the position reached is where the leading spaces and tabs end |
| UsbConfig.Accumulate | psp-plugin/usb/src/config.c:35-38 | the loop accumulates the value of the leading run of digits |
| UsbConfig.ParseIntDigits | psp-plugin/usb/src/config.c:18-41 | digits followed by a non-digit read as their value, negated after a minus, unchanged after blanks and a plus |
| UsbConfig.ParseIntDecimal | psp-plugin/usb/src/config.c:18-41 | a number written in decimal reads back unchanged, and negated after a minus |
| UsbConfig.ParseIntNoDigits | psp-plugin/usb/src/config.c:18-41 | text starting with neither digit nor sign after its blanks reads as 0 |
| UsbConfig.Field32 | psp-plugin/usb/src/config.c:157 | an integer value cast to the unsigned 32-bit field stays below 2^32 |
| UsbConfig.WrappedValue | psp-plugin/usb/src/config.c:35-38 | the accumulator kept to 32 bits after each step stays below 2^32 |
| UsbConfig.Field32Wrapped | psp-plugin/usb/src/config.c:18-41 | the 32-bit field read with wrapping `int` arithmetic stays below 2^32 |
| UsbConfig.WrappedIsLowBits | psp-plugin/usb/src/config.c:35-38 | keeping 32 bits after each step leaves the low 32 bits of the full value |
| UsbConfig.Field32Wraps | psp-plugin/usb/src/config.c:18-41 | the unbounded reading cast to the field equals what the wrapping 32-bit arithmetic leaves there, for digit runs of any length |
| UsbConfig.Assign | psp-plugin/usb/src/config.c:150-188 | assigning a known key keeps every interval in its clamped range |
| UsbConfig.AssignClamps | psp-plugin/usb/src/config.c:172-185 | the game-update interval and the vblank wait land in their ranges, and an in-range vblank wait is kept as written |
| UsbConfig.AssignInterval | psp-plugin/usb/src/config.c:172-176 | the game-update key sets only the interval, to the 32-bit value of the number cut to 300000 |
| UsbConfig.AssignVblank | psp-plugin/usb/src/config.c:181-185 | the vblank key sets only the wait, to the 32-bit value of the number cut to 3000 |
| UsbConfig.ParseLine | psp-plugin/usb/src/config.c:115-189 | comments, empty lines and lines without '=' change nothing, and a line keeps the configuration in range |
| UsbConfig.ApplyLinesInRange | psp-plugin/usb/src/config.c:63-110 | whatever the file holds, the loaded configuration stays in range |
| UsbConfig.ConfigLoad | psp-plugin/usb/src/config.c:63-110 | no file gives the defaults and 0, an empty one the defaults and -1, otherwise the lines applied over the defaults; always in range |
| UsbConfig.SearchKey | psp-plugin/usb/src/config.c:243-246 | the search key is the id cut to 19 characters followed by "_vblank_wait" |
| UsbConfig.LineWait | psp-plugin/usb/src/config.c:272-287 | an override is only found on a line holding '=' |
| UsbConfig.FirstSomeIsEarliest | psp-plugin/usb/src/config.c:267-297 | the search finds nothing exactly when no line has an override, and otherwise the earliest such line's |
| UsbConfig.OverrideOnlyForKey | psp-plugin/usb/src/config.c:231-300 | the default stands unless some line names the game's key |
| UsbConfig.GetGameVblankWait | psp-plugin/usb/src/config.c:231-300 | the line-by-line loop returns what the specification function gives |
| UsbConfig.FoundLine | psp-plugin/usb/src/config.c:280-287 | the first line found holding the key stays the first found when the scan goes on to the end, so returning early gives the same answer |
| GameDetect.BuildPathNoDoubleSlash | psp-plugin/usb/src/game_detect.c:122-174 | joining a base, an optional name and a suffix never puts two slashes together where the pieces meet |
| GameDetect.BuildPath | psp-plugin/usb/src/game_detect.c:122-174 | the path starts with the base (its trailing slash dropped) and ends with the suffix |
| GameDetect.IconPathDoublesSlash | psp-plugin/usb/src/game_detect.c:425 | the icon path built with the name "/ICON0.PNG" is the game folder, two slashes, then ICON0.PNG |
| GameDetect.IconPathSingleSlash | psp-plugin/usb/src/game_detect.c:692 | the icon path built with ICON0.PNG as suffix joins folder and file with exactly one slash |
| GameDetect.UmdGameIdShape | psp-plugin/usb/src/game_detect.c:724-755 | an id is accepted exactly when it is four capitals, an optional hyphen, five digits, then the end of the id or a space |
| GameDetect.IsUmdGameId | psp-plugin/usb/src/game_detect.c:724-755 | an accepted id is at least nine characters and starts with four capitals |
| GameDetect.ShapeAccepted | psp-plugin/usb/src/game_detect.c:724-755 | every id of the accepted shape passes the check |
| GameDetect.StateByPrefix | psp-plugin/usb/src/game_detect.c:620-640 | XMB exactly for the empty id, homebrew exactly for a HOMEBREW or HB id without a region prefix, a game otherwise |
| GameDetect.DetermineState | psp-plugin/usb/src/game_detect.c:620-640 | the state is XMB, game or homebrew, and XMB exactly for the empty id |
| GameDetect.DaysBeforeYear | psp-plugin/usb/src/game_detect.c:656-658 | the days before a year are at most 366 per year since 1970 |
| GameDetect.DaysBeforeMonth | psp-plugin/usb/src/game_detect.c:666-671 | the days before a month are at most 31 per month |
| GameDetect.UnixSeconds | psp-plugin/usb/src/game_detect.c:652-674 | the computed timestamp wraps at 32 bits like the `uint32_t` result |
| GameDetect.DaysBeforeYearClosed | psp-plugin/usb/src/game_detect.c:656-658 | the year loop counts 365 days a year plus one per Gregorian leap year |
| GameDetect.Y2K | psp-plugin/usb/src/game_detect.c:646-675 | midnight on 1 January 2000 converts to the Unix time 946684800 |
| GameDetect.GetUnixTime | psp-plugin/usb/src/game_detect.c:646-675 | 0 when the clock cannot be read, otherwise the conversion of the reading |
| GameDetect.YearLoop | psp-plugin/usb/src/game_detect.c:655-658 | the loop adds up the days of every year from 1970 up to the one before `year` |
| GameDetect.MonthLoop | psp-plugin/usb/src/game_detect.c:666-671 | the loop adds the days of the months before `month`, with February's leap day in a leap year |
| GameDetect.FirstFound | psp-plugin/usb/src/game_detect.c:53-75 | the first detector, in order, that succeeds with an id; none before it does, and none at all when the result is None |
| GameDetect.Detector.constructor | psp-plugin/usb/src/game_detect.c:40-43 | the start time begins at zero |
| GameDetect.Detector.Current | psp-plugin/usb/src/game_detect.c:48-97 | the first found game with its state from its id and the start time fixed on first detection; the unknown game when nothing is found |
| StatsApp.TrimStart | psp-stats-app/src/stats.rs:64 | the trimmed text is a suffix of the input that starts with no white space |
| StatsApp.TrimEnd | psp-stats-app/src/stats.rs:217 | the trimmed text is a prefix of the input that ends with no white space |
| StatsApp.ExtractString | psp-stats-app/src/stats.rs:58-74 | a string value read after the key holds no quote |
| StatsApp.ExtractNumber | psp-stats-app/src/stats.rs:77-96 | a number read after the key fits 64 bits |
| StatsApp.ExtractBool | psp-stats-app/src/stats.rs:99-113 | true or false exactly when the text after the first key, past blanks, starts with that word; none without the key or either word |
| StatsApp.BoolValueRoundTrip | psp-stats-app/src/stats.rs:99-113 | a `true` or `false` written after the first occurrence of the key, past any blanks, reads back as that value |
| StatsApp.StringValueRoundTrip | psp-stats-app/src/stats.rs:58-74 | a quoted value after the first occurrence of the key, past white space, reads back unchanged |
| StatsApp.NumberValueRoundTrip | psp-stats-app/src/stats.rs:77-96 | a decimal written after the first occurrence of the key, past white space, reads back as written below 2^64 |
| StatsApp.NoNumber | psp-stats-app/src/stats.rs:77-96 | no number is read when no digit follows the key |
| StatsApp.ParseGameEntry | psp-stats-app/src/stats.rs:116-141 | an entry exists exactly when it has a title; its seconds come from "seconds", else "total_seconds", else 0; its session count from "sessions", else "session_count", else 0, cut to 32 bits; the game id and last-played text are read or empty, and the hidden flag is read or false; the key is the one given |
| StatsApp.LastIndex | psp-stats-app/src/stats.rs:232 | the last position holding the character, and None exactly when it is absent |
| StatsApp.ExtractGameKey | psp-stats-app/src/stats.rs:214-237 | the key read holds no quote |
| StatsApp.GameKeyRoundTrip | psp-stats-app/src/stats.rs:214-237 | a quoted key followed by a colon, with blanks around, reads back as the key |
| StatsApp.ScanBack | psp-stats-app/src/stats.rs:156-170 | a backward scan only stops on an opening brace before the title; `StatsApp.ScanBackMatches` shows it is the brace that opens the balanced span before the title |
| StatsApp.ScanBackOpens | psp-stats-app/src/stats.rs:156-170 | the backward count stops on the first `{` it meets with no closing brace pending, provided no step drives the count below zero |
| StatsApp.ScanBackMatches | psp-stats-app/src/stats.rs:154-170 | from the end of a balanced span after a `{`, the backward count stops on that `{`: the nearest brace not closed before the title |
| StatsApp.NeverBelowClear | psp-stats-app/src/stats.rs:156-170 | a span none of whose suffixes closes more braces than are pending passes the backward count without stopping |
| StatsApp.WindowClear | psp-stats-app/src/stats.rs:156-170 | the backward count over a window of the text ends at the pending count minus the window's net opening braces |
| StatsApp.ScanForward | psp-stats-app/src/stats.rs:177-191 | a forward scan only stops just past a closing brace; `StatsApp.ScanForwardMatches` shows it is the brace that closes the object |
| StatsApp.ScanForwardCloses | psp-stats-app/src/stats.rs:177-191 | the forward count stops just past the first `}` that brings the open count to zero |
| StatsApp.ScanForwardMatches | psp-stats-app/src/stats.rs:176-191 | from just inside a `{`, the forward count stops just past the `}` that closes it across a balanced body, nested objects included |
| StatsApp.ObjectStart | psp-stats-app/src/stats.rs:156-170 | the object starts at the opening brace the backward count stops on, exactly when it finds one, else at the title (positions in bytes); `StatsApp.ObjectMatches` shows this is the nearest unclosed brace |
| StatsApp.ObjectEnd | psp-stats-app/src/stats.rs:177-191 | the object ends where the forward count stops, just past a closing brace, when it finds one, else at the title (positions in bytes) |
| StatsApp.ObjectMatches | psp-stats-app/src/stats.rs:154-191 | for a title after a balanced span inside `{ … }` with a balanced body, the object is exactly that braced text: it starts at its `{` and ends just past its matching `}` |
| StatsApp.ScanStallsAsWritten | psp-stats-app/src/stats.rs:151-205 | on text that starts with a title and holds no braces, one pass of the loop as written resumes its search where it began |
| StatsApp.Scan | psp-stats-app/src/stats.rs:151-205 | every game collected has a non-empty title |
| StatsApp.Kept | psp-stats-app/src/stats.rs:195-202 | at most one game is kept, and only with a non-empty title |
| StatsApp.InsertBySeconds | psp-stats-app/src/stats.rs:208 | inserting keeps the list sorted by playtime, descending, adds exactly that game and adds its seconds and sessions to the sums |
| StatsApp.SortBySeconds | psp-stats-app/src/stats.rs:208 | the sorted list is ordered by playtime, descending, is a permutation of the input and keeps both sums |
| StatsApp.ParseUsageJson | psp-stats-app/src/stats.rs:144-211 | the games are the scanned games sorted by playtime and the totals are their sums at their widths |
| StatsApp.NextObject | psp-stats-app/src/stats.rs:151-205 | one pass of the loop keeps at most one game, moves the search forward, and leaves the scan of the rest to do the remainder |
| StatsApp.WrappedSums | psp-stats-app/src/stats.rs:198-199 | the running totals equal the sums of the games' seconds and sessions, wrapped at 64 and 32 bits |
| StatsApp.FindObjectStart | psp-stats-app/src/stats.rs:156-170 | the backward loop finds the object start the specification gives |
| StatsApp.FindObjectEnd | psp-stats-app/src/stats.rs:177-191 | the forward loop finds the object end the specification gives |
| StatsApp.CharCountIsLength | psp-stats-app/src/stats.rs:158-185 | a byte string has as many characters as bytes exactly when no byte continues a multi-byte character |
| StatsApp.ObjectStartAsWritten | psp-stats-app/src/stats.rs:156-170 | the start as written (the title's byte offset less the characters skipped) lies between the byte-exact start and the title |
| StatsApp.ObjectEndAsWritten | psp-stats-app/src/stats.rs:176-191 | the end as written (the start plus the characters scanned) never lies past the byte-exact end |
| StatsApp.StartAsWrittenExact | psp-stats-app/src/stats.rs:156-170 | the start as written is the byte-exact start exactly when no byte between the brace and the title continues a character |
| StatsApp.EndAsWrittenExact | psp-stats-app/src/stats.rs:176-191 | the end as written is the byte-exact end exactly when no byte inside the object continues a character |
| StatsApp.ObjectCutShortAsWritten | psp-stats-app/src/stats.rs:151-205 | for `{"title":"ファ","seconds":5}` the end as written is byte 26 of 30, so the seconds key falls outside the object taken and is lost |
| StatsApp.ParsedStats | psp-stats-app/src/stats.rs:144-211 | the parsed games are sorted by playtime, all titled, and the totals are their sums at their widths |
| StatsApp.DurationParts | psp-stats-app/src/stats.rs:241-243 | hours, minutes and seconds add back up to the total, with minutes and seconds below 60 |
| StatsApp.SecondsLabel | psp-stats-app/src/stats.rs:240-252 | under a minute the duration reads as its seconds followed by "s" |
| StatsApp.FormatDuration | psp-stats-app/src/stats.rs:240-252 | the label is never empty and ends in "s", the seconds unit |
| StatsApp.HoursMarked | psp-stats-app/src/stats.rs:240-252 | the label holds an "h" exactly from an hour on |
| StatsApp.HoursLabel | psp-stats-app/src/stats.rs:245-246 | from an hour on the duration starts with the hours followed by "h" |
| StatsApp.MinutesLabel | psp-stats-app/src/stats.rs:247-248 | between a minute and an hour the duration starts with the minutes followed by "m" |
| StatsApp.ShortLabel | psp-stats-app/src/stats.rs:255-266 | the short duration is "<1m" exactly below a minute |
| StatsApp.FormatDurationShort | psp-stats-app/src/stats.rs:255-266 | the short label ends in "h" exactly from an hour on and in "m" exactly below an hour |
| StatsConfig.Trim | psp-stats-app/src/config.rs:67 | the trimmed line is no longer than the input and neither starts nor ends with white space |
| StatsConfig.Split | psp-stats-app/src/config.rs:66 | splitting always gives at least one field |
| StatsConfig.IpOf | psp-stats-app/src/config.rs:119-159 | an accepted address has exactly four octets |
| StatsConfig.ParseIp | psp-stats-app/src/config.rs:119-159 | the character loop with its part index, running number and digit flag accepts exactly what the dotted-quad specification accepts, with the same octets |
| StatsConfig.ScanChar | psp-stats-app/src/config.rs:130-149 | one character either continues the octet scan over the text read so far, or stops it on text that names no address |
| StatsConfig.Rejected | psp-stats-app/src/config.rs:132-148 | a digit pushing an octet past 255, a misplaced dot or any other character rejects the address |
| StatsConfig.Finished | psp-stats-app/src/config.rs:152-158 | after the loop the address is accepted exactly with four parts, the last one holding digits |
| StatsConfig.IpRoundTrip | psp-stats-app/src/config.rs:119-159 | four octets written in decimal and joined by dots read back as those octets |
| StatsConfig.IpOfFields | psp-stats-app/src/config.rs:119-159 | four dot-separated fields of at most three digits and value at most 255 read as their values |
| StatsConfig.BlankIp | psp-stats-app/src/config.rs:120-123 | a blank value is no address |
| StatsConfig.ParseU16 | psp-stats-app/src/config.rs:87 | an accepted port fits 16 bits |
| StatsConfig.PortRoundTrip | psp-stats-app/src/config.rs:86-90 | a port written in decimal, with or without a plus sign, reads back unchanged |
| StatsConfig.LoadConfig | psp-stats-app/src/config.rs:50-103 | without a readable file the defaults, otherwise every line applied in order over the defaults |
| StatsConfig.HandleLine | psp-stats-app/src/config.rs:66-99 | one pass of the line loop does what the line function says |
| StatsConfig.SkippedLine | psp-stats-app/src/config.rs:69-75 | empty lines, comments and lines without '=' change nothing |
| StatsConfig.SettingLine | psp-stats-app/src/config.rs:75-98 | a line whose trimmed text splits at its first '=' into a key and a value assigns that value to that key |
| StatsConfig.AssignSetting | psp-stats-app/src/config.rs:79-98 | the match on the key does what the assignment function says |
| StatsConfig.AssignSettings | psp-stats-app/src/config.rs:79-98 | a valid address sets the address and the address flag, a valid port the port, a known flag its setting, and nothing else changes |
| StatsConfig.LineIp | psp-stats-app/src/config.rs:80-85 | a line sets the address only when it holds a valid one, and once set the address flag stays set |
| StatsConfig.LinePort | psp-stats-app/src/config.rs:86-90 | a line sets the port only when it holds a valid one |
| StatsConfig.LineFlags | psp-stats-app/src/config.rs:91-96 | a line sets offline mode or logging only when it names that flag |
| StatsConfig.LastSettingWins | psp-stats-app/src/config.rs:66-100 | each setting ends at the value of the last line that sets it, or its default |
| StatsConfig.NothingSet | psp-stats-app/src/config.rs:66-100 | lines that set nothing leave the configuration as it was |
| Thumbnail.Cleaned | desktop-companion/src/thumbnail_matcher.rs:241-244 | lowercasing and dropping the listed punctuation leaves only clean characters and never lengthens the title |
| Thumbnail.WordAt | desktop-companion/src/thumbnail_matcher.rs:246 | a word is the longest prefix without white space |
| Thumbnail.Words | desktop-companion/src/thumbnail_matcher.rs:246-247 | splitting at white space yields only non-empty words without white space |
| Thumbnail.NormalizeTitle | desktop-companion/src/thumbnail_matcher.rs:240-249 | a normalized title is single-spaced, with no leading or trailing space, and only clean characters |
| Thumbnail.WordsJoin | desktop-companion/src/thumbnail_matcher.rs:246-248 | splitting a space-joined list of words gives back the words |
| Thumbnail.NormalizeIdempotent | desktop-companion/src/thumbnail_matcher.rs:240-249 | normalizing a normalized title changes nothing |
| Thumbnail.NormalizeKeepsWords | desktop-companion/src/thumbnail_matcher.rs:240-249 | normalizing keeps the cleaned title's words, in order |
| Thumbnail.LastIndexOf | desktop-companion/src/thumbnail_matcher.rs:255 | the last position where the pattern occurs, and None exactly when it never does |
| Thumbnail.ExtractGameNameAsWritten | desktop-companion/src/thumbnail_matcher.rs:253-260 | the name is a prefix of the file name, the whole name exactly when no " (" occurs, and otherwise ends where the last one begins |
| Thumbnail.LastRegion | desktop-companion/src/thumbnail_matcher.rs:253-260 | with two region tags, the name as written keeps the first tag |
| Thumbnail.ExtractTestAsWritten | desktop-companion/src/thumbnail_matcher.rs:326-329 | the name as written for the Monster Hunter file keeps " (Europe)", unlike the expected name |
| Thumbnail.ExtractGameName | desktop-companion/src/thumbnail_matcher.rs:251-260 | the name is a prefix of the file name, the whole name exactly when no " (" occurs, and otherwise ends where the first one begins |
| Thumbnail.FirstRegion | desktop-companion/src/thumbnail_matcher.rs:251-260 | a name without parentheses followed by a region tag gives back the name, whatever follows |
| Thumbnail.ExtractTestTwoTags | desktop-companion/src/thumbnail_matcher.rs:326-329 | the Monster Hunter file with two tags gives the expected name |
| Thumbnail.ExtractTestOneTag | desktop-companion/src/thumbnail_matcher.rs:322-325 | the God of War file with one tag gives the expected name |
| Thumbnail.Utf8 | desktop-companion/src/thumbnail_matcher.rs:300 | a character's UTF-8 encoding has one to four bytes, and an ASCII one is itself |
| Thumbnail.Escape | desktop-companion/src/thumbnail_matcher.rs:301 | an escape is '%' and two more characters |
| Thumbnail.EscapeAll | desktop-companion/src/thumbnail_matcher.rs:300-302 | escaping bytes gives three characters per byte |
| Thumbnail.EncodeChar | desktop-companion/src/thumbnail_matcher.rs:292-304 | every character encodes to something |
| Thumbnail.Encode | desktop-companion/src/thumbnail_matcher.rs:288-308 | encoding never shortens the text |
| Thumbnail.UrlEncode | desktop-companion/src/thumbnail_matcher.rs:288-308 | the loop builds the encoding the specification gives |
| Thumbnail.EncodedCharset | desktop-companion/src/thumbnail_matcher.rs:288-308 | an encoded string holds only unreserved characters and '%' |
| Thumbnail.HexByte | desktop-companion/src/thumbnail_matcher.rs:270-272 | an escape is only read from exactly two hex digits |
| Thumbnail.UrlDecode | desktop-companion/src/thumbnail_matcher.rs:263-285 | the loop builds the decoding the specification gives |
| Thumbnail.DecodePlainAt | desktop-companion/src/thumbnail_matcher.rs:279-281 | a character other than '%' is copied |
| Thumbnail.DecodeEscapeAt | desktop-companion/src/thumbnail_matcher.rs:268-278 | a valid escape becomes its byte as a character; an invalid or short one is kept literally |
| Thumbnail.EscapeDecodes | desktop-companion/src/thumbnail_matcher.rs:263-308 | an escaped byte decodes back to that byte |
| Thumbnail.DecodeEncode | desktop-companion/src/thumbnail_matcher.rs:333-336 | decoding the encoding of an ASCII string gives the string back |
| Thumbnail.Decode | desktop-companion/src/thumbnail_matcher.rs:262-285 | decoding never lengthens the text: each escape shrinks to one character and everything else is copied |
| Thumbnail.DecodePlain | desktop-companion/src/thumbnail_matcher.rs:262-285 | text without '%' decodes to itself |
| Thumbnail.NonAsciiSplit | desktop-companion/src/thumbnail_matcher.rs:263-308 | a non-ASCII character encodes as its UTF-8 bytes and decodes to one character per byte |
| Loader.ToUpperChar | psp-plugin/loader/src/main.c:104-109 | lower-case ASCII letters move up by 32 and every other character is kept |
| Loader.UpperAll | psp-plugin/loader/src/main.c:137 | every character of the token is upper-cased in place, the length kept |
| Loader.TokenEquals | psp-plugin/loader/src/main.c:111-123 | two tokens are equal exactly when they have the same length and agree letter by letter ignoring case |
| Loader.TakeToken | psp-plugin/loader/src/main.c:134-140 | the token is the longest prefix before a space, tab, line break, ';' or '#' |
| Loader.NamedButton | psp-plugin/loader/src/main.c:143-178 | a token naming a button, in any case, maps to that button's mask |
| Loader.UnknownButton | psp-plugin/loader/src/main.c:180 | a token naming no button maps to the L trigger |
| Loader.NameLetters | psp-plugin/loader/src/main.c:143-178 | every button name is one to eight capital letters, so it fits the token buffer |
| Loader.SkipButtonNamed | psp-plugin/loader/src/main.c:125-181 | a button name after blanks and before a stop character selects that button |
| Loader.ParseSkipButton | psp-plugin/loader/src/main.c:125-181 | the blank-skipping and token-copying loops give the button of the value's first token |
| Loader.SkipBlankPrefix | psp-plugin/loader/src/main.c:131-133 | the loop stops where the leading blanks end |
| Loader.TokenRead | psp-plugin/loader/src/main.c:134-141 | the copied token is the upper-cased token cut to 31 characters |
| Loader.CopyToken | psp-plugin/loader/src/main.c:134-141 | the copy loop leaves in the buffer the upper-cased token cut to 31 characters |
| Loader.PutUpper | psp-plugin/loader/src/main.c:136-138 | the upper-cased character is stored only while the buffer has room, and the characters already stored are kept |
| Loader.ParseInt | psp-plugin/loader/src/main.c:296-314 | the loops read an optional minus sign and the digits after the blanks |
| Loader.ReadDigits | psp-plugin/loader/src/main.c:309-312 | the accumulator holds the value of the leading run of digits |
| Loader.IntRoundTrip | psp-plugin/loader/src/main.c:296-314 | a number written in decimal reads back as written |
| Loader.NegativeRoundTrip | psp-plugin/loader/src/main.c:296-314 | a minus sign followed by a decimal reads back as its negation |
| Loader.HexDigits | psp-plugin/loader/src/main.c:97-100 | the digit string has exactly the requested length |
| Loader.HexDigitsValue | psp-plugin/loader/src/main.c:95-102 | the digits, read most significant first, give the value modulo 16 to the number of digits |
| Loader.HexRoundTrip | psp-plugin/loader/src/main.c:95-102 | eight hex digits of a 32-bit value read back as the value |
| Loader.U32ToHex | psp-plugin/loader/src/main.c:95-102 | the buffer holds the value's eight hex digits, most significant first, then a terminator, and nothing after it changes |
| Loader.ConfigText | psp-plugin/loader/src/main.c:192-197 | the text scanned is at most 2047 bytes and stops before any NUL |
| Loader.SkipLead | psp-plugin/loader/src/main.c:208-210 | the line is scanned from its first character that is not a space, tab or carriage return |
| Loader.TrimEndBlanks | psp-plugin/loader/src/main.c:218-222 | the key is a prefix of the text before '=' that does not end with a blank |
| Loader.LineEnd | psp-plugin/loader/src/main.c:202-206 | a line runs up to the next newline, or to the end of the text |
| Loader.FindSetting | psp-plugin/loader/src/main.c:199-233 | the line loop finds the value the specification function gives |
| Loader.FirstLineWins | psp-plugin/loader/src/main.c:227-229 | a line that sets the key decides the value, whatever the later lines hold |
| Loader.SettingLine | psp-plugin/loader/src/main.c:208-229 | a line made of blanks, the key in any case, blanks, '=', blanks and a value gives that value |
| Loader.LoadSkipButton | psp-plugin/loader/src/main.c:183-236 | the button is the default without a readable file or a SKIP_BUTTON line, otherwise the button of that line's value |
| Loader.LoadStartupDelay | psp-plugin/loader/src/main.c:316-373 | the delay is 500 ms without a readable file or a STARTUP_DELAY_MS line, otherwise that line's value, or 500 ms when it is negative |
| Loader.DelayValues | psp-plugin/loader/src/main.c:360-366 | a non-negative delay is kept as written and a negative one falls back to 500 ms |
| Loader.LoadLoggingEnabled | psp-plugin/loader/src/main.c:238-294 | logging is on exactly when an ENABLE_LOGGING line's value starts with '1' |
| StatsViewer.Shown | psp-stats-app/src/main.rs:153 | the games listed outside selector mode are exactly the games not hidden |
| StatsViewer.MaxScroll | psp-stats-app/src/main.rs:110 | the furthest scroll leaves the last five listed games on screen, and is zero when five or fewer are listed |
| StatsViewer.ScrollStep | psp-stats-app/src/main.rs:102-114 | one button press moves the scroll by at most one row, keeps it in range, and no press keeps it |
| StatsViewer.ScrollUpDownCancel | psp-stats-app/src/main.rs:378-386 | Up and Down together leave a scroll strictly inside its range where it was |
| StatsViewer.SelectStep | psp-stats-app/src/main.rs:117-137 | the selection moves by at most one, stays among the listed games and on screen, and no press keeps selection and scroll |
| StatsViewer.SelectStepSplit | psp-stats-app/src/main.rs:371-376 | Up and Down together are Up followed by Down |
| StatsViewer.SelectUpDownCancel | psp-stats-app/src/main.rs:371-376 | Up and Down together from an on-screen row with games above and below leave the selection where it was |
| StatsViewer.ToggleMessage | psp-stats-app/src/main.rs:361-367 | the message reads "Hidden: " or "Shown: " followed by the title, by the game's flag |
| StatsViewer.Flip | psp-stats-app/src/main.rs:174-177 | the selected game's hidden flag is flipped and every other game is kept |
| StatsViewer.FlipTwice | psp-stats-app/src/main.rs:169-184 | toggling the same game twice restores the list |
| StatsViewer.FlipShownCount | psp-stats-app/src/main.rs:149-155 | hiding a game takes one row off the normal list and showing it adds one |
| StatsViewer.AppState.constructor | psp-stats-app/src/main.rs:91-100 | a new screen starts at the top, outside selector mode, with no message |
| StatsViewer.AppState.VisibleCount | psp-stats-app/src/main.rs:149-155 | all games are listed in selector mode, only the shown ones otherwise |
| StatsViewer.AppState.SelectedGame | psp-stats-app/src/main.rs:158-166 | a game is selected exactly when the index is within the listed games; it is one of the games, never a hidden one outside selector mode, and the game at the index in selector mode |
| StatsViewer.AppState.ScrollUp | psp-stats-app/src/main.rs:102-106 | the list moves back one row unless at the top, and the scroll stays in range |
| StatsViewer.AppState.ScrollDown | psp-stats-app/src/main.rs:108-114 | the list moves on one row only while a full screen of listed games remains below |
| StatsViewer.AppState.SelectUp | psp-stats-app/src/main.rs:117-125 | the selection moves up one game unless at the first, scrolling back to keep it on screen |
| StatsViewer.AppState.SelectDown | psp-stats-app/src/main.rs:128-137 | the selection moves down one game unless at the last listed, scrolling on to keep it on screen |
| StatsViewer.AppState.ToggleSelectorMode | psp-stats-app/src/main.rs:140-146 | the mode flips, and entering it selects the top row on screen |
| StatsViewer.AppState.ToggleSelectedHidden | psp-stats-app/src/main.rs:169-184 | in selector mode with a game selected, its flag flips and the result is whether the file update succeeded; otherwise nothing changes and the result is false |
| StatsViewer.AppState.HandleInput | psp-stats-app/src/main.rs:344-391 | Square flips the mode; outside selector mode only the scroll moves, by the Up-then-Down scroll step over the shown games; in selector mode the selection and scroll are the Up-then-Down selection step from the selection (the top row when Square just entered the mode), Cross flips the selected game and, when written back, reports it; validity and an on-screen selection are kept |
| StatsViewer.AppState.SelectorInput | psp-stats-app/src/main.rs:356-377 | the selection and scroll are the Up-then-Down selection step over all games; Cross flips the selected game, if any, and, when written back, reports it; nothing else changes the games or the message |
| StatsViewer.AppState.CrossInput | psp-stats-app/src/main.rs:358-368 | Cross flips the selected game, if any, and sets the message to its new state only when that was written back |
| StatsViewer.AppState.Report | psp-stats-app/src/main.rs:361-367 | the message names the selected game as hidden or shown, and is kept when nothing is selected |

## Left out

- Sockets, Wi-Fi and access-point setup, the USB driver and its descriptors, and kernel event flags are not modelled. The model takes what they return as inputs: the datagram or packet received, the sender, and each send's result. It records what is sent as a log.
- Clocks and sleeps are not modelled. Every time is an explicit parameter, and the vblank and inter-chunk delays are left out.
- The file system is not modelled. A file read is an `Option` of its bytes and a write is a sink; `sfo_parse_file`, `read_file`, `write_file`, `config_save`, `usage_save`, `load_usage_json` and the companion's save and load are I/O.
- Game detection from module lists, directory walks and file reads in `game_detect.c` is not modelled. Each detector is given by the status and record it returned.
- The net plugin's offline-mode loop (psp-plugin/net/src/main.c:219-278) and its start-up vblank wait (psp-plugin/net/src/main.c:280-330) are left out. Both are timing and I/O around the loop that is modelled.
- The HTTP index fetch and the Jaro-Winkler match of the thumbnail matcher are left out: they are network and floating point.
- Async plumbing, Discord IPC, the TUI, the on-PSP UI, ASCII art and the TOML configuration of the companion are not modelled.
- Thumbnail.Lower: lower-casing covers ASCII only, not Unicode case mapping.
- Thumbnail.DecodeEncode: the round trip is proved for ASCII text only. The decoder turns each `%XX` into one character, so a multi-byte UTF-8 character does not come back; `Thumbnail.NonAsciiSplit` shows this.
- UsbConfig.ParseInt: the value is an unbounded integer. The C `int` overflows on digit runs above 2147483647, which C leaves undefined. For the unsigned 32-bit fields this makes no difference on a compiler that wraps: `UsbConfig.Field32Wraps` proves the cast value equals the wrapped one.
- UsbConfig.Accumulate: the accumulator is unbounded; the 32-bit register's wrap-around is `UsbConfig.WrappedValue`, and `UsbConfig.WrappedIsLowBits` relates the two.
- UsbConfig.Field32: the field is computed from the unbounded reading cast modulo 2^32; `UsbConfig.Field32Wraps` proves this equals the result of the source's wrapping arithmetic.
- UsbConfig.GetGameVblankWait: the per-game override is the unbounded reading. For an override above 2147483647 the source's `int` wraps (strictly, the overflow is undefined), and the model does not follow that wrap.
- StatsApp.TrimStart: white space is the six ASCII blanks of `StatsApp.IsWhite`. Rust's `trim_start` also strips Unicode white space such as U+00A0 and U+3000, which the model does not.
- StatsApp.TrimEnd: white space is the six ASCII blanks of `StatsApp.IsWhite`. Rust's `trim_end` also strips Unicode white space, which the model does not.
- StatsConfig.Trim: white space is the six ASCII blanks of `StatsApp.IsWhite`. Rust's `trim` (psp-stats-app/src/config.rs:67, 76-77, 120) also strips Unicode white space, which the model does not.
- StatsApp.Scan: runs the corrected, terminating search. When a title has no closing brace after it, the search stops; the source keeps finding the same title forever (psp-stats-app/src/stats.rs:176-204). The as-written half is `StatsApp.ScanStallsAsWritten` (see Findings).
- StatsApp.NextObject: one pass of the corrected search. With no object end past the title it ends the scan, where the source resumes at the title (`StatsApp.ScanStallsAsWritten`).
- UsbProtocol.UsbLink.Poll: the acknowledgement of a response chunk is taken to reach the driver. The source ignores the result of that send (psp-plugin/usb/src/usb_protocol.c:166), and a failed send is not modelled.
- CompanionUsage.StatsForDate: titles with equal seconds come out in the order the model's sort leaves them. The source sorts the entries of a `HashMap` and does not fix that order; only the descending order, distinctness and completeness are stated.
- UsbMain.Startup, UsbMain.PollPhase: the `SendGameInfo` action leaves out the name and the persistent flag of `usb_send_game_info`. Every call in psp-plugin/usb/src/main.c passes 0 and `g_config.psp_name`, which is fixed for the run.
- Loader.ParseInt: C `int` overflow on very long digit runs is not modelled; the value is an unbounded integer.
- Loader.TokenEquals: the NULL-argument case is not modelled; strings are values.
- StatsViewer.AppState.ToggleSelectedHidden: the write of the hidden flag to the usage file (`update_game_hidden`) is the `persisted` parameter.
- Network.NetLink.HandleDiscovery: the request is read into an uninitialised 256-byte local buffer (`uint8_t buffer[256]`, psp-plugin/net/src/network.c:674), so for a datagram too short to hold the port the port comes from indeterminate bytes. The model takes those bytes as the input `leftover` and reads the port as written.
- StatsApp.ParseUsageJson: it uses the corrected, terminating search of `StatsApp.Scan`; the source does not terminate when a title has no closing brace after it (`StatsApp.ScanStallsAsWritten`). Also, object bounds are byte offsets. The source adds a count of characters (`chars().enumerate()`) to byte offsets (psp-stats-app/src/stats.rs:158-185); the two agree when no multi-byte character lies inside the scanned span. The as-written bounds are `StatsApp.ObjectStartAsWritten` and `StatsApp.ObjectEndAsWritten`, and the difference is shown under Findings. The panic when an as-written offset falls inside a character is not modelled.
- StatsApp.ScanBack: positions are bytes, not the character index the source's reversed `chars()` loop counts (psp-stats-app/src/stats.rs:158); see `StatsApp.StartAsWrittenExact`.
- StatsApp.ScanForward: positions are bytes, not the character index the source's `chars()` loop counts (psp-stats-app/src/stats.rs:179); see `StatsApp.EndAsWrittenExact`.
- StatsApp.ObjectStart: gives the byte offset of the brace; the source's `abs_pos - i - 1` equals it only when no multi-byte character lies between brace and title (`StatsApp.StartAsWrittenExact`).
- StatsApp.ObjectEnd: gives the byte offset past the brace; the source's `obj_start + 1 + i + 1` equals it only when the object holds no multi-byte character (`StatsApp.EndAsWrittenExact`).
- StatsApp.FindObjectStart: the loop walks bytes, not characters, so it computes `StatsApp.ObjectStart`, not the as-written start.
- StatsApp.FindObjectEnd: the loop walks bytes, not characters, so it computes `StatsApp.ObjectEnd`, not the as-written end.
- Network.GameInfoDelivered: the lemma is about bytes: the companion gets back the bytes the plugin put in each field. The companion then turns them into text with `String::from_utf8_lossy` (desktop-companion/src/protocol.rs:325, `read_string`), which is not modelled. When `copy_str` cuts a multi-byte character, that text ends in a replacement character, so the title shown is not the title sent.
- UsbTransport.GameInfoDelivered: as for `Network.GameInfoDelivered`. The USB reader decodes with `String::from_utf8_lossy` in `extract_string` (desktop-companion/src/usb_transport.rs:474), and a cut multi-byte character comes back as a replacement character. The stats upload is decoded the same way (desktop-companion/src/usb_transport.rs:405, desktop-companion/src/server.rs:550); that decoding is not modelled either.
- CompanionUsage.UsageTracker.FlushAll: the order of a `HashMap` is not specified, so the order in which sessions are finished is returned as a ghost `order`. The result is stated for that order.
- Sfo.ParseBuffer: the reader does no bounds checks on entries and values, so the model requires every entry the header announces to be readable.

## Findings

| source | as written | input that shows it | evidently intended | confidence | as-written member | corrected member |
|---|---|---|---|---|---|---|
| psp-plugin/net/src/main.c:561-568 | the icon is recorded as sent only when `network_send_icon` returns 0 | any icon whose sends all succeed: the upload returns the size of its end packet (23), never 0 | a non-negative result is success, so the icon is not sent again for the same game | not executed | NetMain.IconTestNeverPasses | NetMain.NoRepeatUpload |
| psp-plugin/usb/src/main.c:388-402 | an initial sync runs only while `last_sync == 0`, and a later sync only once `done` is set | an initial sync at second 10 whose response is truncated (-2): `done` stays false and `last_sync` is 10, so no sync runs again while the host stays connected | after a failed sync, retry once the sync interval has passed | not executed | UsbMain.SyncStallExample | UsbMain.SyncRetriesAfterFailure |
| psp-stats-app/src/stats.rs:176-204 | with no closing brace after a title, `obj_end` stays at the title and the search resumes there | a usage file cut short, such as `"title":"A"` with no braces: the loop finds the same title forever | stop scanning when no object end lies past the title | not executed | StatsApp.ScanStallsAsWritten | StatsApp.NextObject |
| psp-plugin/usb/src/game_detect.c:425 | the icon path is built with `"/ICON0.PNG"` as the name part, after the separator `build_path` adds | the game folder `ms0:/PSP/GAME/X` gives `ms0:/PSP/GAME/X//ICON0.PNG` | one slash between folder and file, as `game_detect_get_icon` builds it at line 692 | not executed | GameDetect.IconPathDoublesSlash | GameDetect.IconPathSingleSlash |
| desktop-companion/src/thumbnail_matcher.rs:255 | the name is cut at the last `" ("` | `Monster Hunter Freedom Unite (Europe) (En,Fr,De,Es,It)` gives `Monster Hunter Freedom Unite (Europe)`, not what the test at lines 326-329 expects | cut at the first `" ("`, where the region tags begin | not executed | Thumbnail.ExtractTestAsWritten | Thumbnail.ExtractTestTwoTags |
| psp-stats-app/src/stats.rs:158-185 | the brace scans count characters with `chars().enumerate()` and add that count to byte offsets | `{"title":"ファ","seconds":5}` (30 bytes): the object is taken as its first 26 bytes, which lose the seconds key | count bytes (`char_indices`), so the object is the whole braced text | not executed | StatsApp.ObjectCutShortAsWritten | StatsApp.ObjectEnd |
