# Verified model of the networking core

A Dafny model, with proofs, of the parts of the runtime host that carry multiplayer discovery and its neighbours:
the mDNS packet codec, DNS-SD discovery and publication, the timer queue, asynchronous DNS lookups, socket slots, and
the checksum of the asset extractor. Loops, tables and mutable objects of the C code are loops, sequences, arrays and
classes here; each such method is proved against a specification function or a declarative property, and the results
below are proved about those.

## What is proved

- **Wire codec** (`Wire*.dfy`). The name decoder yields a text and an end offset exactly when a finite expansion of
  the name with that text and end exists within 32 jumps, 255 wire bytes and the output buffer
  (`WireDecode.DecodeIff`); the visited list never refuses a finite expansion, every cyclic chain is refused, and
  decoding terminates on all input. The bounded packet parser keeps the first 8 questions and 32 records of an
  unlimited one and accepts the same packets: exactly those that are laid out as `WireLayout` says of their bytes
  (`PacketExact`), also with records of types it does not know. Any other packet is refused with the status of the
  first place that cannot be read (`WireRefusal.PacketRefusedExact`). A service response, whose compression offsets
  are computed by arithmetic, reads back as exactly the PTR, SRV, TXT and A records it was built from, and it reads
  back at all if and only if three sizes a caller can compute are within their limits.
- **Discovery** (`ZeroconfText`, `ZeroconfCache`, `ZeroconfApply`, `ZeroconfGuest`, `ZeroconfTokens`, `ZeroconfSteps`,
  `ZeroconfScene`, `ZeroconfRuns`, `ZeroconfDiscovery`). One invariant holds over every run of packets, pumps, starts
  and stops, with callbacks that may start and stop searches while a dispatch is running: cached addresses agree with
  the entries they are for; every service token has exactly one owner and is freed once; each token lives through
  found, updates, lost at most once; nothing is said about a stopped search. After every call, for every running
  search, the tokens reported found and not lost are exactly those of its complete entries (`ZeroconfRuns.AtRest`),
  and what is still known of a search that was not stopped is held by a notified entry, neither retired nor freed
  (`KnownIsHeld`). The calls every callback makes are recorded, and searches and notifications after a packet or an
  expiry are a function of the state before and of these calls (`PacketFrom`, `ExpiryFrom`); when none is made,
  `QuietDispatch` gives that function in closed form, entry by entry.
- **Times and reports** (`ZeroconfTimes`, `ZeroconfRelevance`, `ZeroconfQueries`, `ZeroconfReports`,
  `ZeroconfSingle`). What a packet announces last for a number of seconds outlives every expiry before their end and
  none after it, record by record and for the cached addresses. What counts as a response, an instance, a matching
  name or usable TXT data is said on the bytes. Whatever is lost is asked for at once, and the publisher of it
  answers. A single record is told to the guest as one update, one loss, or lost and found again, through the
  callbacks it gave.
- **Reviving packets** (`ZeroconfEntry`, `ZeroconfRevival`, `ZeroconfCounterexample`). Whether the guest also has the
  port, host, address and TXT strings the caches hold (`InStep`) depends on the packets. `Deceives` is computed from
  an entry, the cached addresses and the records alone: from the sequence of data that the packet announces and
  withdraws for each record of the entry. For any packet, agreement survives if and only if no entry of a surviving
  search is deceived (`RevivalExact` for one entry, `ResponseDone` for the whole state); a packet that announces
  nothing it withdrew deceives nobody. `ExampleFails` gives an announcement and a second packet, byte by byte, after
  which the caches have another port than the guest and no notification is due.
- **Stale addresses** (`ZeroconfBacked`, `ZeroconfStale`). That an entry's address is a cached one is kept by every
  step but one: an SRV record that returns to an entry which still holds an address. `ServiceBackedExact` says when
  that step keeps it, if and only if. Two routes lead to the failure, a withdrawal and an expiry while the SRV record
  is away; `ExampleStale` gives three packets, byte by byte, that take the first.
- **Publication** (`ZeroconfPublishers`, `ZeroconfPublication`, `ZeroconfAccepted`, `ZeroconfAnnouncement`,
  `ZeroconfLiveness`). Updates are pending exactly while they differ from what was announced; over any run of calls
  the recorded announcements are exactly those that went out, and any two of one publication are at least a second
  apart. End to end, an announcement gives any search for the service, with room for it, the published data, and a
  goodbye removes it. Every packet that goes out reads as the four records of its publisher, which are what it answers
  questions with. While sending works, announcements are repeated within a minute and one pump interval, so that a
  service that goes on being announced is never forgotten (`ZeroconfLiveness.NeverForgotten`). `ZeroconfAccepted` says
  which publications, updates and searches are accepted.
- **Timers** (`TimerSpec`, `TimerQueue`, `TimerTimes`). A linked list in the heap, spliced in place. A dispatch pass
  fires exactly the timers that were due at its start, in order, except those that an earlier callback of the pass set
  or cancelled. The calls of every callback are recorded, and the queue afterwards is what they make of it: other
  timers stay. A timer fires in the first pass that starts its period later or more (`TimerTimes.FiresOnTime`).
- **DNS lookups** (`DnsLookup`, `DnsProgress`). The guest's thread and any number of workers, interleaved at every
  step: in every interleaving ownership is exclusive, and from every state a running lookup is brought to its end,
  with one call if it was not cancelled and one release (`LookupConcludes`).
- **Socket slots** (`SocketSlots`, `SocketPasses`). No event reaches a later socket in a slot that was used again.
  Whatever calls the callbacks make, the invocations of an event and the slots afterwards are determined by the event,
  the slots and these calls, and the callbacks come in the order connect, accept, readable, writable. Who is called in
  a pass is also said in terms of the fields of the slots and what poll reports (`QuietPass`).
- **CRC-32** (`Crc32`, `Crc32Detection`). The table update equals the bit-by-bit definition in section 8 of RFC 1952,
  over any chunking. It has the standard check value, and misses no change within four neighbouring bytes.

## Conventions and hypotheses

- A C string is a `seq<byte>`; where it matters that it holds no NUL byte, the lemma says so (`NulFree`, `Terminated`).
  A null pointer argument, where the code accepts one, is an empty sequence or `None`; the checks that only reject null
  pointers are not modelled.
- `byte`, `u16`, `u32` and `u64` are subset types of the integers; the shifts and masks of the codec are written as
  arithmetic. The saturating expiry time is modelled; other sums of a 64-bit clock and a constant are unbounded.
- Memory is always available, generations and sequence numbers do not wrap, and the clock does not go back.
- What the guest does inside a callback is arbitrary: any sequence of the public calls of that component, which ghost
  fields record by callback (`made` in discovery and sockets, `invoked` in the timer queue). A callback does not hand in
  packets or poll sockets itself; the pump refuses to run while a callback is active.
- Notifications are recorded in `log` also when the search has no callback for them (`delivered` is then false); `calls`
  holds those that a callback was invoked for, and equals the delivered part of `log` at all times. What the guest knows
  is read off `log`, so that it is what the guest was told if all three callbacks are present.
- Poll reports input and output only where they were asked for, and errors always.
- System calls are free boolean or value parameters: sending, opening the socket, thread creation and detachment, poll
  results, clock readings.
- The service port is swapped as `ntohs` does it on a little-endian machine.
- Where the model follows the code against its documentation or intent: publishing marks TXT data as announced even when
  the packet was not sent; an address that is withdrawn, or expires in the cache, while its entry has no SRV
  record stays in the entry (`ZeroconfStale`); a rejected service type still leaves the names copied so far in a free slot.

## Model

| member | source | states |
|---|---|---|
| WireNames.LabelsText | src/mdns_wire.c:58-95 | printing the labels of a dotted name gives the name back without its optional trailing dot |
| WireNames.SplitJoin | src/mdns_wire.c:97-127 | labels without dots survive being joined and split again |
| WireDecode.DecodeIff | src/mdns_wire.c:222-304 | decoding yields this text and this end offset if and only if a finite expansion of the name within the jump, length and buffer limits has this text and its in-place part ends there |
| WireDecode.DecodeFromSound | src/mdns_wire.c:222-304 | every accepted name has a finite expansion, whose labels are the decoded text |
| WireDecode.DecodeFromComplete | src/mdns_wire.c:222-304 | from any point on the way, a finite expansion within the limits is decoded if it meets no target visited before |
| WireDecode.DecodeComplete | src/mdns_wire.c:222-304 | completeness from the start of a name |
| WireDecode.NeverRevisited | src/mdns_wire.c:244-264 | a finite expansion never meets a pointer target twice, so the visited check refuses none |
| WireDecode.ExpansionUnique | src/mdns_wire.c:222-304 | a place in a packet has at most one expansion |
| WireDecode.DecodeAdvances | src/mdns_wire.c:222-304 | the returned offset moves forward and stays within the packet |
| WireDecode.CycleRefused | src/mdns_wire.c:244-264 | a name whose pointers lead back to where they were is refused |
| WireDecode.DecodeNameInto | src/mdns_wire.c:222-304 | the decoder loop writes exactly the specified text and terminator, never beyond the capacity, and changes the offset only on success; it terminates on all input |
| WireDecode.ReadPointer | src/mdns_wire.c:244-264 | a pointer is followed unless it leaves the packet, is the 33rd, or was followed before |
| WireDecode.ReadLabel | src/mdns_wire.c:265-302 | a label is refused for its length bits, its end, the expanded length or the buffer, in that order, and otherwise appended |
| WireWriter.WireWriter.Bytes | src/mdns_wire.c:19-47 | all bytes are appended, or the writer has failed for good; nothing past the capacity changes |
| WireWriter.WireWriter.PatchU16 | src/mdns_wire.c:49-56 | at any offset: two bytes are replaced in place and nothing else, or the writer fails because they reach past the capacity |
| WireWriter.DottedNameValid | src/mdns_wire.c:58-95 | the scan accepts exactly the names with labels of 1 to 63 bytes and at most 255 wire bytes, and computes the wire length |
| WireWriter.WriteName | src/mdns_wire.c:97-127 | a valid name appends its encoding; an invalid one fails the writer |
| WireWriter.DottedPrefixWireLength | src/mdns_wire.c:178-202 | the length of a name's labels without the root |
| WireWriter.JoinName | src/mdns_wire.c:151-176 | the joined name is the two parts without outer dots, or nothing if empty, too long or invalid |
| WireWriter.EncodeNameInto | src/mdns_wire.c:204-220 | encoding fails for space exactly when the computed length exceeds the room left, and then leaves the offset unchanged |
| WireRoundTrip.NameRoundTrip | src/mdns_wire.c:204-304 | an encoded name anywhere in a packet decodes to its text without the optional trailing dot |
| WireParse.ParseTxt | src/mdns_wire.c:347-371 | TXT data is accepted exactly if it splits into length-prefixed strings within 1024 bytes, and the strings are counted |
| WireParse.ParseQuestionAt | src/mdns_wire.c:327-345 | a question is a name, a type and a class with its unicast bit |
| WireParse.ParseDataAt | src/mdns_wire.c:400-462 | the data of each record type is checked against its length, and data of other types is passed over (declaratively: `WireLayout.DataExact`) |
| WireParse.ParseRecordAt | src/mdns_wire.c:373-463 | a record with its flush bit, or the status that refuses it |
| WireParse.ParseSectionLoop | src/mdns_wire.c:517-531 | surplus records are validated and skipped |
| WireParse.ParsePacket | src/mdns_wire.c:465-534 | the bounded parser accepts what the unlimited parser accepts, with the same status, and keeps its first 8 questions and 32 records; which packets these are, and why others are refused: `WireLayout.PacketExact`, `WireRefusal.PacketRefusedExact` |
| WireParse.ParseAllConsumes | src/mdns_wire.c:465-534 | on success the offset has passed every declared question and record and is within the packet |
| WireParse.TxtStringsSound | src/mdns_wire.c:347-371 | the strings found, prefixed by their lengths, are the stored bytes |
| WireParse.TxtStringsComplete | src/mdns_wire.c:347-371 | any strings of at most 255 bytes are found again in their concatenation |
| WireParse.TxtAt | src/mdns_wire.c:693-716 | lookup by index succeeds exactly below the stored count if the strings up to there lie within the record, for any record; in a parsed one, exactly below the number of its strings, with that string |
| WireParse.TxtIndexCovers | src/mdns_wire.c:693-716 | the strings of all indices, prefixed by their lengths, reproduce the record's bytes |
| WireLayout.NameExact | src/mdns_wire.c:222-304 | a name is read as this text up to this end exactly if it is laid out so: at most 32 jumps, 255 bytes expanded, up to the first zero byte |
| WireLayout.DataExact | src/mdns_wire.c:400-462 | the data of an A, PTR, TXT or SRV record is read exactly if it has the layout of its type, with any priority and weight, and data of any other type is passed over |
| WireLayout.RecordExact | src/mdns_wire.c:373-463 | a record is parsed as this one, up to this end, exactly if owner, ten bytes of fields and as many data bytes as these say are laid out so |
| WireLayout.UnknownAccepted | src/mdns_wire.c:458-462 | a record of an unknown type is accepted, whatever its data, and ends where its length says |
| WireLayout.QuestionExact | src/mdns_wire.c:327-345 | the same for a question |
| WireLayout.PacketExact | src/mdns_wire.c:465-534 | a packet is parsed as this one, up to this end, exactly if header, questions and the records of three sections follow one another so |
| WireLayout.KeptExact | src/mdns_wire.c:465-534 | of these the first eight questions and the first thirty-two records are kept |
| WireRefusal.NameRefusedExact | src/mdns_wire.c:222-304 | a name is refused with a status exactly if the first obstacle on the way through it has this status |
| WireRefusal.DataRefusedExact | src/mdns_wire.c:400-462 | data is refused with a status exactly for a wrong length, too much TXT data, strings that do not add up, or a name that is refused or ends elsewhere |
| WireRefusal.RecordRefusedExact | src/mdns_wire.c:373-463 | a record is refused with a status exactly for its owner, for being cut off, or for its data |
| WireRefusal.PacketRefusedExact | src/mdns_wire.c:465-534 | a packet is refused with a status exactly if its first part that cannot be read has this status |
| WireBuild.BuildQuery | src/mdns_wire.c:536-562 | a query is exactly one question after the header, or fails for its arguments or for space |
| WireBuild.CheckService | src/mdns_wire.c:579-598 | the services the builder accepts |
| WireBuild.FinishRecord | src/mdns_wire.c:610-618 | the data length is patched into the record that was just written, or the writer fails if the data is longer than 65535 bytes |
| WireBuild.WriteSrvRecord | src/mdns_wire.c:660-669 | the SRV record with pointers to the instance and into the service name |
| WireBuild.WriteResponse | src/mdns_wire.c:639-684 | the whole response, every offset equal to the one computed in advance |
| WireBuild.BuildServiceResponse | src/mdns_wire.c:620-691 | the buffer holds exactly the specified packet, or the status tells which argument or size is wrong |
| WireRoundTrip.DomainSpelled | src/mdns_wire.c:632-668 | the computed domain offset lands on the domain's labels inside the encoded service name |
| WireRoundTrip.ResponseRoundTrip | src/mdns_wire.c:620-691 | a response parses to its four records if and only if its names and TXT data are within reach |
| WireRoundTrip.ServiceRoundTrip | src/mdns_wire.c:620-691 | the same from the service: owners, targets, port, TXT strings, address, TTL and flush bits as intended, if and only if the sizes allow it |
| WireRoundTrip.QueryRoundTrip | src/mdns_wire.c:536-562 | a query reads back as the one question it was built for |
| ZeroconfText.ComponentExact | src/s3e_zeroconf.c:192-211 | a component is the core of the value between its outer dots, if that is not empty and short enough |
| ZeroconfText.CopyComponent | src/s3e_zeroconf.c:192-211 | the two stripping loops compute the component |
| ZeroconfCache.AllocationKeeps | src/s3e_zeroconf.c:422-448 | a new entry keeps instances distinct and addresses in agreement |
| ZeroconfCache.PtrKeeps | src/s3e_zeroconf.c:596-623 | a PTR record keeps the cache invariant |
| ZeroconfCache.SrvAgrees | src/s3e_zeroconf.c:658-677 | after an SRV record the entry agrees with every cached address, also when its host changed |
| ZeroconfCache.ServiceKeeps | src/s3e_zeroconf.c:625-709 | an SRV or TXT record keeps the cache invariant |
| ZeroconfCache.AddressKeeps | src/s3e_zeroconf.c:711-755 | an A record, announced or withdrawn, keeps the cache invariant |
| ZeroconfCache.ExpiryKeeps | src/s3e_zeroconf.c:915-963 | expiry takes an address from the cache and from its entries at the same moment |
| ZeroconfCache.FollowUpKeeps | src/s3e_zeroconf.c:757-776 | follow-up queries keep the cache invariant |
| ZeroconfCache.ExpiryComplete | src/s3e_zeroconf.c:927-960 | a record survives expiry exactly if its time is later, and an entry left without PTR, SRV and TXT is marked |
| ZeroconfCache.ExpiryBounds | src/s3e_zeroconf.c:122-128 | the saturating expiry time is never zero and is later than the present unless the clock is at its end; how much later: `ZeroconfTimes.ExpiryExact` |
| ZeroconfCache.WithdrawalReaches | src/s3e_zeroconf.c:718-733 | an A withdrawal takes the address of exactly the entries that hold an SRV for the host |
| ZeroconfTimes.ExpiryExact | src/s3e_zeroconf.c:122-128 | what is announced for a number of seconds is due exactly from 1000 milliseconds for each of them on, as long as the clock can tell |
| ZeroconfTimes.PtrLifetime | src/s3e_zeroconf.c:596-964 | the PTR record of a known instance, if the last one of a packet about it announces it, outlives every expiry before the end of its seconds and none after it |
| ZeroconfTimes.SrvLifetime | src/s3e_zeroconf.c:625-964 | the same for its SRV record |
| ZeroconfTimes.TxtLifetime | src/s3e_zeroconf.c:625-964 | the same for its TXT record |
| ZeroconfTimes.ALifetime | src/s3e_zeroconf.c:711-964 | the same for the address of its host |
| ZeroconfTimes.CachedLifetime | src/s3e_zeroconf.c:711-926 | the same for a cached address |
| ZeroconfTimes.CachedData | src/s3e_zeroconf.c:711-738 | the cached address is the announced one, and a withdrawal takes it away |
| ZeroconfTimes.MarkedExactly | src/s3e_zeroconf.c:927-960 | an expiry marks an entry exactly if it loses its PTR record or is left without PTR, SRV and TXT |
| ZeroconfTimes.AnnouncementLasts | src/s3e_zeroconf.c:346-964 | an announced service is complete at every expiry before the end of its seconds, and lacks all four records, and is marked, at every later one |
| ZeroconfBacked.SrvBackedExact | src/s3e_zeroconf.c:658-677 | an entry whose address is the cached one of its host keeps that through an SRV announcement if and only if it held an SRV, brings no address, changes host, or the cache has an unexpired address for the host or the very same one |
| ZeroconfBacked.ServiceBackedExact | src/s3e_zeroconf.c:625-709 | an SRV or TXT record keeps it for all entries of a search if and only if it is no SRV announcement that fails this |
| ZeroconfBacked.PtrBacked | src/s3e_zeroconf.c:596-623 | PTR records keep it |
| ZeroconfBacked.AddressBacked | src/s3e_zeroconf.c:711-755 | A records, announced or withdrawn, keep it |
| ZeroconfBacked.ExpiryBacked | src/s3e_zeroconf.c:915-963 | expiry keeps it |
| ZeroconfBacked.DispatchBacked | src/s3e_zeroconf.c:778-842 | a dispatch keeps it |
| ZeroconfBacked.PacketBacked | src/s3e_zeroconf.c:596-776 | a whole packet keeps it if each of its SRV announcements does |
| ZeroconfStale.StaleAddressReturns | src/s3e_zeroconf.c:711-733 | an address withdrawn while the SRV is away comes back with it, although none is cached |
| ZeroconfStale.ExpiredAddressReturns | src/s3e_zeroconf.c:915-926 | so does one whose cached copy expires while the SRV is away |
| ZeroconfStale.StaleAfterAnnouncement | src/s3e_zeroconf.c:625-842 | for every service, three received packets lead there: its announcement, SRV and A withdrawn together, the SRV announced again |
| ZeroconfStale.ExampleStale | src/s3e_zeroconf.c:625-842 | one instance in literal bytes |
| ZeroconfApply.FindDiscovered | src/s3e_zeroconf.c:411-420 | the first entry in use with this name |
| ZeroconfApply.AllocateDiscovered | src/s3e_zeroconf.c:422-448 | an existing entry, a new one in the first free slot, or none |
| ZeroconfApply.AllocateHost | src/s3e_zeroconf.c:468-489 | an existing address, a new one in the first free slot, or none |
| ZeroconfApply.ApplyCachedAddress | src/s3e_zeroconf.c:491-507 | an unexpired cached address is taken over and a difference flagged |
| ZeroconfApply.ApplyPtrRecords | src/s3e_zeroconf.c:596-623 | the loop applies every PTR record of the packet in order |
| ZeroconfApply.ApplySrv | src/s3e_zeroconf.c:658-677 | one SRV record, with the address its new host has in the cache |
| ZeroconfApply.ReadTxt | src/s3e_zeroconf.c:679-698 | TXT strings are taken over only if there are at most 16 and none holds a zero byte |
| ZeroconfApply.ApplyServiceRecords | src/s3e_zeroconf.c:625-709 | the loop applies every SRV and TXT record in order |
| ZeroconfApply.ApplyAddressRecords | src/s3e_zeroconf.c:711-755 | the loop applies every A record in order, to the cache and to all entries of the host |
| ZeroconfApply.SendFollowUps | src/s3e_zeroconf.c:757-776 | exactly the queries that are due go out, by instance for SRV and TXT and by host for A |
| ZeroconfApply.FollowUpsSpaced | src/s3e_zeroconf.c:757-776 | a record that was asked for is not asked for again within a second, whatever happens to the entry, unless a query time is reset |
| ZeroconfApply.LossResets | src/s3e_zeroconf.c:625-755 | a withdrawal or an expiry resets the query time of the records it takes away and no other |
| ZeroconfApply.AnnouncementsReset | src/s3e_zeroconf.c:658-755 | an announcement resets no query time, except that of the address when the host changes |
| ZeroconfApply.ExpireRecords | src/s3e_zeroconf.c:921-960 | the expiry loops over addresses and entries |
| ZeroconfApply.ExpireEntry | src/s3e_zeroconf.c:927-960 | each record of an entry expires on its own clock |
| ZeroconfApply.ParsedPacket | src/mdns_wire.c:465-534 | the records handed to discovery have counted TXT strings |
| ZeroconfQueries.FollowUpsExact | src/s3e_zeroconf.c:757-776 | a search asks exactly for what a known instance lacks and is due: SRV and TXT by its name, the address by its host, each at most once |
| ZeroconfQueries.FollowedUpExact | src/s3e_zeroconf.c:757-776 | what was asked for is due again a second later, other times stay |
| ZeroconfQueries.WithdrawnAskedFor | src/s3e_zeroconf.c:645-733 | a withdrawn record of a known instance is asked for at once, whatever was asked before |
| ZeroconfQueries.ExpiredAskedFor | src/s3e_zeroconf.c:934-953 | so is one that expires |
| ZeroconfQueries.MovedAskedFor | src/s3e_zeroconf.c:658-677 | and the address of a host the instance moves to, unless it is cached |
| ZeroconfQueries.FollowUpsAnswered | src/s3e_zeroconf.c:757-873 | the publisher of the instance answers all these questions |
| ZeroconfQueries.RequeriesExact | src/s3e_zeroconf.c:1149-1158 | exactly the searches that are due ask for the instances of their service |
| ZeroconfQueries.RequeriesAnswered | src/s3e_zeroconf.c:844-1158 | publishers of that service answer |
| ZeroconfQueries.RequeriedExact | src/s3e_zeroconf.c:1149-1158 | and the search asks again in two seconds |
| ZeroconfQueries.QueryFits | src/s3e_zeroconf.c:315-324 | every query has at most 271 of the 512 bytes it is built in |
| ZeroconfRelevance.MatchExact | src/s3e_zeroconf.c:225-227 | names match byte by byte, up to the case of A to Z |
| ZeroconfRelevance.InstanceExact | src/s3e_zeroconf.c:239-255 | the instances of a service: a name of up to 255 bytes, a dot, and the name of the service |
| ZeroconfRelevance.PortExact | src/s3e_zeroconf.c:229-237 | a port is the announced one, except 2560 for one service in "local" |
| ZeroconfRelevance.TxtExact | src/s3e_zeroconf.c:679-698 | TXT data is taken over as these strings exactly if it consists of them and they are at most 16, without a zero byte |
| ZeroconfRelevance.ResponsesExact | src/s3e_zeroconf.c:884-890 | heeded are exactly the packets laid out properly with the top bit of their flags, and of these the first 32 records |
| ZeroconfRelevance.PumpTakes | src/s3e_zeroconf.c:1136-1148 | a pump takes the packets before the first empty one, 32 at most |
| ZeroconfRelevance.ForeignIgnored | src/s3e_zeroconf.c:596-776 | records of another class, or of types that say nothing about services, change nothing |
| ZeroconfRelevance.UnknownServiceIgnored | src/s3e_zeroconf.c:625-645 | SRV and TXT records of instances nobody knows make no entry when they withdraw or are of another service |
| ZeroconfRelevance.InstanceMet | src/s3e_zeroconf.c:422-623 | an announced instance that nobody knows fills the first free slot under the next token, with nothing else known of it |
| ZeroconfRelevance.ServiceMet | src/s3e_zeroconf.c:625-709 | an announced SRV or TXT record of an instance nobody knows makes an entry for it too, with this record and no other |
| ZeroconfRelevance.InstanceRefused | src/s3e_zeroconf.c:422-448 | it finds no place exactly if all slots are taken, its name is too long, or it is of another service |
| ZeroconfRelevance.RoomExact | src/s3e_zeroconf.c:468-489 | an address finds a place exactly if its host has one, or there is a free one and the host has a name of at most 255 bytes |
| ZeroconfRelevance.CachedExact | src/s3e_zeroconf.c:458-507 | the address a host has in the cache is that of the first place named so, if it expires later |
| ZeroconfGuest.UnconfusedLifecycle | src/s3e_zeroconf.c:509-576 | a guest that is never contradicted has seen found, then updates, then at most one lost for a token |
| ZeroconfGuest.PtrStepTracks | src/s3e_zeroconf.c:596-623 | PTR records cannot put a known entry out of step unnoticed |
| ZeroconfGuest.ServiceStepTracks | src/s3e_zeroconf.c:625-709 | what an SRV or TXT record changes in a known entry is flagged, unless the packet withdrew that record before |
| ZeroconfGuest.AddressStepTracks | src/s3e_zeroconf.c:711-755 | the same for A records |
| ZeroconfGuest.TrackedSearchHonest | src/s3e_zeroconf.c:778-842 | after the packet every known complete entry without flags is as the guest knows it |
| ZeroconfGuest.SrvFlagExact | src/s3e_zeroconf.c:658-675 | a changed endpoint is flagged exactly if an SRV was held |
| ZeroconfGuest.TxtFlagExact | src/s3e_zeroconf.c:699-707 | a changed TXT is flagged exactly if one was held |
| ZeroconfGuest.AddressFlagExact | src/s3e_zeroconf.c:740-752 | a changed address is flagged exactly if one was held |
| ZeroconfRevival.RevivalExact | src/s3e_zeroconf.c:596-842 | for a settled entry and any packet, the guest's view stays true if and only if the packet does not deceive it, which is decided by the entry before, the address table and the records |
| ZeroconfRevival.PacketHonestExact | src/s3e_zeroconf.c:596-842 | the same for all entries of a search at once |
| ZeroconfRevival.DeceivedStays | src/s3e_zeroconf.c:778-842 | what a packet deceives the guest about is not put right by its dispatch |
| ZeroconfRevival.NoRevivalUndeceived | src/s3e_zeroconf.c:596-842 | a packet that announces no record it withdrew before deceives nobody |
| ZeroconfRevival.PacketParts | src/s3e_zeroconf.c:596-755 | any packet leaves each record of a known entry as the last of its records about it says, flags it exactly if data was replaced while held, and gives it the announced or cached address of its host |
| ZeroconfCounterexample.RevivalReads | src/s3e_zeroconf.c:875-890 | the bytes of a packet that withdraws an SRV record and announces it on another port parse to exactly those two records |
| ZeroconfCounterexample.RevivalGoesUnnoticed | src/s3e_zeroconf.c:646-675 | that packet leaves any entry the guest knows complete, unflagged and with the new port, while the guest has the old one |
| ZeroconfCounterexample.RevivalAfterAnnouncement | src/s3e_zeroconf.c:625-842 | so for every service: an announcement, its dispatch and then that packet end with guest and caches apart |
| ZeroconfCounterexample.ExampleFails | src/s3e_zeroconf.c:625-842 | one instance in literal bytes: after the two packets the guest has port 1, the caches port 2, and nothing is left to be told |
| ZeroconfTokens.TokenAllocated | src/s3e_zeroconf.c:130-146 | a new token is owned by its entry alone |
| ZeroconfTokens.TokenTaken | src/s3e_zeroconf.c:578-594 | a token taken from an entry is owned by the function in progress alone |
| ZeroconfTokens.TokenFreed | src/s3e_zeroconf.c:167-179 | a token that is freed was never freed before |
| ZeroconfTokens.TokenRetired | src/s3e_zeroconf.c:167-179 | a token that is retired was not in the list before |
| ZeroconfTokens.RetiredFreed | src/s3e_zeroconf.c:156-165 | flushing frees each retired token once |
| ZeroconfTokens.AllFreedOnce | src/s3e_zeroconf.c:1189-1207 | with no entry, rotation or retired token left, all tokens ever made have been freed exactly once |
| ZeroconfTokens.LogStop | src/s3e_zeroconf.c:984-991 | after a stop nothing more is said about that search |
| ZeroconfTokens.LogAppend | src/s3e_zeroconf.c:509-576 | notifications are about running searches only, and found only about complete entries |
| ZeroconfRuns.KnownIsHeld | src/s3e_zeroconf.c:509-594 | a token known from a search that was not stopped is held by a notified entry of that running search; it is neither in flight nor retired nor freed |
| ZeroconfRuns.ExactTokens | src/s3e_zeroconf.c:778-842 | in a sound state with every entry dispatched, the tokens found by a running search and not lost are exactly those of its complete entries |
| ZeroconfRuns.RunLasts | src/s3e_zeroconf.c:875-1207 | after every call of a run: the records of notifications, callbacks and frees have only grown, the known tokens are exactly those of complete entries, and without revivals their data is the caches' |
| ZeroconfScene.QuietDispatch | src/s3e_zeroconf.c:778-842 | when no callback makes a call: every entry is dispatched, each rotation takes the next token, and exactly the notifications the entries call for are added, in order |
| ZeroconfScene.SettledTellsNothing | src/s3e_zeroconf.c:778-842 | an entry that is settled has nothing told of it and keeps its token |
| ZeroconfScene.LostDone | src/s3e_zeroconf.c:578-594 | losing an entry: rotating first and storing the outcome after the callback comes to the same as storing it first, whatever the callback calls |
| ZeroconfScene.MovedTold | src/s3e_zeroconf.c:819-831 | the same for lost and found, with two callbacks |
| ZeroconfScene.TellSwapped | src/s3e_zeroconf.c:181-190 | what callbacks call cannot depend on the entries of a search that survives them |
| ZeroconfReports.RunByTerms | src/s3e_zeroconf.c:509-1040 | over any run, every event about a running search was delivered exactly if the guest gave a callback for its kind when it started that search |
| ZeroconfReports.NothingHeardYet | src/s3e_zeroconf.c:993-1033 | before the first search nothing has been said |
| ZeroconfSingle.TxtTold | src/s3e_zeroconf.c:679-842 | one TXT record about an up-to-date instance is told as one update of the same token, or not at all if the guest has the strings |
| ZeroconfSingle.BadTxtTold | src/s3e_zeroconf.c:679-698 | strings that cannot be taken over are not told |
| ZeroconfSingle.LossTold | src/s3e_zeroconf.c:596-842 | one withdrawal, of any of the four records, is told as one loss under the token the guest has |
| ZeroconfSingle.AddressTold | src/s3e_zeroconf.c:711-842 | one changed address is told as lost and found again under the next token with the new data, an unchanged one not at all |
| ZeroconfSingle.SrvTold | src/s3e_zeroconf.c:658-842 | so is one changed port or host, if the address of the host is known; otherwise the instance is lost |
| ZeroconfSingle.CompletionTold | src/s3e_zeroconf.c:679-842 | an instance of which only the TXT strings were missing is told found with them |
| ZeroconfSingle.ChangesCounted | src/s3e_zeroconf.c:596-960 | whatever a record or an expiry changes in an entry is counted, so that a dispatch can tell that it happened |
| ZeroconfSteps.PacketHonest | src/s3e_zeroconf.c:889-902 | a packet without revivals turns a settled search into one whose dispatch settles it again |
| ZeroconfSteps.ExpiryHonest | src/s3e_zeroconf.c:915-963 | so does expiry, always |
| ZeroconfSteps.DispatchSettles | src/s3e_zeroconf.c:778-842 | a dispatched entry is known exactly if it is complete, with its present port, host, address and TXT |
| ZeroconfSteps.PacketAccounted | src/s3e_zeroconf.c:596-755 | a whole packet on one search keeps every invariant, and new tokens are accounted for |
| ZeroconfSteps.RotationSound | src/s3e_zeroconf.c:578-594 | a rotation keeps every invariant, and the old token is gone for the guest |
| ZeroconfSteps.FoundAccounted | src/s3e_zeroconf.c:509-544 | after found the guest knows exactly what the entry holds |
| ZeroconfSteps.UpdateAccounted | src/s3e_zeroconf.c:546-564 | after an update the guest knows the entry's TXT |
| ZeroconfSteps.DispatchTurn | src/s3e_zeroconf.c:778-842 | dispatching one entry leaves the ones before it settled and the ones after it untouched |
| ZeroconfSteps.OthersSettled | src/s3e_zeroconf.c:778-842 | a dispatch says nothing about the entries of other searches |
| ZeroconfSteps.ExpiryLeavesFresh | src/s3e_zeroconf.c:915-963 | after expiry and dispatch every flag still set expires later, and every entry holds PTR, SRV or TXT |
| ZeroconfSteps.SoundLifecycle | src/s3e_zeroconf.c:509-594 | in every sound state the notifications of each token form a proper life |
| ZeroconfDiscovery.Discovery.constructor | src/s3e_zeroconf.c:98-110 | the initial state satisfies the whole invariant |
| ZeroconfDiscovery.Discovery.RetireToken | src/s3e_zeroconf.c:167-179 | freed at once outside callbacks, put on the retired list inside |
| ZeroconfDiscovery.Discovery.RetireFrom | src/s3e_zeroconf.c:167-179 | the entry loses its token, which is freed or retired; an entry without one is left alone |
| ZeroconfDiscovery.Discovery.FlushRetired | src/s3e_zeroconf.c:156-165 | nothing during a callback, otherwise the whole list in order |
| ZeroconfDiscovery.Discovery.ClearSearch | src/s3e_zeroconf.c:984-991 | the slot is empty, its tokens retired or freed, and the stop recorded |
| ZeroconfDiscovery.Discovery.StartSearch | src/s3e_zeroconf.c:993-1032 | succeeds exactly if a slot is free, the names are usable and the socket opens; the first free slot gets an empty search with a new generation |
| ZeroconfDiscovery.Discovery.StopSearch | src/s3e_zeroconf.c:1034-1040 | a running search is cleared, any other handle ignored |
| ZeroconfDiscovery.Discovery.GuestCalls | src/s3e_zeroconf.c:181-190 | whatever a callback does, searches, counters and notifications are what its calls make of them, one by one; no token is freed meanwhile |
| ZeroconfDiscovery.Discovery.RunCallback | src/s3e_zeroconf.c:181-190 | the same with the flush at the end of the outermost callback; what the callback is told and what it calls are recorded |
| ZeroconfDiscovery.Discovery.ClearDiscovered | src/s3e_zeroconf.c:406-409 | the entry is wiped and its token retired |
| ZeroconfDiscovery.Discovery.DispatchFound | src/s3e_zeroconf.c:509-544 | marks the entry and adds exactly one found notification with its token and data, delivered if there is a callback |
| ZeroconfDiscovery.Discovery.DispatchUpdate | src/s3e_zeroconf.c:546-564 | adds exactly one update notification with the entry's token and TXT |
| ZeroconfDiscovery.Discovery.Notify | src/s3e_zeroconf.c:509-576 | one notification is recorded; the callback is invoked with it exactly if the search has one, and the searches are then what its calls make of them; otherwise nothing else changes |
| ZeroconfDiscovery.Discovery.RotateAfterLost | src/s3e_zeroconf.c:578-594 | the entry has a new token, exactly one lost notification names the old one, which is retired afterwards; tells whether the search survived the callback |
| ZeroconfDiscovery.Discovery.DispatchEntry | src/s3e_zeroconf.c:780-841 | one turn of the dispatch loop: the entry and its token afterwards, the notifications about it in order, and what the recorded calls of their callbacks make of all searches |
| ZeroconfDiscovery.Discovery.DispatchSearchChanges | src/s3e_zeroconf.c:778-842 | the loop over the entries, as long as the search survives, with exactly the searches and notifications the recorded calls determine; tokens change by rotation only; an honest search is settled; other searches stay in step |
| ZeroconfDiscovery.Discovery.ProcessSearch | src/s3e_zeroconf.c:891-901 | one search's caches hold what the packet makes of them and are dispatched with the recorded calls; a settled search that survives is settled again if and only if it is not deceived |
| ZeroconfDiscovery.Discovery.ProcessPacket | src/s3e_zeroconf.c:875-913 | only accepted responses have an effect; searches and notifications are then exactly what the records and the recorded calls make of them; known tokens are those of complete entries, and their data agrees if and only if no surviving search is deceived; for how long it is then held: `ZeroconfTimes` |
| ZeroconfDiscovery.Discovery.ExpireDiscovered | src/s3e_zeroconf.c:915-964 | every search is expired at the given time with exactly the notifications and searches the recorded calls determine; nothing stale remains, and known tokens and data agree with the caches again |
| ZeroconfDiscovery.Discovery.QuerySearches | src/s3e_zeroconf.c:1149-1158 | exactly the searches whose time has come ask, in order, and then not for two seconds |
| ZeroconfDiscovery.Discovery.Pump | src/s3e_zeroconf.c:1130-1158 | nothing inside a callback; otherwise each packet up to an empty one, and 32 at most, has its effect in turn, then what expired when the pump began goes, then the due queries are sent |
| ZeroconfDiscovery.Discovery.Call | src/s3e_zeroconf.c:984-1040 | a start or stop does to the whole state exactly what it says, and keeps the agreement of guest and caches |
| ZeroconfDiscovery.Discovery.Shutdown | src/s3e_zeroconf.c:1189-1207 | every slot is emptied, only stops are added to the notifications, and outside callbacks every token ever made has been freed exactly once |
| ZeroconfDiscovery.Discovery.Run | src/s3e_zeroconf.c:875-1207 | any run of calls keeps the whole invariant and passes through moments each of which the next call turns into the next as stated; nothing recorded is taken back, and guest and caches agree at the end |
| ZeroconfPublishers.SendPublication | src/s3e_zeroconf.c:346-374 | sent exactly if the response can be built within 2048 bytes and the platform sends it |
| ZeroconfPublishers.MatchesQuery | src/s3e_zeroconf.c:844-873 | matched, and unicast, exactly if some question asks for this publication |
| ZeroconfPublishers.Publishers.AnswerQuery | src/s3e_zeroconf.c:905-911 | exactly the asked publications answer, to the asker alone only if it asked for that and is known |
| ZeroconfPublishers.Publishers.Publish | src/s3e_zeroconf.c:1042-1091 | succeeds exactly if names, TXT data, address and a slot are there, and fills the first free slot; counts as announced at once; a failure touches no slot in use |
| ZeroconfPublishers.Publishers.UpdateTxt | src/s3e_zeroconf.c:1093-1118 | the whole new state: pending exactly if the data differs from what was announced, due a second after the last announcement at the earliest |
| ZeroconfPublishers.Publishers.Unpublish | src/s3e_zeroconf.c:1120-1128 | a goodbye is sent and the slot freed; nothing else changes |
| ZeroconfPublishers.Turn | src/s3e_zeroconf.c:1159-1185 | update, repetition or nothing for one publisher, retried after a second or a minute; what is sent, and when: `ZeroconfPublication.PumpAnnounces`, `PumpSettles` |
| ZeroconfPublishers.TurnKeeps | src/s3e_zeroconf.c:1159-1185 | a turn keeps announcements of one publication at least a second apart |
| ZeroconfPublishers.Publishers.PumpPublisher | src/s3e_zeroconf.c:1159-1185 | one publisher's turn on the shared table, its announcement recorded |
| ZeroconfPublishers.Publishers.Pump | src/s3e_zeroconf.c:1159-1185 | every publisher has its turn and exactly the announcements that went out, with their packets, are added to the record; afterwards nothing is due, and due updates that could be sent have been; that repetitions are: `ZeroconfPublication.PumpAnnounces` |
| ZeroconfPublishers.Publishers.Run | src/s3e_zeroconf.c:1042-1185 | over any run of publishing, updating, unpublishing and pumping, the record of announcements only grows and any two of one publication are at least a second apart |
| ZeroconfAccepted.DescribedExact | src/s3e_zeroconf.c:1042-1087 | a publication is accepted exactly if its port is not 0, its names fit, it has at most 16 TXT strings of at most 255 bytes, and an address is known |
| ZeroconfAccepted.PublishExact | src/s3e_zeroconf.c:1042-1091 | an accepted one takes the first free slot, counts as announced now and is due again in a minute; otherwise no running publisher changes and none is added |
| ZeroconfAccepted.UpdateExact | src/s3e_zeroconf.c:1093-1118 | an accepted update is pending exactly if it differs from what was announced, and due at once but not within a second of the last announcement, nor later than an earlier pending one |
| ZeroconfAccepted.UnpublishExact | src/s3e_zeroconf.c:1120-1128 | an unpublished slot is free and nothing else changes |
| ZeroconfAccepted.PublicationExact | src/s3e_zeroconf.c:346-374 | a publication goes out exactly if the builder accepts it within 2048 bytes |
| ZeroconfAccepted.SearchNamesExact | src/s3e_zeroconf.c:993-1013 | the names of a search: the cores of type and domain, of which the full name has at most 255 bytes |
| ZeroconfAccepted.StartExact | src/s3e_zeroconf.c:993-1033 | a search is accepted exactly with a free slot, names and a socket; it knows nothing yet, has the callbacks it was given, and asks again in two seconds |
| ZeroconfAccepted.FourOfEach | src/s3e_zeroconf.c:100-101 | there is room for four searches and four publishers |
| ZeroconfAccepted.NameValidExact | src/mdns_wire.c:58-95 | valid names are the root and labels of 1 to 63 bytes with dots between them, 253 bytes at most without a final dot |
| ZeroconfAccepted.JoinedNameExact | src/mdns_wire.c:151-176 | a type and a domain are joined exactly if something is left of both without the dots around, and the result is valid |
| ZeroconfAccepted.BuildableExact | src/mdns_wire.c:579-637 | the services the builder accepts, by the lengths of their labels, names and TXT strings |
| ZeroconfAccepted.ServiceValidExact | src/mdns_wire.c:579-598 | those it refuses before it touches the size of the packet |
| ZeroconfPublication.DescribedNamed | src/s3e_zeroconf.c:1042-1091 | a publication is named after its arguments, and its port is the argument with the bytes swapped |
| ZeroconfPublication.PublicationReads | src/s3e_zeroconf.c:346-374 | every packet that goes out for it reads as exactly its PTR, SRV, TXT and A records, for two minutes or as a goodbye, if it can be read at all |
| ZeroconfPublication.AsksExact | src/s3e_zeroconf.c:844-873 | a publisher answers a question exactly if one of these records does: by name, class and type, or any type |
| ZeroconfPublication.AskedExact | src/s3e_zeroconf.c:844-873 | and a query exactly if it has such a question, to the asker alone exactly if such a question wants that |
| ZeroconfPublication.PumpAnnounces | src/s3e_zeroconf.c:1159-1185 | whoever has an update or a repetition due that can be built and sent announces it in this pump, a repetition with the present address, and nobody else announces anything |
| ZeroconfPublication.PumpSettles | src/s3e_zeroconf.c:1159-1185 | afterwards it is up to date and due in a minute, or due again a second or a minute later if it could not be sent |
| ZeroconfPublication.RepeatedInTime | src/s3e_zeroconf.c:1159-1185 | over a run of pumps in which sending works, announcements are at most a minute and one pump interval apart |
| ZeroconfPublication.NewIsOnTime | src/s3e_zeroconf.c:1086-1089 | a new publication is on time from the start |
| ZeroconfLiveness.NeverForgotten | src/s3e_zeroconf.c:346-1185 | with pumps at least every minute, whoever received the last announcement holds the service complete until the next pump |
| ZeroconfAnnouncement.AnnouncementCompletes | src/s3e_zeroconf.c:346-755 | a built announcement, parsed and applied to an empty search for its service, gives one complete entry with the published data |
| ZeroconfAnnouncement.AnnouncementUpdates | src/s3e_zeroconf.c:346-755 | in any search for its service with an entry or a free slot for it and room in the address table, its entry then holds the published data |
| ZeroconfAnnouncement.GoodbyeRemoves | src/s3e_zeroconf.c:346-842 | a built goodbye, parsed and applied, marks the service's entry, and the dispatch removes it |
| ZeroconfAnnouncement.NamesFit | src/s3e_zeroconf.c:239-255 | a parseable service's instance name is recognised and fits the tables |
| TimerSpec.AfterSetOk | src/s3e_timer.c:74-111 | setting keeps the queue sorted with insertion order among equals, one timer per key, at most 32, and re-arming always succeeds |
| TimerSpec.WithoutOk | src/s3e_timer.c:19-31 | removing keeps all that and removes at most one timer |
| TimerSpec.AfterSetSelects | src/s3e_timer.c:74-111 | a timer set during a pass never joins the timers the pass will fire |
| TimerSpec.NoneReady | src/s3e_timer.c:58-64 | if the first timer is not to be fired, none is |
| TimerSpec.PassStep | src/s3e_timer.c:53-72 | one more timer fires and its callback's keys leave the pass |
| TimerSpec.PassEnds | src/s3e_timer.c:53-72 | at the end exactly the due timers that were spared have fired |
| TimerSpec.RemainsStep | src/s3e_timer.c:53-72 | and of the timers there at the start exactly those stay that have not fired and were not set or cancelled by a callback |
| TimerSpec.NewTimersSet | src/s3e_timer.c:53-111 | every timer in the queue after a pass was there before or was set by a callback of the pass |
| TimerQueue.TimerQueue.RemoveTimer | src/s3e_timer.c:19-31 | the list loses exactly the timer of that key, and its node is handed back unlinked |
| TimerQueue.TimerQueue.Count | src/s3e_timer.c:33-39 | the number of timers |
| TimerQueue.TimerQueue.Link | src/s3e_timer.c:103-108 | the node is linked in after every timer due no later |
| TimerQueue.TimerQueue.SetTimer | src/s3e_timer.c:74-111 | succeeds exactly with a callback and either the key pending or room left; the list is then the specified one |
| TimerQueue.TimerQueue.CancelTimer | src/s3e_timer.c:113-123 | succeeds exactly if the timer was pending, and removes it |
| TimerQueue.TimerQueue.Invoke | src/s3e_timer.c:69-70 | the callback is invoked once and its calls recorded; the queue is what these make of it, and the timers still to fire and the older ones lose exactly the keys among them |
| TimerQueue.TimerQueue.DispatchDue | src/s3e_timer.c:53-72 | invokes in order, once each, exactly the timers due at the start and not set or cancelled by an earlier callback of the pass; other timers stay unless a callback touched them; the queue is what the recorded calls make of it; terminates |
| TimerTimes.SetExact | src/s3e_timer.c:74-111 | a timer is accepted with a callback and a pending key or fewer than 32 timers, and is then due a period from now, in place of the one of its key; timers of other keys stay |
| TimerTimes.CancelExact | src/s3e_timer.c:113-123 | after cancelling there is none of that key, and others stay |
| TimerTimes.FiresOnTime | src/s3e_timer.c:53-111 | a timer fires in the first pass that starts a period later or more, and in none before, unless a callback sets or cancels it |
| TimerTimes.CancelledSilent | src/s3e_timer.c:53-123 | a cancelled one does not fire |
| DnsLookup.StepKeeps | src/s3e_socket.c:321-512 | every step of either thread keeps ownership exclusive |
| DnsLookup.LookupKeeps | src/s3e_socket.c:466-490 | a new lookup becomes current, or is discarded because one is |
| DnsLookup.StartKeeps | src/s3e_socket.c:480-503 | starting the thread keeps ownership exclusive, and so do its failure and giving up because a lookup was running |
| DnsLookup.CancelKeeps | src/s3e_socket.c:505-512 | cancelling the current lookup keeps ownership exclusive |
| DnsLookup.WorkerKeeps | src/s3e_socket.c:321-340 | the worker's steps |
| DnsLookup.PumpKeeps | src/s3e_socket.c:350-358 | the pump's look at the shared lookup, and taking it once the worker is done, keep ownership exclusive; that it is taken and called back: `DnsProgress.CalledBack` |
| DnsLookup.DecideKeeps | src/s3e_socket.c:360-372 | the pump's join and the decision to call back, which counts the one call and keeps the lookup for its return |
| DnsLookup.ShutdownKeeps | src/s3e_socket.c:1007-1017 | shutdown cancels the lookup and hands it to its thread by detaching, if that works |
| DnsLookup.ShutJoinKeeps | src/s3e_socket.c:1018-1027 | otherwise shutdown joins the thread and frees the lookup itself |
| DnsLookup.AlwaysSafe | src/s3e_socket.c:321-512 | in every interleaving no freed lookup is touched, none is freed twice, and a callback runs at most once, after the worker was done and not after a timely cancel |
| DnsLookup.AllFreedAtRest | src/s3e_socket.c:321-375 | when everything has come to rest each lookup was freed exactly once and called back exactly if a pump took it before any cancel |
| DnsLookup.CancelInTime | src/s3e_socket.c:505-512 | a cancel before the pump takes the lookup keeps its callback from ever running |
| DnsLookup.CancelIsTooLate | src/s3e_socket.c:505-512 | a cancel after that does not touch it |
| DnsLookup.JoinReturns | src/s3e_socket.c:360-360 | a join waits only for a worker that has started and ends by its own steps |
| DnsProgress.WorkerEnds | src/s3e_socket.c:321-340 | a worker that has started ends by its own steps; the lookup is then done, and freed by it exactly if it was detached |
| DnsProgress.PumpWaits | src/s3e_socket.c:350-358 | a pump before that leaves the lookup alone |
| DnsProgress.CalledBack | src/s3e_socket.c:350-374 | a finished lookup that was not cancelled is called back once by the next pump, and freed once when the callback returns |
| DnsProgress.DroppedSilently | src/s3e_socket.c:350-374 | a cancelled one is freed without a call |
| DnsProgress.LookupConcludes | src/s3e_socket.c:321-375 | from any state of a running lookup, the steps of its worker and of a pump lead to exactly one call, or none if cancelled, and one release |
| DnsProgress.CallbackReturns | src/s3e_socket.c:366-374 | whatever a callback did meanwhile, its own lookup is freed when it returns, and nothing else changes |
| DnsProgress.NextAccepted | src/s3e_socket.c:480-503 | the next lookup is accepted as soon as none is current |
| DnsProgress.SecondRefused | src/s3e_socket.c:480-487 | a second lookup is freed at once, and the running one is untouched |
| DnsProgress.FailedStart | src/s3e_socket.c:491-500 | a lookup whose thread cannot be created is freed, and none is current |
| DnsProgress.CancelMarks | src/s3e_socket.c:505-512 | a cancel marks the current lookup and nothing else |
| DnsProgress.DetachedConcludes | src/s3e_socket.c:1007-1017 | a shutdown that detaches the thread leaves the lookup to it, which frees it without a call |
| DnsProgress.ShutdownConcludes | src/s3e_socket.c:1018-1027 | one that cannot, joins the thread and frees the lookup, without a call |
| SocketSlots.Created | src/s3e_socket.c:162-182 | a new socket has a generation its slot never had before |
| SocketSlots.Closed | src/s3e_socket.c:184-193 | closing uses up the generation and drops every callback |
| SocketSlots.Registers | src/s3e_socket.c:770-794 | a new registration belongs to the slot's present socket |
| SocketSlots.Delivers | src/s3e_socket.c:897-950 | an invocation is the first one of its registration, for the socket it was made on |
| SocketSlots.Sockets.Allocate | src/s3e_socket.c:162-182 | the first free slot, or none exactly if all are in use |
| SocketSlots.Sockets.Close | src/s3e_socket.c:546-555 | exactly the handles in use can be closed |
| SocketSlots.Sockets.DoAccept | src/s3e_socket.c:597-636 | the slots after an accept: a new socket, a waiting callback in place of a readable one, or no change |
| SocketSlots.Sockets.DoConnect | src/s3e_socket.c:638-666 | the slot after a connect: pending while in progress or if a callback is to hear of success |
| SocketSlots.Sockets.DoReadable | src/s3e_socket.c:770-782 | the readable callback replaces a waiting accept |
| SocketSlots.Sockets.DoWritable | src/s3e_socket.c:784-794 | the writable callback is set or cleared |
| SocketSlots.Sockets.Stage | src/s3e_socket.c:897-950 | a ready callback is taken off the slot and invoked once, the slots are then what its recorded calls make of them, and the slot is checked again afterwards |
| SocketSlots.Sockets.DispatchEvent | src/s3e_socket.c:888-951 | a stale event does nothing; for others the invocations and the slots afterwards are exactly those the event, the slots and the recorded calls of the callbacks determine |
| SocketSlots.StagedInOrder | src/s3e_socket.c:888-951 | whatever calls the callbacks make, those of one event come in the order connect, accept, readable, writable, each at most once, for the socket of the event |
| SocketSlots.QuietEvent | src/s3e_socket.c:888-951 | callbacks that make no calls are invoked exactly as the event and the slot say |
| SocketSlots.CollectedAre | src/s3e_socket.c:956-982 | exactly the slots that wait for something are polled, in order, under their present generation, for what they wait for; in terms of their fields: `SocketPasses.QuietPass` |
| SocketSlots.Sockets.Collect | src/s3e_socket.c:956-982 | the collecting loop yields those entries, with what poll reports of each |
| SocketSlots.Sockets.Pump | src/s3e_socket.c:953-999 | the events of a pass are dispatched in turn, with exactly the invocations and slots that the recorded calls determine; every invocation is for a socket that was open under that generation when the pass began; who is called, by the fields of the slots: `SocketPasses.QuietPass` |
| SocketPasses.QuietPass | src/s3e_socket.c:888-999 | a pass whose callbacks make no calls: connect callbacks of pending connections and writable ones hear of output, accept and readable ones of input, each of them of errors, in order of slots and kinds, nobody else, and what was heard is no longer registered |
| SocketPasses.RegistrationHeard | src/s3e_socket.c:597-794 | the next pass that reports what a registered callback waits for, or an error, calls it |
| SocketPasses.RegistrationDropped | src/s3e_socket.c:546-794 | a call without a callback, a close, or one of the calls that exclude each other takes it back |
| SocketPasses.AcceptedThenSilent | src/s3e_socket.c:597-636 | an accept that finds a connection gives it a free slot and waits no longer; without one it goes on waiting |
| SocketPasses.OthersKept | src/s3e_socket.c:546-794 | a call leaves the callbacks it does not replace, and all other sockets; a connect stays pending while in progress or until its callback is called |
| SocketPasses.OpenedAndClosed | src/s3e_socket.c:162-193 | a new socket takes the first free of 32 slots under the next generation, and a closed one gives its generation up |
| SocketPasses.CallsElsewhere | src/s3e_socket.c:888-951 | whatever callbacks do to other sockets, an event delivers to its own exactly what it would if they did nothing |
| SocketPasses.ClosedMeanwhile | src/s3e_socket.c:888-951 | a socket whose connect callback closes it hears nothing more of the event |
| SocketPasses.RegisteredMeanwhile | src/s3e_socket.c:888-951 | one whose connect callback asks for data hears of them in the same event |
| Crc32.ShiftLinear | tools/apk_extract/codboz_apk_extract.c:91-95 | division by the polynomial is linear over exclusive or |
| Crc32.EightShifts | tools/apk_extract/codboz_apk_extract.c:104-106 | eight bit steps are one table step |
| Crc32.UpdatedConcat | tools/apk_extract/codboz_apk_extract.c:101-108 | updating chunk by chunk is updating with the whole |
| Crc32.FromZero | tools/apk_extract/codboz_apk_extract.c:101-108 | from zero the update is the checksum of section 8 of RFC 1952 |
| Crc32.Checksum.Init | tools/apk_extract/codboz_apk_extract.c:87-99 | every table entry is eight bit steps of its index |
| Crc32.Checksum.Update | tools/apk_extract/codboz_apk_extract.c:101-108 | the table-driven update equals the bit-by-bit definition on all data |
| Crc32.Checksum.CopyStored | tools/apk_extract/codboz_apk_extract.c:329-348 | the copied entry is accepted exactly if its stored checksum is that of the whole entry |
| Crc32Detection.CheckValue | tools/apk_extract/codboz_apk_extract.c:87-108 | the checksum of the digits 1 to 9 is cbf43926, as for the standard polynomial, bit order and complements |
| Crc32Detection.BurstDetected | tools/apk_extract/codboz_apk_extract.c:101-108 | a change within four neighbouring bytes of an entry never keeps its checksum |

## Left out

- ZeroconfDiscovery.Discovery.Call: a callback or caller may start and stop searches; publishing from a callback does not touch the searches and is modelled in `ZeroconfPublishers` alone.
- ZeroconfDiscovery.Discovery.Pump: of the queries that go out it states the repeated ones; `SendFollowUps` states the follow-up queries of each search.
- ZeroconfBacked.PacketBacked: one direction only, since a later A record of the same packet may put right what an SRV record broke; the single steps are exact.
- SocketSlots.Sockets.Do: any one of the calls whose effects the other members state; system calls and error codes are free.
- WireWriter.JoinName: the fixed 256-byte output array is a value.
- Token, entry and search records are values in sequences, not structs in static arrays; the retired list is a sequence, not linked nodes.
- Handles are slot numbers; a stopped search's handle that is reused names the new search, as in the code.
- mdns_wire_build_ptr_query: joins a name and builds a query, both of which are modelled.
- Unsolicited goodbyes of s3e_zero_conf_shutdown, and the answers' packets: they are `SendPublication` for each publisher.
- Allocation failure, and with it the branch in which a rotation finds no new token.
- Wrap-around of generations, token numbers, timer sequences and of clock sums other than the expiry time.
- Opening sockets, interface selection and multicast setup in src/zeroconf_platform_posix.c: system calls.
- The host label made from the machine's name: a parameter of `Publish`.
- Synchronous lookups, address formatting and the errno mapping of src/s3e_socket.c: thin wrappers.
- Polling sockets again from inside a socket callback.
- Wall clock, time zone and the other clock readings of src/s3e_timer.c.
- ZIP parsing and LZMA decoding in the extractor: input, output and third-party code.
- Graphics, audio, input, files, configuration, memory heaps, crash recovery and the image loader: they depend on foreign calls or on an executable that is not part of this model.
