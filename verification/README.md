# Verification of the Soliloque server's stateful cores

Soliloque is a TeamSpeak voice server written in C. This project models, in Dafny, the parts of
it that keep state and proves what they promise:

- **The reliable control-packet protocol.** Every player has a queue of control packets. The
  sender thread sends the head again every half second, with a new version number and a new
  checksum, until the client acknowledges it; a silent player is moved to a list of leaving
  players, drained or flushed, and destroyed. `Protocol` has this as a state machine whose
  network may lose, repeat and reorder; `Reliability` has the theorems over all runs; `Queue` is
  the linked queue and `PacketSender` the code on packet buffers, proved equal to the state
  machine; `Broadcast` is the notification that goes to every active player.
- **CRC-32 and packet sealing.** `Crc` proves the table-driven code equal to the bit-serial shift
  register of section 8 of RFC 1952 and says exactly which differences it misses; `PacketTools`
  has sealing, checking and error detection. `CheckValue` ties the result to the definition by
  complements, to the published check value CBF43926 and to the field in the packet.
- **The membership of the server.** `SlotArray` is the growable slot array, `Ids` the allocation
  of identifiers, `Membership` the players, leaving players, channels, mute lists and privilege
  entries with the one invariant that ties them, `MembershipInvariant` and `Privileges` what each
  step does to it, `Server` the code in place, and `ServerRuns` the theorems over all runs.
  `ServerLimits` has runs a client can bring about that end in the states where the code breaks
  its promises.
- **The server as a whole.** `Sessions` joins the membership and one protocol session per player
  into one state machine, tied by the sender thread, the requests to leave and the search for the
  player an acknowledgement names.
- **Codecs.** `Bytes` (integers), `Strings` (strndup and the fixed-size string fields),
  `ChannelCodec` (channel blocks), `ServerInfo` (the channel list and the pages of players) and
  `ServerPrivileges` (the bit field whose rows overlap).
- **The statistics table.** `ServerStat`: lazily reused slots against the true history.

Code that changes things in place is a method with its loops; each is proved against a function
of the old state, and the theorems are about those functions. `dafny verify dfyconfig.toml`
checks the whole project.

Assumptions of the model, besides what each `requires` says:

- One section under a mutex is one step. Stamping the session counter into a packet, `send_to`
  and incrementing the counter are one step.
- Fewer than 2^32 packets are queued in one session. `Reliability.ReusedCounterLosesPacket` shows
  that this bound cannot be raised.
- The client acknowledges only packets it received, with the counter it read and a version that
  is at most the one it read; the identifiers in an acknowledgement name the session.
- Clock readings, new addresses and random identifiers are inputs of the steps. `Sessions` takes
  the random private identifiers as not repeating. Allocation
  succeeds. The host stores integers with the least significant byte first, where the code
  accesses a packet without conversion.
- When every slot of the player array is taken, `add_player` reads the byte behind its table of
  used identifiers. The runs of `ServerRuns` take that byte as not being 1, so the ninth player
  (the first to depend on it) gets the identifier 9 in an array that then grows.
- The flag of a registered player is set exactly when he has a registration, as at login.

Where the code does not do what its documentation or its neighbours promise, the code is modelled
and the exact condition is proved:

- `move_player` into the channel the player is already in drops him from its list
  (`MoveExactly`, reached in `OwnChannelMoveIsReachable`), and answers 1 when the insertion failed
  (`MoveClaimsSuccessWithoutMoving`).
- `add_player` makes a newcomer active even when the default channel refuses him; he is then in
  no channel (`AddPlayerExactly`). This and the wrong answer of `move_player` are reached in
  `FullDefaultChannelBreaksPromises`.
- `add_player` and `add_ban` scan for an identifier without the bound `add_channel` has; they
  stay in their table exactly when a slot is free (`ScanRunsPastExactly`, reached in
  `NinthPlayerReadsPast`).
- `channel_from_data` reads inside its block exactly when the block has at least 19 bytes
  (`StaysInsideExactly`); the formula its comment doubts is right from there on.
- `wstaticstring` keeps the length in a signed char: it stays inside its field exactly below 128
  bytes (`StaticFitsExactly`).
- The privilege bit field is lossless exactly when the overlapping columns are harmless
  (`LosslessExactly`); `sp_to_bitfield` says 54 and touches 56 bytes.
- The resend test also passes for some clock readings older than the stamp (`DueExactly`).
- `nb_elem` of a queue is never updated (the queue methods state that it keeps its value).

## Model

| member | source | states |
|---|---|---|
| `Protocol.NextKeepsInv` | packet_sender.c:66-129 | every step of server, network and client keeps the protocol invariant: the queue is what was enqueued and not yet acknowledged, only its head was ever sent, and every version sent is below the stored one |
| `Protocol.RunKeepsInv` | main_serv.c:187-198 | the invariant holds after every run that enqueued at most 2^32 packets |
| `Protocol.HonestAckOfHead` | main_serv.c:191-196 | an acknowledgement with the head's counter answers the head itself: the client has it, and the acknowledged version is below the stored one |
| `Reliability.DeliveredInOrderOnce` | main_serv.c:189-197 | over every run with loss, repetition and reordering, the acknowledged packets are a prefix of those enqueued, each received before its pop, and a client that drops repeats has seen that prefix and at most one packet more |
| `Reliability.QueueIsConsecutive` | server_stat.c:50-59 | in every reachable state queued counters are consecutive, end just below the session counter, and only the head has a version, at most 51 |
| `Reliability.EveryAckIsReadRightly` | main_serv.c:191-196 | no acknowledgement is misread at any moment of any run: with the head's counter it passes the version test and pops a packet the client has; otherwise it is stale and changes nothing |
| `Reliability.HeadCanAlwaysBeDelivered` | packet_sender.c:89-92 | from every reachable state, less than 11 s after the last ping, with a head sent at most 50 times and last more than 0.5 s ago, a pass whose packet arrives and is answered gets exactly the head acknowledged |
| `Reliability.TimedOutExactly` | packet_sender.c:78 | a session is given up if and only if 11 s have passed since the last ping or the head was sent more than 50 times |
| `Reliability.ActivePassExactly` | packet_sender.c:73-93 | what a pass does to an active player with something queued, in microseconds: he leaves if and only if he is given up, and is then told and sent nothing; otherwise the head goes out after more than 0.5 s, with the next version left behind, and nothing happens before |
| `Reliability.LeavingPassExactly` | packet_sender.c:101-128 | the same for a leaving player: his queue is thrown away if and only if he is given up |
| `Reliability.AckExactly` | main_serv.c:189-197 | any acknowledgement, honest or not, pops the head if and only if it names its counter and a version not above the stored one |
| `Reliability.LeavingQueueDrains` | packet_sender.c:99-129 | over every run from the moment a player leaves: his queue never grows, at most 51 transmissions per queued packet remain, and every pass that acts either sends one of them or destroys him |
| `Reliability.LatePassesDestroy` | packet_sender.c:99-129 | over every such run: once more than 51 passes per queued packet came, each more than half a second after anything was last sent to him, he is destroyed |
| `Reliability.SpacedPassesDestroy` | packet_sender.c:99-129 | the same for passes that are all more than half a second apart |
| `Reliability.SilenceDestroys` | server.c:634-650 | over every such run his last ping stands still, and the first pass eleven seconds after it, if none before, destroys him |
| `Reliability.ReachableWithinBudget` | packet_sender.c:78-79 | every reachable session meets the condition under which draining is bounded |
| `Reliability.LatePassActs` | packet_sender.c:103-128 | a pass over a leaving player more than half a second after the last one acts, and one eleven seconds after the last ping destroys him at once |
| `Reliability.DueExactly` | packet_sender.c:89 | the resend test is "more than half a second passed", except that an older clock reading passes when its difference wraps into the upper half second |
| `Reliability.StaleReadingResendsAtOnce` | packet_sender.c:68-119 | a concrete reading one microsecond older than the stamp makes the leaving loop send the head again at once |
| `Reliability.ReusedCounterLosesPacket` | main_serv.c:195-196 | with one packet beyond 2^32 some run pops a packet that never reached the client, by the acknowledgement of the very first one |
| `Queue.Queue.AddToQueue` | queue.c:54-72 | the chains run through the old nodes and one new one; the element, its size and a zero time are appended |
| `Queue.Queue.GetFromQueue` | queue.c:96-122 | the head is returned and unlinked; the rest keeps order, sizes and times, and both chains and both ends stay right |
| `Queue.Queue.QueueUpdateTime` | queue.c:74-78 | only the head's time changes |
| `Queue.Queue.QueueGetTime` | queue.c:80-85 | the head's time, or none for an empty queue |
| `Queue.Queue.PeekAtQueue` | queue.c:133-144 | the head's element, or none for an empty queue |
| `Queue.Queue.PeekAtSize` | queue.c:146-157 | the size paired with the head, or 0 for an empty queue |
| `Queue.Queue.TakeAll` | packet_sender.c:111-113 | the flush loop ends with both chains empty |
| `PacketSender.SealKeepsDecode` | packet_tools.c:36-45 | sealing changes nothing of what the protocol reads of a packet |
| `PacketSender.DecodeIsInjective` | packet_tools.c:54-76 | two accepted packets with the same counter, version and contents are the same bytes |
| `PacketSender.ResealedIsBumped` | packet_sender.c:51-54 | after the version bump and the new checksum the packet passes the check and differs, for the protocol, in its version only |
| `PacketSender.AddressedDecodes` | control_packets/ctl_arrive_leave_player.c:146-151 | a stamped and sealed packet passes the check and carries the session counter and version 0 |
| `PacketSender.HeaderLayout` | main_serv.c:191-193 | the counter is read at byte 12, the version at 16, and the checksum field is 20 to 23 |
| `PacketSender.AddressedFields` | control_packets/ctl_arrive_leave_player.c:146-149 | a queued packet has its recipient's private identifier at byte 4 and the public one at 8, and what is not stamped is as built |
| `PacketSender.CommonDecides` | control_packets/ctl_arrive_leave_player.c:145-153 | a buffer already stamped for one recipient gives the next one the same packet as a fresh buffer |
| `PacketSender.Player.SendTo` | server_stat.c:50-59 | a copy of the buffer joins the end of the queue; nothing queued is touched |
| `PacketSender.Player.SendControl` | control_packets/ctl_arrive_leave_player.c:146-152 | stamping, sealing, queueing and counting on the buffers is the Enqueue step of the protocol |
| `PacketSender.Player.SendCurrPacket` | packet_sender.c:34-56 | the head goes out as it is and passes the client's check; what stays queued has the next version and passes it too |
| `PacketSender.Player.HandleAckPacket` | main_serv.c:167-200 | the code on the packet's bytes is the acknowledgement step of the protocol |
| `PacketSender.Player.SeemsTimedOut` | packet_sender.c:76-78 | the test on the ping time and the version in the buffer holds if and only if 11 s have passed since the last ping or the version is above 50 |
| `PacketSender.Player.ResendIfDue` | packet_sender.c:89-92 | a due head is stamped, sent and bumped; otherwise nothing changes |
| `PacketSender.Player.ActivePass` | packet_sender.c:71-96 | the loop body over active players is the protocol's step and puts exactly the protocol's packet on the wire |
| `PacketSender.Player.LeavingPass` | packet_sender.c:99-129 | the loop body over leaving players is the protocol's step: drained or flushed, and destroyed exactly when the queue is empty |
| `Broadcast.NotifyOne` | control_packets/ctl_arrive_leave_player.c:145-153 | one round of the broadcast queues the notice for that player and leaves the buffer fit for the next |
| `Broadcast.NoticeArrives` | control_packets/ctl_arrive_leave_player.c:131-140 | the queued notice has its kind at byte 2, the leaver at 24 and 1 at 28, in 64 bytes |
| `Broadcast.NotifyPlayerLeft` | control_packets/ctl_arrive_leave_player.c:116-155 | every active player gets the notice exactly once, behind what he has to receive and under his own counter |
| `Crc.TableStepIsSerial` | crc.c:38-40 | one table lookup does the work of the eight bits of a byte, for every register, byte and polynomial |
| `Crc.Crc32Table` | crc.c:14-27 | every entry is eight bit-steps of its index |
| `Crc.Crc32` | crc.c:29-43 | the table-driven loop computes the bit-serial checksum of every byte string for every polynomial |
| `CheckValue.ChecksumByComplements` | crc.c:38-42 | for every message of at least four bytes and every polynomial, the checksum is the complement of the plain remainder of the message with its first four bytes complemented |
| `CheckValue.ChecksumOfDigits` | crc.c:29-43 | the checksum of the characters 123456789 is CBF43926 |
| `CheckValue.SealHoldsChecksum` | packet_tools.c:36-76 | the field of a sealed packet is the little-endian checksum of the packet with that field zero, and a packet passes the check if and only if its field is |
| `CheckValue.WordBytesAreLe` | packet_tools.c:43-44 | the checksum is stored with its least significant byte first |
| `Crc.SerialIsLinear` | crc.c:38-42 | the register update is linear over exclusive or |
| `Crc.StepsKeepNonZero` | crc.c:18-25 | with bit 31 of the polynomial set, stepping never turns a non-zero register into zero |
| `Crc.UndetectedExactly` | crc.c:29-43 | two messages of one length have the same checksum if and only if their difference, run through a zero register, leaves zero |
| `Crc.BurstsAreDetected` | crc.c:29-43 | messages that differ only within 32 consecutive bits have different checksums |
| `PacketTools.SealIgnoresOldSum` | packet_tools.c:42-44 | the seal depends on the contents alone |
| `PacketTools.AcceptsExactlySealed` | packet_tools.c:36-76 | a packet passes the check if and only if sealing it again changes nothing; sealed packets pass |
| `PacketTools.BurstIsRejected` | packet_tools.c:54-76 | any change within 32 consecutive bits outside the checksum field makes the check fail |
| `PacketTools.AlteredWindowIsRejected` | packet_tools.c:54-76 | any change within four consecutive bytes, outside the field or exactly on it, makes the check fail |
| `PacketTools.PacketAddCrc` | packet_tools.c:36-45 | the buffer's prefix becomes its seal, the rest is untouched |
| `PacketTools.PacketCheckCrc` | packet_tools.c:54-76 | the answer is the check, and the packet itself is untouched |
| `SlotArray.InsertSpec` | array.c:56-116 | an insertion fails exactly when every slot is taken and the array may not grow; otherwise the element takes the first free slot and the others keep theirs |
| `SlotArray.GrowthDoubles` | array.c:66-79 | a growing array doubles up to its limit, and its new slots are empty |
| `SlotArray.CountIsTaken` | array.c:99-110 | the count behind used_slots is the number of taken slots |
| `SlotArray.InsertCount` | array.c:93-116 | an insertion that finds room adds exactly one element |
| `SlotArray.RemoveElems` | array.c:178-194 | removal takes out every occurrence and keeps the order of the rest |
| `SlotArray.RemoveCount` | array.c:178-194 | without duplicates, removal lowers the number of elements by one exactly when the element was there |
| `SlotArray.Array.NextAvailable` | array.c:40-49 | the first free slot, or -1 when there is none |
| `SlotArray.Array.Grow` | array.c:56-83 | the size doubles up to the limit, slots keep their contents, new ones are empty |
| `SlotArray.Array.Insert` | array.c:93-116 | the new contents, the answer, and used_slots equal to the number of taken slots |
| `SlotArray.Array.Remove` | array.c:178-194 | every occurrence goes and used_slots stays exact |
| `SlotArray.Array.RemoveIndex` | array.c:155-168 | one slot is cleared and used_slots stays exact |
| `SlotArray.Array.Has` | array.c:258-268 | whether some slot holds the element |
| `SlotArray.Array.GetNElemsStartAt` | array.c:207-230 | the copied entries are the asked window of the live elements in slot order |
| `SlotArray.Array.Free` | array.c:232-250 | refused exactly while an element is left |
| `Ids.NextFreeIsLeast` | server.c:151-154 | the scan finds the least unused identifier |
| `Ids.ScanRunsPastExactly` | server.c:279-282 | pigeonhole: the scan runs past its table if and only if every slot is taken |
| `Ids.AllocationKeepsFit` | server.c:151-158 | the new identifier is the least unused one and, in the grown array, identifiers stay distinct and within 1..total_slots |
| `Ids.ScanGuarded` | server.c:147-154 | all table accesses are in bounds and the result is the least unused identifier or one past the table |
| `Ids.ScanUnguarded` | server.c:453-468 | while a slot is free the scan finds the least unused identifier inside its table; otherwise the byte behind the table decides: the identifier one past the table, or no result |
| `ServerLimits.NinthPlayerReadsPast` | server.c:270-281 | in the state after a run in which eight players connect to a new server, every slot is taken and the scan for a ninth identifier reads past its table |
| `MembershipInvariant.AddChannelKeepsInv` | server.c:121-164 | adding a channel keeps the whole membership invariant |
| `MembershipInvariant.NewChannelId` | server.c:146-158 | the new channel's identifier is the least unused one and fits the grown array |
| `MembershipInvariant.CreatedRecord` | channel.c:86-102 | a new channel has the flags and the limit it was asked for, four free slots and no parent |
| `MembershipInvariant.DefaultFlagMoves` | server.c:134-144 | a first channel becomes the default one, a new default channel takes the flag from every other, and otherwise nobody's flag changes |
| `MembershipInvariant.DefaultIsFirst` | server.c:221-236 | the default channel is live and flagged; only if no live channel is, one for 16 members is made |
| `MembershipInvariant.NewcomerKeepsRecord` | server.c:259-297 | a newcomer keeps the private identifier and the registration he came with |
| `MembershipInvariant.NewPublicId` | server.c:269-282 | the new player's identifier is the least unused one; it is in the table as scanned while a slot is free, and in the grown array otherwise |
| `MembershipInvariant.AddPlayerExactly` | server.c:259-297 | add_player leaves the server consistent if and only if the default channel lets the newcomer in |
| `MembershipInvariant.MoveExactly` | server.c:413-435 | move_player leaves the server consistent if and only if the destination is another channel or refuses the player |
| `MembershipInvariant.MoveToOwnChannelLosesPlayer` | server.c:426-430 | moving into one's own channel leaves an active player no channel lists |
| `MembershipInvariant.RemoveKeepsInv` | server.c:364-403 | remove_player keeps the invariant, takes the player out of every list but that of the leaving, and empties exactly the privilege entries that are his |
| `MembershipInvariant.DestroyKeepsInv` | packet_sender.c:125-128 | destroying a drained player keeps the invariant, and his mute list is empty |
| `MembershipInvariant.MuteEffect` | control_packets/ctl_change_player.c:564-579 | a mute request changes exactly the target's membership in the requester's list |
| `MembershipInvariant.DeleteKeepsInv` | control_packets/ctl_create_delete_channel.c:137-147 | deleting an empty channel that is nobody's parent keeps the invariant; the channel is gone, and every other keeps its slot and its record |
| `Privileges.StoreIsUnambiguous` | channel.c:375-380 | in a consistent server at most one entry answers to a player |
| `Privileges.FirstIsLast` | player.c:234-238 | the first match, which is written, is the last match, which is read |
| `Privileges.WriteThenRead` | player_channel_privilege.c:24-46 | after a bit is set or cleared a read gives the old flags with just that bit changed, for the player and who shares his entry; everyone else reads what he read before |
| `Privileges.WriteTouchesOneSlot` | player_channel_privilege.c:24-46 | a write changes one slot, which answers to the writer, and keeps every other entry |
| `Privileges.RemoveKeepsPrivileges` | server.c:378-389 | when a player is removed every other active player reads the privileges he read before, on every channel |
| `Privileges.SubchannelsUseTheParent` | channel.c:371-373 | reads and writes of a subchannel's privileges go to its parent's store, those of another channel to its own |
| `Privileges.SetPrivilegeKeepsInv` | channel.c:365-401 | finding or creating an entry and writing it keeps the whole invariant |
| `Privileges.PrivilegeReadsBack` | player.c:221-242 | the same over the whole server: a privilege written on a channel is read on every channel of its tree and on no other |
| `ServerRuns.RunKeepsInv` | server.c:259-435 | the membership invariant holds after every run of create, attach, delete, connect, move, mute, grant, leave and destroy |
| `ServerRuns.ExactlyOneChannel` | server.c:371-377 | in every reachable state an active player is listed once by the channel he is in and by no other, and anyone else by none |
| `ServerRuns.NoReferenceToRemovedPlayers` | server.c:371-400 | from his removal on no channel, mute list or unregistered privilege names a player, and his own mute list is empty when he is destroyed |
| `ServerRuns.IdentifiersFit` | server.c:146-158 | after every run live identifiers are distinct and within 1..total_slots |
| `ServerRuns.AdmitsExactlyBelowLimit` | channel.c:347-355 | a channel other than the default one admits exactly while it has fewer members than its limit, and never exceeds it |
| `ServerRuns.DefaultAdmitsExactly` | channel.c:347-352 | the default channel admits exactly while its array has a free slot or may grow |
| `ServerRuns.MoveClaimsSuccessWithoutMoving` | server.c:427-434 | move_player answers 1 without moving exactly for a default channel whose array is full at its limit |
| `ServerLimits.OwnChannelMoveIsReachable` | server.c:426-430 | a run of one connecting player, after which his request to move to his own channel is accepted and leaves the server inconsistent |
| `ServerLimits.FullDefaultChannelBreaksPromises` | server.c:296-434 | a run after which the full default channel makes a newcomer active without a channel, and a move into it answers 1 without moving |
| `Sessions.NextKeepsSound` | packet_sender.c:66-129 | every step of the whole server keeps membership and sessions in agreement: the list a player is on is the phase of his session, identifiers are told apart, every session is in order |
| `Sessions.RunKeepsSound` | packet_sender.c:66-129 | the same over every run of the whole server |
| `Sessions.EveryPlayerIsServedInOrder` | main_serv.c:183-198 | over every run of the whole server, each player who ever connected has acknowledged a prefix of what was queued for him, in order and once |
| `Sessions.DestroyedOnlyWhenDrained` | packet_sender.c:125-128 | over every run, a player who is gone left nothing queued, nothing names him from his removal on, and while he is leaving he mutes nobody |
| `Sessions.DestroyedExactlyWhenPassEnds` | packet_sender.c:99-129 | a visit destroys a leaving player if and only if the protocol's pass ends his session |
| `Sessions.ActiveVisitExactly` | packet_sender.c:73-93 | a visit makes an active player depart if and only if something is queued and 11 s have passed since his last ping or the head was sent more than 50 times; otherwise only his own session may change |
| `Sessions.DepartTellsEverybody` | packet_sender.c:83-86 | when a player departs every active player gets the notice once, and no other session changes |
| `Sessions.LookupFinds` | main_serv.c:183-185 | the search among active and then leaving players finds exactly the player the identifiers were given to, and nobody once he is gone |
| `Sessions.AcksReachTheirSession` | main_serv.c:183-199 | over every run, an acknowledgement, however late, is handled by the session it belongs to while that lives, and changes nothing afterwards |
| `Sessions.LeavingEnds` | server.c:634-650 | over every run of the whole server a leaving player never comes back, his queue never grows, and the first visit eleven seconds after his last ping destroys him |
| `Server.Server.GetChannelById` | server.c:175-187 | a live channel with the identifier, or none has it |
| `Server.Server.GetPlayerByPublicId` | server.c:344-356 | an active player with the identifier, or none has it |
| `Server.Server.GetPlayerByIds` | server.c:308-334 | a player of the list with both identifiers, or none has them |
| `Server.Server.AddChannel` | server.c:121-164 | the loops over flags and used identifiers make the modelled step |
| `Server.Server.GetDefaultChannel` | server.c:221-236 | the first live channel with the default flag, or a new one |
| `Server.Server.DestroyChannelById` | server.c:197-211 | a channel with the identifier goes from the list and its record with it, every other one keeps its slot and record; or none has it and nothing changes |
| `Server.Server.DeleteRequest` | control_packets/ctl_create_delete_channel.c:134-147 | only a channel nobody is in is deleted; it is then off the list and its record gone, and every other one keeps its slot and record |
| `Server.Server.AddPlayerToChannel` | channel.c:159-169 | exactly when the channel admits him he is listed by it and pointed to it, and nobody else changes; otherwise nothing changes |
| `Server.Server.AddPlayer` | server.c:259-297 | the whole step, with the least unused identifier and the answer |
| `Server.Server.MovePlayer` | server.c:413-435 | a refused move changes nothing; an admitted one between channels lists him in the new one, takes him off the old one, points him to it and answers 1; a full channel answers 0; the answer otherwise, the wrong one included |
| `Server.Server.RemovePlayer` | server.c:364-403 | the loops over privileges and mute lists make the modelled step |
| `Server.Server.DestroyPlayer` | player.c:38-50 | he is off the leaving list and forgotten, no one else's record or place changes, and his mute list is released exactly when he mutes nobody |
| `Server.Server.MuteRequest` | control_packets/ctl_change_player.c:550-582 | the mute step for an active target other than oneself and a flag of 0 or 1, and nothing else |
| `Server.Server.SetChannelPrivilege` | player_channel_privilege.c:24-46 | the modelled write, on the parent of a subchannel |
| `Server.Server.FindOrCreate` | channel.c:365-401 | the first matching entry, or a new one keyed by registration or player |
| `Server.Server.GetChannelPrivileges` | player.c:221-242 | the flags of the last matching entry, or none |
| `Bytes.ReadsWhatWasWritten` | toolbox.c:69-125 | reading back a field yields the number cut to its width |
| `Bytes.LittleEndian` | toolbox.c:69-91 | byte k written is digit k of the number in base 256 |
| `Bytes.WritesWhatWasRead` | toolbox.c:69-125 | every byte string is the encoding of the number it denotes |
| `Bytes.WriteLe` | toolbox.c:69-91 | exactly the field is overwritten and the cursor moves by its width |
| `Bytes.ReadLe` | toolbox.c:103-125 | the number at the cursor, which moves by the width |
| `Strings.ScanExactly` | toolbox.c:40-43 | the copy of strndup ends at the first NUL or at its bound, whichever comes first |
| `Strings.OverrunsExactly` | toolbox.c:40-43 | strndup leaves the block if and only if its bound does and no NUL is left |
| `Strings.Strndup` | toolbox.c:35-50 | the bytes up to there, or nothing where it would leave the block |
| `Strings.StaticFitsExactly` | toolbox.c:93-101 | wstaticstring stays inside its field if and only if the length fits the signed char; below 256 that is a length under 128 |
| `Strings.WStaticString` | toolbox.c:93-101 | the length byte and the cut string are written, the rest of the field is kept, the cursor moves past the field |
| `Strings.RStaticString` | toolbox.c:127-133 | the string the signed length byte and the NUL bytes delimit |
| `Strings.StaticLayout` | toolbox.c:93-101 | for fields below 128 bytes the bytes written are the length cut to the field and that much of the string |
| `Strings.ReadStaticExactly` | toolbox.c:127-133 | for a length byte below 128, the bytes read end at the length, the field or the first NUL, whichever comes first |
| `Strings.StaticRoundTrip` | toolbox.c:93-133 | what was written into a field is read back, cut to the field |
| `Strings.ReadStaticStaysExactly` | toolbox.c:127-133 | reading a field stays inside the packet if and only if the length byte is below 128 or some NUL follows |
| `ChannelCodec.StaysInsideExactly` | channel.c:240-244 | for every block, well-formed or not: nothing at or past its end is read if and only if it has at least 19 bytes; then the three bounds are not negative and the offset is within the block and equals the size of the channel read |
| `ChannelCodec.ParsedExactly` | channel.c:235-259 | what is read of any block of at least 19 bytes: each number at its offset, and each string up to its NUL or its bound |
| `ChannelCodec.BlockLayout` | channel.c:190-204 | where the identifier, the other numbers and the strings are in a written block |
| `ChannelCodec.RoundTrip` | channel.c:180-262 | a block followed by any bytes is read back as its channel, up to the identifier and a limit cut to 16 bits, and the reader stops at its end |
| `ChannelCodec.BlocksAreSelfDelimiting` | channel.c:180-262 | two byte strings that start with channel blocks and agree have the same block and the same rest |
| `ChannelCodec.ChannelToData` | channel.c:180-209 | exactly the computed size is written, and it is the block |
| `ChannelCodec.ChannelFromData` | channel.c:226-262 | the cursor code reads what the block holds |
| `ServerInfo.ListRoundTrip` | control_packets/ctl_server_info.c:69-74 | a list of blocks followed by any bytes is read back as the channels in order, to the end of the list |
| `ServerInfo.ChannelListArrives` | control_packets/ctl_server_info.c:47-80 | the queued list has its kind, names the number of live channels and holds them in slot order to its last byte |
| `ServerInfo.ListedId` | control_packets/ctl_server_info.c:70-74 | each block of the list begins, where those before it end, with the identifier of its channel |
| `ServerInfo.SizeOfList` | control_packets/ctl_server_info.c:47-51 | the size pass adds up the sizes of the live channels |
| `ServerInfo.WriteList` | control_packets/ctl_server_info.c:60-74 | the write pass fills the packet of that size exactly |
| `ServerInfo.RespChans` | control_packets/ctl_server_info.c:37-82 | the list is queued once, as a step of the protocol |
| `ServerInfo.PagesConcatenate` | control_packets/ctl_server_info.c:108-143 | the pages concatenate to the live players in slot order, there are ceil(n/10) of them, and only the last may not be full |
| `ServerInfo.PageArrives` | control_packets/ctl_server_info.c:115-134 | a queued page has its kind and 468 bytes, its count field is the number of its players, and player k is read back at byte 28 + 44 k |
| `ServerInfo.BodiesArePages` | control_packets/ctl_server_info.c:114-143 | what is queued is exactly the pages, in order |
| `ServerInfo.EnqueueAllQueues` | control_packets/ctl_server_info.c:138-139 | the pages get consecutive counters, in order, behind what was queued |
| `ServerInfo.PlayerToData` | player.c:173-188 | 44 bytes are taken and the fields and the name are written into them |
| `ServerInfo.BuildPage` | control_packets/ctl_server_info.c:114-134 | the page for the players still to be sent |
| `ServerInfo.RespPlayers` | control_packets/ctl_server_info.c:91-144 | exactly the pages of the live players are queued |
| `ServerPrivileges.SpToBitfield` | server_privileges.c:40-51 | every bit of the 56 touched bytes is the old one or-ed with the cells on it; no other byte changes; the answer is 54 |
| `ServerPrivileges.BitOfExactly` | server_privileges.c:46-47 | bits are counted from the most significant one of each byte |
| `ServerPrivileges.LosslessExactly` | server_privileges.h:38-42 | from a zeroed buffer every privilege is read back if and only if no overlapping column is set where the row before it ends unset |
| `ServerStat.ReusableExactly` | server_stat.c:133-201 | a slot is free if and only if it is empty or 61 s old, and cleared if and only if it is a minute old |
| `ServerStat.TrafficIsBytesWithin` | server_stat.c:192-197 | the traffic of n seconds is the bytes of the packets counted less than n million microseconds ago |
| `ServerStat.SlotIsFound` | server_stat.c:132-140 | a slot is found while fewer packets than slots were counted in the last 61 seconds |
| `ServerStat.AddKeepsAgreement` | server_stat.c:131-140 | an insertion that finds a slot loses no packet counted now or later |
| `ServerStat.ComputeKeepsAgreement` | server_stat.c:191-202 | clearing a slot loses no packet counted now or later |
| `ServerStat.StatisticsAreExact` | server_stat.c:181-203 | over every run with a clock that does not go back in which each insertion finds a slot, the table gives exactly the traffic of the last second and minute of the whole history |
| `ServerStat.SlowTrafficFits` | server_stat.c:131-140 | with fewer than 10000 packets in any 61 seconds every insertion finds a slot |
| `ServerStat.ClearedSlotsAreReusable` | server_stat.c:198-201 | after a computation the slots of packets a minute old are free, a second before an insertion would take them over |
| `ServerStat.Stat.AddPacket` | server_stat.c:113-140 | the first reusable slot is filled, the totals are counted, and the answer says whether some slot is empty or 61 s old |
| `ServerStat.Stat.ComputeTimedStats` | server_stat.c:181-203 | the four 32-bit results grow by the bytes counted less than 1 and 60 million microseconds ago, by direction, and the older slots are cleared |

## Left out

- Sockets, poll, logging, signals, configuration, SQL, SHA-256 and malloc/free: foreign calls. The clock is an input.
- Interleavings inside one mutex section, and races on the session counter between threads.
- The kick requests: they act on the requester instead of the target, so claims about the target are false.
- The flag request that makes a channel the default one without clearing the others, and deleting a channel that has children, which would keep pointing to it.
- The array of subchannels of a parent: only the child's pointer to its parent is modelled. Deleting a child is a step of the model, but the entry that destroy_channel leaves in the parent's array is not. A child is attached once; as in channel_add_subchannel, nothing keeps a channel from being its own parent or a child from having children.
- PacketSender.Player.HandleAckPacket: works on the player the packet's identifiers name; the search for him is `Server.Server.GetPlayerByIds`, and that it finds the right one is `Sessions.AcksReachTheirSession`.
- PacketSender.Player.ActivePass: works on one session; the notice to the other players is `Broadcast.NotifyPlayerLeft`, the removal `Server.Server.RemovePlayer`, and the whole step `Sessions.Depart`.
- Registrations that change during a session.
- Audio forwarding, ban text, server version fields, the machine name: easy, or without a hard property.
- The other notification builders: they end in the same tail as `SendControl`.
- get_ban_by_id, remove_ban and the ban records: only the identifier scan of add_ban is modelled.
- A packet buffer belongs to one queue element, so `PacketSender` holds it as a value of that element; writing through a peeked pointer is `WriteHead`. The aliasing of a buffer after it was freed is not captured.
- Records of players and channels are values in maps from addresses, which stand for the heap; the lists in `Server` are slot arrays as values, and the methods on a real buffer are those of `SlotArray.Array`.
- ServerInfo.RespPlayers: the source frees its buffer inside the loop, so a second page would be built in freed memory; the model takes a new buffer for each page.
- ServerStat.Stat.AddPacket: the growth of a full table is not modelled, because it writes the size and the direction at different indices; the method only reports that no slot was found.
- ServerPrivileges.SpToBitfield: privileges are 0 or 1; another value read from the database would spill into neighbouring bits.
- Broadcast.NotifyPlayerLeft: takes the active players as a sequence whose queues share no object, instead of reading the server's slot array.
- Ids.ScanUnguarded: only the first byte behind the table is modelled, as an input; the scan has no result if it goes further.
- ChannelCodec.ChannelFromData: what lies past the block is unknown, so a read there has no result.
- Server.Server.AddPlayer: requires a free slot or a byte other than 1 behind the table, since otherwise the source goes on reading memory that is not its own.
- Arrays are bounded by the address space (`HasRoom` with a limit of SIZE_MAX), and channel lists by a 32-bit count.
- Privileges needed for a request, and the acknowledgements and replies sent for it.
