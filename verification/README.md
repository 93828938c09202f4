# PFCP control plane and user plane: a verified model

This project models pfcp-go, a PFCP (3GPP TS 29.244) control plane and user plane in Go, and proves what the pair
guarantees when it runs over a network that loses, reorders and (where stated) copies datagrams.

The model has five parts, and the main theorems go through all of them.

* **Wire codec** (`Bytes`, `InformationElements`, `Headers`, `Messages`, `WireFormat`): the bit-packed header,
  type-length-value elements, groups and whole messages, down to the bytes of each. Slice bounds that Go computes in
  16 bits wrap in the model too, and a Go run-time panic is a result of its own. A message is decoded out of a
  65535-byte receive buffer that may hold stale bytes, because Go bounds a re-slice by capacity and not by length.
* **Rules and state machines** (`Rules`, `RuleTables`, `UserPlane`, `ControlPlane`, `Handlers`): how the control
  plane marshals its rules, how the user plane reads them back into its tables and the mock dataplane, SEID
  allocation, the session calls, the association handlers and the northbound store.
* **Transport and network** (`Transports`, `Network`, then `LocalInvariants`, `Provenance`, `InvariantSteps`,
  `CpTables`, `CpOrder`, `Duplication`, `Deletions`, `Theorems`, `Refinement`): any number of control-plane and
  user-plane nodes as a step system. Each lock region, channel operation and socket operation is one step, and so is
  each store operation; timers, losses, failed writes and shutdown may happen at any time. The peer of a deletion is
  any address, because it is looked up after the session. Datagrams carry bytes, and a node acts on what it decodes
  from them. Each datagram also has a tag that names the call it goes back to, and nodes keep logs of what they did;
  no step reads tags or logs, the theorems do. A control plane may be told to take the remote SEID from the F-SEID
  payload, which the code does not do; statements about the code as written say so.
* **Failing runs** (`Witnesses`, `Failures`): where an expected property fails, a run of the step system that shows
  it.
* **Rule compilation** (`Tokens`, `FlowDescriptions`, `SdfFilters`, `VppDataplane`, `VppUserPlane`): flow text, SDF
  Filter element, parsed filter, the exact VPP punt registrations, and the user plane over VPP. VPP is a list of
  replies.

Imperative code is written as methods and classes proved against specification functions; the step system and the
lemmas use those functions.

Where code and documentation differ, the model follows the code:

* The length field counts element bytes only (pkg/protocol/messages.go:25); section 7.2.2 of TS 29.244 counts
  everything after the first four octets.
* The user plane reads every precedence as zero (pkg/up/handlers.go:39).
* The control plane takes the remote SEID from the echoed header and not from the F-SEID payload (pkg/cp/cp.go:241),
  so every remote SEID is zero and its deletions remove nothing (`Theorems.HeaderSeidsAreZero`,
  `Theorems.UserPlaneOnlyGrows`); what deletions would do by the F-SEID is in `Theorems.DeletionAgreement`.
* The port loop never ends by its own guard when the last port is 65535 (pkg/dataplane/vpp/vpp.go:311); the plan of
  such a rule is `Endless`.

## Model

| member | source | states |
|---|---|---|
| `InformationElements.PanicsExactly` | pkg/protocol/ie.go:37-64 | The decoder panics exactly on a complete element whose length field exceeds 65531, so never on an input the receive loop delivers |
| `InformationElements.DecodesExactly` | pkg/protocol/ie.go:15-64 | Decoding one element yields (element, n) if and only if the element is canonical and its encoding is the first n bytes |
| `InformationElements.ParsesExactly` | pkg/protocol/ie.go:204-235 | Element lists and byte strings up to 65535 bytes correspond one to one: a list is parsed if and only if it is canonical and encodes to those bytes |
| `InformationElements.ParsedGroup` | pkg/protocol/ie.go:220-235 | Parsing a group cannot panic; what it returns re-encodes to the same bytes and takes at least four bytes per element |
| `InformationElements.NeverPanics` | pkg/protocol/ie.go:220-235 | No nested 16-bit bound wraps on inputs up to 65535 bytes |
| `InformationElements.MarshalIE` | pkg/protocol/ie.go:15-35 | The buffer it fills is the element's encoding, whose length field keeps the low 16 bits |
| `InformationElements.UnmarshalIE` | pkg/protocol/ie.go:37-64 | It computes the decoding that DecodesExactly ties to the encoding, errors and panics included |
| `InformationElements.NewGroupedIE` | pkg/protocol/ie.go:204-218 | The group's value is the children's encoding, and parses back to the children when it fits |
| `InformationElements.ParseGroupedIE` | pkg/protocol/ie.go:220-235 | The loop over offsets computes the parse that ParsesExactly characterises |
| `Headers.HeaderRoundTrip` | pkg/protocol/header.go:20-102 | Decoding an encoded header, whatever follows, returns it if and only if version, sequence number and priority fit and absent fields are zero |
| `Headers.EncodedHeaderDecodes` | pkg/protocol/header.go:20-102 | What decoding recovers from any header: low bits of oversized fields, zero for absent ones |
| `Headers.FlagBits` | pkg/protocol/header.go:29-41 | Version and the three flags are kept apart in the first byte |
| `Headers.MessageHeader.Marshal` | pkg/protocol/header.go:20-69 | The 8- or 16-byte buffer is the header's encoding |
| `Headers.MessageHeader.Unmarshal` | pkg/protocol/header.go:71-102 | The receiver's new fields, including fields the bytes do not carry, which keep their old values |
| `Headers.MessageHeader.Len` | pkg/protocol/header.go:104-109 | The length of the encoding |
| `Messages.MessageRoundTrip` | pkg/protocol/messages.go:10-54 | Unmarshal after Marshal, with any stale bytes behind, returns the message with its length set if and only if header and elements are representable and the elements take at most 65535 bytes |
| `Messages.MarshalStable` | pkg/protocol/messages.go:25-31 | Marshalling again gives the same bytes although the first time changed the length field |
| `Messages.StaleBytesIgnored` | pkg/protocol/messages.go:34-54 | A datagram that holds the bytes it announces decodes independently of stale buffer contents and cannot crash |
| `Messages.CrashesExactly` | pkg/protocol/messages.go:39-40 | Decoding crashes exactly when the announced length runs past the receive buffer |
| `Messages.TruncatedDatagramReadsStaleBytes` | pkg/protocol/messages.go:34-54 | For every datagram shorter than it announces and every content of the 65535-byte receive buffer behind it: it decodes to a list of elements if and only if its own bytes and the stale ones behind them encode that list, and crashes if and only if what it announces does not fit in the buffer |
| `Messages.Message.Marshal` | pkg/protocol/messages.go:10-32 | Bytes returned and the one field overwritten |
| `Messages.Message.Unmarshal` | pkg/protocol/messages.go:34-54 | Result and receiver contents for every buffer |
| `Messages.Message.Find` | pkg/protocol/messages.go:56-63 | The first element of the type |
| `Messages.Message.FindAll` | pkg/protocol/messages.go:65-73 | All elements of the type in order |
| `Messages.FindIE` | pkg/protocol/messages.go:56-63 | A result is an element of that type in the list; none exactly when there is none |
| `Messages.FseidCarried` | pkg/protocol/messages.go:176-199 | The establishment response carries the SEID the user plane chose in its F-SEID payload |
| `Messages.AcceptsExactly` | pkg/cp/cp.go:229-237 | A response is accepted if and only if its first element of type 19 has a first byte and that byte is 1 |
| `Messages.FindsFirst` | pkg/protocol/messages.go:56-63 | What lookup finds is the first element of the type, wherever it is |
| `WireFormat.ElementLayout` | pkg/protocol/ie.go:15-35 | Where type, length, enterprise number and value are in the bytes of any element, as big-endian numbers |
| `WireFormat.HeaderLayout` | pkg/protocol/header.go:20-69 | Where each field is in the bytes of any header |
| `WireFormat.ReceiverKeeps` | pkg/protocol/header.go:71-102 | Decoding into a used receiver: the bytes decide every field they carry, the receiver the others |
| `WireFormat.IntegersSpelled` | pkg/protocol/header.go:43-66 | Encoded integers of 16, 24, 32 and 64 bits are their base-256 digits, most significant first |
| `WireFormat.IntegersRead` | pkg/protocol/ie.go:237-256 | Decoded integers are the base-256 numbers at the start of the bytes |
| `WireFormat.ByteElements` | pkg/protocol/ie.go:66-111 | The five bytes of Cause, Source Interface, Destination Interface and Apply Action |
| `WireFormat.NumberElements` | pkg/protocol/ie.go:83-156 | The bytes of PDR ID, FAR ID, QER ID, URR ID, Precedence and Recovery Time Stamp, which spell the number |
| `WireFormat.TextElements` | pkg/protocol/ie.go:73-202 | The bytes of Node ID, with its type byte, and Application ID |
| `WireFormat.GroupTypes` | pkg/protocol/constants.go:1-127 | The numbers of the grouped types and of the other rule elements |
| `WireFormat.IdentifiersRead` | pkg/protocol/ie.go:237-256 | Identifiers are the first two or four bytes as a number, and zero when there are fewer |
| `WireFormat.HeartbeatBytes` | pkg/protocol/messages.go:75-99 | Every byte of a heartbeat request and response, for every number and time stamp |
| `WireFormat.SetupRequestBytes` | pkg/protocol/messages.go:101-113 | Every byte of an association setup request |
| `WireFormat.SetupResponseBytes` | pkg/protocol/messages.go:115-128 | Every byte of an association setup response |
| `WireFormat.ReleaseResponseBytes` | pkg/protocol/messages.go:143-155 | Every byte of an association release response |
| `WireFormat.EstablishmentRequestBytes` | pkg/protocol/messages.go:157-174 | The header of an establishment request, then the groups in the order detection, action, quality, usage |
| `WireFormat.EstablishmentResponseBytes` | pkg/protocol/messages.go:176-199 | Every byte of an establishment response |
| `WireFormat.OtherSessionBytes` | pkg/protocol/messages.go:201-227 | Every byte of a deletion request and response, and of the fixed modification response |
| `Rules.RuleAgreement` | pkg/cp/cp.go:250-405 | For every rule list whose encoding fits, duplicates included, the tables the user plane builds are the projections of the control plane's tables; last duplicate wins, precedence becomes zero; address and flow text arrive as the bytes TS 29.244 gives them |
| `Rules.PdrRoundTrip` | pkg/cp/cp.go:326-376 | One detection rule through both levels of grouping: identifiers, source interface, application, address and flow text are those of the rule |
| `Rules.FarRoundTrip` | pkg/cp/cp.go:378-405 | One action rule through its group; forwarding parameters are dropped |
| `Rules.FindRuleGroups` | pkg/protocol/messages.go:157-174 | An establishment request holds exactly the groups built for it and no Cause |
| `Rules.AddressRecovered` | pkg/protocol/ie.go:158-178 | What the user plane holds of a UE address determines it, among 4-byte and among 16-byte addresses |
| `RuleTables.AddressElement` | pkg/protocol/ie.go:158-178 | The bytes of a UE address: flag 2 and four bytes for IPv4, mapped or not, flag 1 and sixteen for any other IPv6 address |
| `RuleTables.CpPdrMapHolds` | pkg/cp/cp.go:250-252 | Every identifier of a list of detection rules is a key of the table, and its value the last rule with it |
| `RuleTables.CpFarMapHolds` | pkg/cp/cp.go:253-255 | Every identifier of a list of action rules is a key of the table, and its value the last rule with it |
| `RuleTables.PdrTableExactly` | pkg/up/handlers.go:23-66 | For any message: an identifier is in the user plane's table if and only if some Create PDR group parses to a rule with it, and the last such group decides |
| `RuleTables.FarTableExactly` | pkg/up/handlers.go:68-90 | For any message: an identifier is in the user plane's table if and only if some Create FAR group parses to a rule with it, and the last such group decides |
| `RuleTables.PdrFields` | pkg/up/handlers.go:30-62 | For any elements: identifiers from the last PDR ID and FAR ID, zero without one; precedence zero; detection information from all PDI groups |
| `RuleTables.PdiFields` | pkg/up/handlers.go:43-60 | For any elements: the last SDF Filter, UE IP Address, Network Instance and Application ID count |
| `RuleTables.InterfaceRead` | pkg/up/handlers.go:46-49 | For any elements: the last Source Interface that has a byte counts |
| `RuleTables.FarFields` | pkg/up/handlers.go:75-86 | For any elements: the last FAR ID and the last Apply Action that has a byte count |
| `RuleTables.DetectionRuleSent` | pkg/cp/cp.go:326-376 | The group of a detection rule carries its precedence and the identifiers of its quality and usage rules, in order, although nobody reads them |
| `RuleTables.ActionRuleSent` | pkg/cp/cp.go:378-405 | The group of an action rule carries its destination interface, exactly when it has forwarding parameters |
| `RuleTables.IdRulesSent` | pkg/cp/cp.go:407-437 | Each group of a quality or usage rule carries its identifier |
| `UserPlane.LeastFree` | pkg/up/up.go:172-181 | The least positive SEID not in use, at most one more than the number of sessions |
| `UserPlane.AllocSEID` | pkg/up/up.go:172-181 | The search loop with its 64-bit counter ends, if some SEID is free, with the least positive free one, or with zero if zero alone is free |
| `UserPlane.MirrorsAlways` | pkg/up/handlers.go:10-139 | After every run of establishments and deletions, whatever they carry, dataplane tables equal session tables and no other SEID has entries |
| `UserPlane.SessionsOfMakers` | pkg/up/handlers.go:10-139 | The sessions after such a run are those of the requests that made them, whatever the dataplane |
| `UserPlane.EstablishMirrors` | pkg/up/handlers.go:10-104 | Establishment keeps that agreement |
| `UserPlane.DeleteMirrors` | pkg/up/handlers.go:123-139 | Deletion of any SEID keeps that agreement |
| `UserPlane.DeleteUndoesEstablish` | pkg/up/handlers.go:123-130 | Deleting the SEID an establishment chose restores sessions and dataplane |
| `UserPlane.DeleteZero` | pkg/up/handlers.go:123-130 | Deleting SEID zero changes nothing |
| `UserPlane.RepeatedDeletionHitsSuccessor` | pkg/up/handlers.go:123-130 | A deletion processed twice removes the next session, which gets the same SEID |
| `UserPlane.UPFunction.HandleSessionEstablishmentRequest` | pkg/up/handlers.go:10-104 | New sessions and dataplane tables, and the response |
| `UserPlane.UPFunction.HandleSessionDeletionRequest` | pkg/up/handlers.go:123-139 | New sessions and dataplane tables, and the response |
| `UserPlane.UPFunction.InstallPdrs` | pkg/up/handlers.go:23-66 | Rule table and dataplane after the detection rules, skipping groups that do not parse |
| `UserPlane.UPFunction.InstallFars` | pkg/up/handlers.go:68-90 | Rule table and dataplane after the action rules |
| `UserPlane.ReadPdrGroup` | pkg/up/handlers.go:30-62 | The rule a list of elements denotes |
| `UserPlane.ReadPdiGroup` | pkg/up/handlers.go:43-60 | The detection information a list of elements denotes |
| `UserPlane.ReadFarGroup` | pkg/up/handlers.go:75-86 | The action rule a list of elements denotes |
| `UserPlane.MockDataplane.InstallPDR` | pkg/dataplane/mock/mock.go:28-41 | The nested table after the update |
| `UserPlane.MockDataplane.InstallFAR` | pkg/dataplane/mock/mock.go:55-68 | The nested table after the update |
| `ControlPlane.MarshalPDRs` | pkg/cp/cp.go:326-376 | One group per rule, in order, each of which reads back as the projected rule when it fits |
| `ControlPlane.MarshalFARs` | pkg/cp/cp.go:378-405 | One group per rule, in order, each of which reads back as the projected rule when it fits |
| `ControlPlane.MarshalIds` | pkg/cp/cp.go:407-437 | One group per quality or usage rule, with its identifier |
| `ControlPlane.CPFunction.CreateSession` | pkg/cp/cp.go:192-272 | A request goes to the address associated with the node, up to RetransmitN1 times, exactly when there is one; the call succeeds exactly on an accepting response; then table and store gain one session, under the SEID returned, for that node, with the response's header SEID, and with every rule listed, the last of an identifier winning; a failed call leaves both alone |
| `ControlPlane.CPFunction.DeleteSession` | pkg/cp/cp.go:274-316 | A request with the stored remote SEID goes to the address of the session's node exactly when both are known; the call succeeds exactly on an accepting response; then table and store lose that session and no other; a failed call leaves both alone |
| `ControlPlane.CPFunction.HandleAssociationSetupRequest` | pkg/cp/handlers.go:11-45 | New associations and the response, which echoes the request's number; a panic exactly on an empty Node ID value with a time stamp |
| `ControlPlane.CPFunction.HandleAssociationReleaseRequest` | pkg/cp/handlers.go:47-66 | New associations and the response, which echoes the request's number; a panic exactly on an empty Node ID value |
| `ControlPlane.MemoryStore.ListSessions` | pkg/cp/northbound.go:38-44 | Every stored SEID exactly once |
| `Handlers.HandledTypes` | pkg/up/up.go:127-132 | The message types each side has a handler for |
| `Handlers.SetupAssociates` | pkg/cp/handlers.go:11-45 | For every Node ID: exactly that name leads to the sender afterwards; nothing else changes; the answer accepts, with the control plane's own name and time stamp and the request's number |
| `Handlers.ReleaseDissociates` | pkg/cp/handlers.go:47-66 | For every Node ID: exactly that name is gone afterwards; nothing else changes; the answer accepts |
| `Handlers.NeglectedExactly` | pkg/cp/handlers.go:11-66 | The exact conditions under which an association request is ignored, panics, or is answered |
| `Handlers.SetupThenRelease` | pkg/cp/handlers.go:11-66 | The user plane's own setup request associates the name it gives; releasing that name undoes it |
| `Handlers.SessionRequests` | pkg/up/handlers.go:10-139 | Every session request is accepted with its number and SEID echoed; establishment adds one session under the least free SEID, which the answer announces; deletion removes the one it names; modification changes nothing |
| `Handlers.HeartbeatAnswered` | pkg/up/handlers.go:140-144 | A heartbeat changes nothing and is answered with the node's own time stamp |
| `Transports.SeqAdvances` | pkg/protocol/transport.go:198-207 | The numbers start at 1 and go up by one, 1 after 0xFFFFFF: never zero, always 24 bits |
| `Transports.SeqDistinct` | pkg/protocol/transport.go:198-207 | Any 0xFFFFFF consecutive numbers are pairwise distinct |
| `Transports.SeqRecurs` | pkg/protocol/transport.go:198-207 | The numbers recur after 0xFFFFFF draws |
| `Transports.Transport.NextSeqNum` | pkg/protocol/transport.go:198-207 | The counter code draws those numbers |
| `Transports.AwaitedExactly` | pkg/protocol/transport.go:106-126 | Closed form of the waiting loop, in both directions: i retransmissions and a given outcome if and only if the first i events are timers within the limit and the next one is the response, the shutdown, or a timer that meets the limit or a failing socket |
| `Transports.AwaitedBound` | pkg/protocol/transport.go:99-126 | At most max(1, maxRetries) transmissions, exactly that many when giving up |
| `Transports.Transport.SendRequest` | pkg/protocol/transport.go:79-127 | The message gets the number drawn, every other header field but the length and all elements stay; each datagram sent decodes to exactly that message, whatever the receive buffer holds, if the message is transmissible; outcome and transmissions as characterised by AwaitedExactly; on every way out the call's key, that number, is gone and no other is touched |
| `Transports.Transport.Transmit` | pkg/protocol/transport.go:99-126 | The loop has the outcome and the number of transmissions that AwaitedExactly characterises, for any sequence of events and any failing write |
| `Transports.Transport.HandleMessage` | pkg/protocol/transport.go:176-196 | Handed to the waiter, handled or dropped, with the exact condition of each; no other waiter is touched |
| `LocalInvariants.LocalStep` | pkg/protocol/transport.go:79-207 | Every step keeps the numbering of calls, the transmission counts, the number behind each pending key and the accounting of received messages |
| `LocalInvariants.LeaveRemovesOwnKey` | pkg/protocol/transport.go:93-97 | Returning removes the call's own key and no other |
| `LocalInvariants.ShortLivesDoNotClash` | pkg/protocol/transport.go:198-207 | Fewer than 0xFFFFFF draws in a request's life keep numbers in flight distinct |
| `Theorems.PendingTableSafety` | pkg/protocol/transport.go:79-127 | In every such run each pending key has exactly one owner in flight and each registered request its key |
| `Theorems.RegistrationKeepsOwnership` | pkg/protocol/transport.go:89-91 | Registration keeps that if and only if no registered request has the same number |
| `Theorems.MessagesAccountedFor` | pkg/protocol/transport.go:106-196 | In every run: each message received is handed over, handled or dropped, once; a waiter only gets messages with its number; transmissions stay within the limit |
| `Theorems.AnswerIsFinal` | pkg/protocol/transport.go:106-112 | In every run a call consumes one message: its answer, once set, never changes |
| `Theorems.HandlersNeverPanic` | pkg/cp/handlers.go:11-66 | In every run no handler panics, because no Node ID in transit is empty |
| `Theorems.AcceptedAnswerOrigin` | pkg/protocol/transport.go:176-187 | In every run, whatever a call accepted answers a request of the same node with the same number, and comes from the peer which that request addressed |
| `Theorems.NoFalseAcceptance` | pkg/protocol/transport.go:176-187 | So it answers the call's own request if no other request of the node was given the same number |
| `LocalInvariants.OwnUntilWrap` | pkg/protocol/transport.go:198-207 | The proviso holds for every request among the first 0xFFFFFF of a node |
| `Failures.FalseAcceptance` | pkg/protocol/transport.go:176-207 | Without it the property fails: a run in which a create call accepts the answer to a request made 0xFFFFFF draws earlier, although the user plane has made no session for it |
| `Theorems.AcceptedCreateAgrees` | pkg/cp/cp.go:223-264 | With a number of its own, an accepted CreateSession means that the peer it addressed has logged a session made for that very call, named by the response's F-SEID, whose tables in user plane and dataplane, while it is in use, are the projections of the call's rules; as the code is written it is still in use |
| `Theorems.TwinsDiffer` | pkg/up/up.go:172-181 | Different create calls answered by one peer have different sessions there, and different F-SEIDs while both are in use |
| `Theorems.SessionsHaveTwins` | pkg/cp/cp.go:239-265 | In every run every session in a control plane's table has the node, SEIDs and rules of its create call, and the user-plane session described above at the peer that call addressed; while that one is in use its tables are the projections of the control-plane session's own; until the SEID counter wraps and if accepted calls have numbers of their own |
| `Theorems.BoundedDuplication` | pkg/protocol/transport.go:99-124 | Over a network that does not copy, one create call makes user planes create at most max(1, RetransmitN1) sessions, all at its destination and with the same tables; no other call makes any |
| `Theorems.CreateBegins` | pkg/cp/cp.go:192-224 | CreateSession begins one call, with the rules it is given, for the address associated with the node it is given, with limit RetransmitN1 |
| `Theorems.CallWasBegun` | pkg/cp/cp.go:192-292 | In every run every call goes back to an earlier state that prescribes its address, limit and contents |
| `Theorems.LimitsOfCalls` | pkg/cp/cp.go:181-292 | In every run session calls have limit RetransmitN1 and all others three |
| `Refinement.WaitsAlike` | pkg/protocol/transport.go:103-126 | For every sequence of events a waiting call of the step system retransmits as often, ends the same way and with the same response as the sequential loop |
| `Refinement.TransmissionsCounted` | pkg/protocol/transport.go:99-124 | A step of a call puts its request on the network exactly when it counts a transmission |
| `Refinement.HandedAlike` | pkg/protocol/transport.go:176-187 | The receive loop of the step system gives a message with a pending number to that waiter alone, or drops it |
| `Refinement.HandledAlike` | pkg/protocol/transport.go:189-196 | It handles any other message if there is a handler for its type, and drops it otherwise |
| `Theorems.ControlPlaneTables` | pkg/cp/cp.go:192-324 | Over every interleaving, until the SEID counter wraps: the table holds exactly the sessions created and not deleted, under positive keys below the next SEID that are the sessions' own; with no call between its two updates the store has every session of the table, unchanged |
| `Theorems.StoreAgreesExactly` | pkg/cp/cp.go:263-313 | With no call between its two updates, the store has a session that the table lacks if and only if a deletion of it is done and every such deletion updated the store before the create call did; table and store are equal if and only if there is no such session |
| `CpOrder.LeaksExactly` | pkg/cp/cp.go:263-313 | That equivalence in one state |
| `CpOrder.OrderStep` | pkg/cp/cp.go:263-313 | Every step keeps the store what the order of store updates makes of it |
| `Failures.EarlyDeletionLeaks` | pkg/cp/cp.go:263-313 | A run in which a deletion starts before its create call has returned and leaves the session in the store |
| `Theorems.StoreAgrees` | pkg/cp/cp.go:263-313 | What callers can do about it: if they delete only SEIDs that CreateSession has returned, store and table are equal whenever no call is between its two updates |
| `CpTables.CpStep` | pkg/cp/cp.go:263-313 | Every step keeps: the table is what was created and not deleted, entries of table and store come from their create call, what was returned and not erased is in the store |
| `CpTables.PatientStep` | pkg/cp/cp.go:274-313 | Every step but the start of a deletion on a SEID not yet returned keeps erasing final |
| `CpOrder.RemovalsStep` | pkg/cp/cp.go:274-291 | Every step keeps: a deletion carries the remote SEID that the control plane took from the answer to the create call of its session |
| `CpTables.OnlyAcceptedCallsWrite` | pkg/cp/cp.go:229-313 | No step but those of an accepted call writes table or store |
| `Theorems.HeaderSeidsAreZero` | pkg/cp/cp.go:223-241 | In every run of the code as written every header SEID in transit and every stored remote SEID is zero, and zero is no session's key |
| `Theorems.UserPlaneOnlyGrows` | pkg/up/handlers.go:123-130 | So no step of such a run removes or changes a user-plane session or its dataplane tables |
| `Theorems.DeletionAgreement` | pkg/cp/cp.go:239-291 | Were the remote SEID taken from the F-SEID payload: in every orderly run deletions remove only the sessions they are meant for if and only if a deletion of a session of which one was processed before always finds its SEID free; and then the user plane has lost exactly the sessions of which a deletion was processed |
| `Theorems.DeletionsOnce` | pkg/up/handlers.go:123-130 | In particular, if each session's deletion is processed at most once, it removes exactly the session the create call was told of, and no other session is ever removed |
| `Failures.DeletionHitsAnother` | pkg/up/handlers.go:123-130 | A run of that variant in which each deletion request is processed once, two of them are of one session, and the second removes the session of another create call |
| `Provenance.RequestTransmissible` | pkg/protocol/messages.go:75-212 | Every request with a drawn number that fits in a datagram survives the wire |
| `Provenance.ReplyTransmissible` | pkg/up/handlers.go:96-143 | Every reply that fits survives the wire, echoes the request's number and has the type after it |
| `Provenance.RequestShape` | pkg/protocol/messages.go:75-212 | No request carries a Cause |
| `InvariantSteps.ReceiveDecodes` | pkg/protocol/transport.go:156-170 | Receiving a datagram in transit recovers what was marshalled, whatever the buffer held |
| `InvariantSteps.RunInv` | pkg/protocol/transport.go:79-196 | In every run every message anywhere is some call's request or an answer to it, and every user-plane session goes back to a request with its rules |
| `Duplication.RunCopies` | pkg/protocol/transport.go:99-124 | Copies of a request in transit, in a receive loop and in a session log never outnumber its transmissions |
| `FlowDescriptions.FlowRoundTrip` | pkg/dataplane/vpp/sdf_parser.go:102-157 | Parsing a printed description recovers every part |
| `FlowDescriptions.CanonicalText` | pkg/dataplane/vpp/sdf_parser.go:102-184 | Every accepted text has a canonical text that parses to the same filter |
| `FlowDescriptions.OnlyTokensMatter` | pkg/dataplane/vpp/sdf_parser.go:103-154 | The result depends on the first eight tokens alone, apart from the stored text |
| `Tokens.FieldsOfJoin` | pkg/dataplane/vpp/sdf_parser.go:103 | Splitting undoes joining |
| `Tokens.FieldsOfSpaced` | pkg/dataplane/vpp/sdf_parser.go:103 | Splitting recovers the tokens whatever white space is between and around them |
| `Tokens.SpacesExactly` | pkg/dataplane/vpp/sdf_parser.go:103 | White space is exactly the UTF-8 encodings of the Unicode White_Space characters |
| `FlowDescriptions.FlowExactly` | pkg/dataplane/vpp/sdf_parser.go:102-157 | A text parses to a filter if and only if its tokens describe that filter |
| `FlowDescriptions.ProtocolExactly` | pkg/dataplane/vpp/sdf_parser.go:114-132 | A token is a protocol if and only if it spells tcp, udp, icmp, icmpv6 or ip, in any case, for 6, 17, 1, 58 or 0, or is a decimal below 256, for that number |
| `FlowDescriptions.PortsExactly` | pkg/dataplane/vpp/sdf_parser.go:159-184 | A token is a port range if and only if it is one decimal below 65536, or two with a dash between |
| `FlowDescriptions.PrintedParses` | pkg/dataplane/vpp/sdf_parser.go:127-180 | Decimal parsing inverts printing for every number |
| `FlowDescriptions.NumberedProtocol` | pkg/dataplane/vpp/sdf_parser.go:114-132 | A decimal protocol below 256 is read as that number, never as a name |
| `FlowDescriptions.PortsRoundTrip` | pkg/dataplane/vpp/sdf_parser.go:159-184 | Ranges and single ports are recovered |
| `FlowDescriptions.ParsePortRange` | pkg/dataplane/vpp/sdf_parser.go:159-184 | The two fields assigned are the ports the text denotes, and an error exactly when it denotes none |
| `FlowDescriptions.ParseFlowDescription` | pkg/dataplane/vpp/sdf_parser.go:102-157 | The step-by-step code returns a filter exactly when the tokens describe it, protocol names in any case included |
| `SdfFilters.CutsExactly` | pkg/dataplane/vpp/sdf_parser.go:26-97 | The fields are found at their running offsets if and only if the bytes start with them |
| `SdfFilters.SdfRoundTrip` | pkg/dataplane/vpp/sdf_parser.go:26-100 | Decoding inverts a reference encoder for every combination of fields, whatever follows; the flow label keeps 20 bits |
| `SdfFilters.SdfLayout` | pkg/dataplane/vpp/sdf_parser.go:26-100 | The bytes of that reference encoder, field by field |
| `SdfFilters.DecodesExactly` | pkg/dataplane/vpp/sdf_parser.go:26-100 | Decoding succeeds if and only if the bytes hold every flagged field and any flow text parses |
| `SdfFilters.ParseSDFFilter` | pkg/dataplane/vpp/sdf_parser.go:26-100 | The code with its running offset computes that decoding |
| `SdfFilters.ParseNumbers` | pkg/dataplane/vpp/sdf_parser.go:66-99 | The fields after the flow text, or an error when they do not fit |
| `VppDataplane.FlowCompiles` | pkg/dataplane/vpp/vpp.go:294-334 | A flow text with any spelling of tcp or udp, or the number of TCP, UDP or SCTP, to ports a..b compiles, through element and decoded rule, to one registration per port, ascending, with protocol and address family; none if a > b; last port 65535 is endless |
| `VppDataplane.ProtocolFlowCompiles` | pkg/dataplane/vpp/vpp.go:336-366 | A flow text without ports, or with a protocol that has none, compiles to one registration of the protocol |
| `VppDataplane.ApplicationCompiles` | pkg/dataplane/vpp/l2_filters.go:11-41 | A rule with an application ID is a layer-2 rule if and only if the ID is one of the six known ones |
| `VppDataplane.NoPlanExactly` | pkg/dataplane/vpp/vpp.go:275-297 | A rule without application ID asks for nothing if and only if its text describes no filter |
| `VppDataplane.ForwardBit` | pkg/dataplane/vpp/vpp.go:119 | A rule forwards if and only if bit 1 of its apply action is set |
| `VppDataplane.SdfElementDecodes` | pkg/protocol/ie.go:180-195 | The element built from a text decodes to the filter of the text |
| `VppDataplane.Vpp.PuntPorts` | pkg/dataplane/vpp/vpp.go:311-334 | The ports asked for are successive 16-bit numbers; all but the last were granted; a good end means exactly a..b; a refusal stops there |
| `VppDataplane.SuccessivePorts` | pkg/dataplane/vpp/vpp.go:311-334 | Each port asked for is one more than the one before, and zero follows 65535 |
| `VppDataplane.Vpp.ConfigurePuntForPDR` | pkg/dataplane/vpp/vpp.go:275-397 | A marked rule is not programmed again; otherwise its plan is carried out and the rule marked exactly when that ends well |
| `VppDataplane.Vpp.InstallPDR` | pkg/dataplane/vpp/vpp.go:65-83 | The session table after the update; marks stay justified if and only if the rule is not marked or its mark holds of the new rule too |
| `VppDataplane.Vpp.InstallFAR` | pkg/dataplane/vpp/vpp.go:106-131 | With bit 1 of the apply action set, success leaves every referring rule marked and only referring rules are newly marked; with the bit clear nothing is asked for and no mark changes; every mark stays justified, in any iteration order |
| `VppDataplane.Vpp.DeleteSession` | pkg/dataplane/vpp/vpp.go:169-191 | The table after the update |
| `VppUserPlane.UPFunction.HandleSessionEstablishmentRequest` | pkg/up/handlers.go:10-104 | With VPP as the dataplane: session and response as with any dataplane, whatever VPP grants; VPP's tables mirror the sessions; other sessions are untouched; while VPP does not answer, no session and no response |
| `VppUserPlane.UPFunction.HandleSessionDeletionRequest` | pkg/up/handlers.go:123-139 | The session is gone and VPP's tables still mirror the rest |
| `VppUserPlane.UPFunction.Serve` | pkg/up/handlers.go:10-139 | After any run of requests, the sessions are those of the requests served; every SEID chosen was free in VPP; a marked rule is one of the request that made its session, that request has an action rule it refers to with bit 1 of the apply action set, and VPP has granted its whole punt set, also while VPP does not answer |
| `VppUserPlane.SameAsMock` | pkg/dataplane/mock/mock.go:28-68 | VPP's tables are those the mock dataplane would hold after the same requests, but for sessions without a detection rule |

## Left out

- Sockets, contexts, wait groups and real time: datagrams form a multiset and timers are steps that may happen at any time.
- `UserPlane.UPFunction.HandleSessionEstablishmentRequest`: assumes fewer than 2^64 - 1 sessions, because beyond that the user plane hands out SEID zero; `UserPlane.AllocSEID` covers that case.
- `Theorems.StoreAgrees`: the condition on callers is sufficient and not necessary; `Theorems.StoreAgreesExactly` is the exact condition.
- `Theorems.PendingTableSafety`: assumes fewer than 0xFFFFFF draws during any request's life; `Theorems.RegistrationKeepsOwnership` is the exact condition for one registration.
- `Theorems.DeletionAgreement`: orderly means that control planes have SEIDs left, create calls have numbers of their own and deletions are addressed to where the session was created; the code looks the address up again and does not see to the last.
- The northbound store has no lock of its own: the model takes each of its operations as one step, because what unsynchronised map updates do is not defined.
- A handler that panics does not move on in the model, where the code would end the process; `Theorems.HandlersNeverPanic` shows that no run gets there.
- Elements are values: UnmarshalIE returns a new element where the source fills in a new receiver.
- The session call methods see one caller; what concurrent callers do is in the step system, whose updates they share.
- The step system runs each handler as one step, because handlers run one at a time inside the receive loop of their node.
- Lower case of characters that are not ASCII: only U+0130 matters, which Go lowers to a letter of a protocol name; the others stand for themselves.
- net.IP parsing: addresses are byte sequences of any length.
- QER and URR contents, QER and URR dataplane tables, session modification beyond its fixed reply, session report and punt deregistration: stubs in the source.
- Association details other than the address, heartbeat and recovery times: stored, but no decision depends on them.
- A missing northbound store: the store is always present.
- The dataplane's RemovePDR, RemoveFAR and GetSessionRules: nothing calls them.
- VPP message contents, classify tables and error texts: foreign calls.
- gRPC server, command-line programs and container files: plumbing.
