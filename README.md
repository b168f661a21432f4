# h-box core, modelled in Dafny

h-box connects UPnP home networks over XMPP. Each hbox runs four parts around one
orchestrator:

- a UPnP control point (`upnp_client`) that discovers the devices of its own network;
- an XMPP client (`xmpp_client`) that talks to the other hboxes in the user's roster;
- a UPnP server (`upnp_server`) that publishes the devices of other hboxes as embedded
  devices of one virtual root device;
- TCP relays (`tcp_proxy_server`, `tcp_connection`) that forward a local port to the
  real device behind a peer hbox.

The orchestrator (`hbox`) reads events from three blocking queues. It keeps its own
`hbox_info`, with the local devices, and one `hbox_info` per peer. It hands out relay
ports from 54400 upwards and sends events on to the other components.

This project models that core.

- **Objects with fields updated in place are classes.** These are `event`,
  `blocking_queue`, `upnp_device`, `hbox_info`, the relay server and connection, the
  UPnP server, the control point and the orchestrator. Each class method is proved
  against a function of the old state.
- **The orchestrator's handlers are pure transition functions** (`HboxSpec`). Each takes
  the orchestrator's view to its next view. `None` marks a run the source leaves
  undefined: a NULL `hbox_info` or `upnp_device` is dereferenced, or an exception is
  thrown and never caught.
- **The string work is functions with loop-carrying methods.** This covers the
  `|`-separated payloads, `communication_info`'s text form, the SCPD address fix-up, the
  aggregate description, `fixResourceURL`, `search_and_replace` and `changeUDN`.
- **Properties proved** include:
  - round trips: payload encode/decode, `communication_info` text, XMPP send/receive,
    port numbers through `lexical_cast`/`atoi`;
  - the invariant `Good` that every dispatch round keeps: peer names are distinct and
    every relay port lies below `maxPort`;
  - freshness of every relay port handed out;
  - the event bursts that handlers send;
  - idempotence of repeated announcements and of the SCPD fix-up;
  - round-robin assignment of connections to worker services.

## Model

| member | source | states |
|---|---|---|
| Events.LevelsComplement | include/event.hh:86-93 | an event is hbox-level exactly when it is not UPnP-level |
| Events.EventObject.Default | include/event.hh:53-55 | the default event is hbox-level with empty command, name and description |
| Events.EventObject.constructor | include/event.hh:65 | the getters return the four constructor arguments |
| Events.EventObject.SetCommand | include/event.hh:79 | only the command changes |
| Events.EventObject.SetUpnpInfo | include/event.hh:100 | only the level changes, and `isUpnpInfo` returns the argument |
| Events.EventObject.SetHboxInfo | include/event.hh:107 | the level becomes the negation of the argument; `isHboxInfo` returns the argument |
| Events.EventObject.SetName | include/event.hh:121 | only the name changes |
| Events.EventObject.SetDescription | include/event.hh:135 | only the description changes |
| Queues.BlockingQueue.constructor | include/threadsafe_queue.hh:44 | a new queue is empty |
| Queues.BlockingQueue.Push | include/threadsafe_queue.hh:57-60 | the element joins the back; the count of pushes grows by one |
| Queues.BlockingQueue.Pop | include/threadsafe_queue.hh:63-70 | a non-empty queue yields its front and drops it; an empty one leaves the caller's value and the queue untouched |
| Queues.BlockingQueue.Size | include/threadsafe_queue.hh:73-75 | the size is the number of elements, which is pushes minus pops |
| Queues.PushTwicePopTwice | include/threadsafe_queue.hh:57-70 | two pushes then two pops return the two elements in FIFO order and leave the queue empty |
| Strings.Find | src/upnpserver.cc:349 | `std::string::find`: the first occurrence at or after `from`, or none at all |
| Strings.IndexOf | src/upnpclient.cc:223 | the first position of a character present in the text |
| Strings.SplitFirst | src/hbox.cc:416-421 | splitting at the first separator gives the parts before and after it; without one, both parts are the whole text (`substr(0, npos)` and `substr(npos + 1)`) |
| Strings.SplitFirstOf | src/hbox.cc:449-451 | a head without the separator is recovered exactly |
| Strings.ThreeFields | src/hbox.cc:527-533 | without a separator, all three fields are the whole text |
| Strings.ThreeFieldsOf | src/hbox.cc:568-574 | `a|b|c` with `a` and `b` free of separators splits back into `a`, `b`, `c` |
| Strings.Split | src/hbox.cc:633 | `boost::split` yields at least one field, and no field holds the separator |
| Strings.JoinSplit | src/upnpclient.cc:74 | joining the fields of a split gives back the text |
| Strings.SplitJoin | src/upnpserver.cc:306 | splitting the join of separator-free fields gives back the fields |
| Strings.NatToString | src/hbox.cc:358 | the decimal text of a number is non-empty and all digits |
| Strings.IntToStringChars | src/hbox.cc:474 | the decimal text of a port holds no character other than digits and `-`, so no `|` |
| Strings.AtoiIntToString | src/hbox.cc:535 | `atoi` reads back every port number written by `lexical_cast` |
| Seqs.FirstIndex | src/hbox.cc:697-700 | the first position holding the element, or none exactly when it is absent |
| Seqs.RemoveAt | src/hboxinfo.cc:56-70 | erasing the element at `k` shifts the later elements down by one |
| Seqs.RemoveFirstFromDistinct | src/hboxinfo.cc:56-70 | erasing the first occurrence from a distinct list removes the element entirely |
| ActionPayloads.EncodePairs | src/upnpclient.cc:106-111 | arguments flattened as name, value, name, value |
| ActionPayloads.DecodePairs | src/upnpclient.cc:95-97 | reading from `from` two fields at a time yields one pair per two fields; an odd field left over is an error |
| ActionPayloads.DecodeEncode | src/upnpserver.cc:337-338 | decoding after any prefix returns exactly the encoded arguments |
| ActionPayloads.RequestFields | src/upnpserver.cc:77-108 | splitting an action request recovers UDN, action and argument fields |
| ActionPayloads.ResponseFields | src/upnpclient.cc:91-122 | splitting a response recovers UDN, action, `true`/`false` and the output fields |
| CommInfos.Field | src/hboxinfo.cc:107-115 | a `key=value;` field: the value up to the next `;`, and where that `;` is |
| CommInfos.Parse | src/hboxinfo.cc:104-131 | the parsed record is HIP-consistent and has no LSI, relay or capability |
| CommInfos.ParseShaped | src/hboxinfo.cc:104-131 | parsing text of the `toString` shape returns its IP and HIT fields |
| CommInfos.ParseToString | src/hboxinfo.cc:171-178 | round trip: parsing `toString` returns the advertised IP, the HIT, and `isHip` exactly when the HIT is non-empty |
| CommInfos.Copy | src/hboxinfo.cc:138-149 | the copy constructor copies every field except the LSI, and recomputes `isHip` from the HIT |
| CommInfos.Assign | src/hboxinfo.cc:156-169 | assignment copies likewise but keeps the target's LSI |
| CommInfos.AssignIsCopyKeepingLsi | src/hboxinfo.cc:156-169 | assignment equals copy construction with the target's LSI kept |
| CommInfos.SettersDoNotRestoreHip | include/hboxinfo.hh:78-84 | the raw setters can break HIP consistency, and assignment restores it |
| CommInfos.AssociateHip | src/hboxinfo.cc:186-218 | association succeeds exactly when the peer has a HIT and an IP and the system reports an LSI; only then is the LSI recorded |
| Devices.UnnamedService | include/upnpdevice.hh:49-51 | the one-argument `upnp_service` has an empty name and the given description |
| Devices.AddServiceKeepsNamesDistinct | include/upnpdevice.hh:131-136 | adding a service prepends it when its name is new and otherwise leaves the list alone; names stay distinct |
| Devices.RemoveServiceRemovesName | include/upnpdevice.hh:138-145 | removing a present service takes out its name and shortens the list by one |
| Devices.NewDevice | include/upnpdevice.hh:91-99 | a new device is INIT, unnamed, portless, with no services and no relay |
| Devices.UpnpDevice.constructor | include/upnpdevice.hh:91-99 | the object holds `NewDevice(description)` |
| Devices.UpnpDevice.Start | include/upnpdevice.hh:127-129 | only the state changes, to READY |
| Devices.UpnpDevice.SetState | include/upnpdevice.hh:107 | only the state changes |
| Devices.UpnpDevice.SetIpAddress | include/upnpdevice.hh:109 | only the IP address changes |
| Devices.UpnpDevice.SetRemotePort | include/upnpdevice.hh:111 | only the remote port changes |
| Devices.UpnpDevice.SetLocalPort | include/upnpdevice.hh:113 | only the local port changes |
| Devices.UpnpDevice.SetMediaServer | include/upnpdevice.hh:115 | only the media-server flag changes |
| Devices.UpnpDevice.SetServer | include/upnpdevice.hh:117 | only the relay listener changes |
| Devices.UpnpDevice.SetDeviceName | include/upnpdevice.hh:119 | only the name changes |
| Devices.UpnpDevice.SetDeviceDescription | include/upnpdevice.hh:122 | only the description changes |
| Devices.UpnpDevice.AddUpnpService | include/upnpdevice.hh:131-136 | the services become `AddService` of the old ones |
| Devices.UpnpDevice.RemoveUpnpService | include/upnpdevice.hh:138-145 | the services become `RemoveService` of the old ones |
| Devices.UpnpDevice.Destroy | include/upnpdevice.hh:101-103 | the destructor releases the relay listener the device held |
| Registry.FindDevice | src/hboxinfo.cc:78-84 | the first device with the name, or none exactly when no device has it |
| Registry.FindDeviceIs | src/hboxinfo.cc:78-84 | a named device with no earlier namesake is the one found |
| Registry.RemoveDeviceDropsFirstOnly | src/hboxinfo.cc:56-70 | removal drops exactly the first device with the name, or nothing when there is none |
| Registry.HboxInfo.constructor | src/hboxinfo.cc:32-34 | a new `hbox_info` is INIT, with default communication information, no devices and no name |
| Registry.HboxInfo.SetState | include/hboxinfo.hh:116 | only the state changes |
| Registry.HboxInfo.SetName | include/hboxinfo.hh:120 | only the name changes |
| Registry.HboxInfo.SetCommInfo | include/hboxinfo.hh:118 | the communication information is assigned with `operator=` semantics and stays HIP-consistent |
| Registry.HboxInfo.AddUpnpDevice | src/hboxinfo.cc:46-48 | the device goes to the front of the list |
| Registry.HboxInfo.FindUpnpDevice | src/hboxinfo.cc:78-84 | returns the first device with the name, NULL (`None`) when there is none |
| Registry.HboxInfo.Contains | include/hboxinfo.hh:128-133 | true exactly when a device has the name |
| Registry.HboxInfo.RemoveUpnpDevice | src/hboxinfo.cc:56-70 | returns whether a device had the name; exactly the first such device is deleted, which releases its relay listener, and leaves the list |
| Registry.HboxInfo.DeleteAt | src/hboxinfo.cc:64-65 | the device at the position has no listener any more and is gone from the list; the other devices and their views are untouched |
| Registry.HboxInfo.DeviceIndex | src/hboxinfo.cc:78-84 | the loop finds the position `FindDevice` names |
| Registry.HboxInfo.Destroy | src/hboxinfo.cc:41-44 | the destructor deletes every device, releasing each one's relay |
| ProxyServer.Rotate | src/proxyserver.cc:36-38 | `r` round-robin turns leave the pool's length unchanged |
| ProxyServer.RotateIsSplit | src/proxyserver.cc:36-38 | after `r` turns the pool is its suffix from `r mod n` followed by its prefix, so `r mod n` is at the front |
| ProxyServer.TcpProxyServer.constructor | src/proxyserver.cc:26-33 | keeps the listening port and forward address, and prepares the first connection on the pool's second service |
| ProxyServer.TcpProxyServer.HandleAccept | src/proxyserver.cc:44-50 | on success the pending connection starts and the next one is prepared; on error accepting stops |
| ProxyServer.RoundRobin | src/proxyserver.cc:35-42 | the `k`-th accepted connection runs on pool service `(k + 1) mod n` and forwards to the configured address |
| ProxyServer.PoolIsPermuted | src/proxyserver.cc:37-38 | rotating keeps the pool a permutation of the original |
| ProxyServer.AlternatingAccepts | src/proxyserver.cc:35-50 | with two services, three accepts alternate between them, starting on the second |
| ProxyConnection.TcpConnection.constructor | src/proxyconnection.cc:31-40 | a new connection has fresh buffers, both sockets constructed but not open, nothing pending, and no server link |
| ProxyConnection.TcpConnection.Start | src/proxyconnection.cc:46-52 | the first client read is issued on the client socket the accept opened |
| ProxyConnection.TcpConnection.HandleClientReadData | src/proxyconnection.cc:60-68 | the read bytes are in the client buffer; they go to the server at once when the link is open, and a resolve starts otherwise; on error both sockets close |
| ProxyConnection.TcpConnection.StartConnect | src/proxyconnection.cc:145-160 | without a server link a resolve is pending; with one, the write is |
| ProxyConnection.TcpConnection.HandleResolve | src/proxyconnection.cc:179-192 | success starts connecting to the first endpoint, which opens the server socket; failure shuts down |
| ProxyConnection.TcpConnection.HandleConnect | src/proxyconnection.cc:200-219 | success opens the link, with the server socket open, and writes the buffered request; failure closes the server socket and reconnects to the next endpoint, which opens it again; with no endpoint left both sockets close |
| ProxyConnection.TcpConnection.StartForwardToServer | src/proxyconnection.cc:166-171 | a write of the first `len` buffered bytes is pending |
| ProxyConnection.TcpConnection.HandleServerWrite | src/proxyconnection.cc:76-88 | success reads the server's answer with a full buffer; failure shuts down |
| ProxyConnection.TcpConnection.HandleServerReadData | src/proxyconnection.cc:96-109 | the answer is written back to the client, and end of file marks the proxy closed; other errors shut down |
| ProxyConnection.TcpConnection.HandleClientWrite | src/proxyconnection.cc:117-134 | after the answer is written the server is read again, or after end of file the exchange ends; failure shuts down |
| ProxyConnection.TcpConnection.Shutdown | src/proxyconnection.cc:136-139 | both sockets are closed and nothing is pending |
| ProxyConnection.OneExchange | src/proxyconnection.cc:46-134 | a request and an answer travel through a connection and end with both buffers holding them |
| ProxyConnection.RetriedConnect | src/proxyconnection.cc:200-219 | after a refused first endpoint the retry succeeds and the request is written on an open server socket |
| Xmpp.OnMessage | src/xmppclient.cc:109-133 | an event is sent to the peer it names, with its description as body |
| Xmpp.HandleMessage | src/xmppclient.cc:272-310 | a message with a known subject becomes an event named after the sender, with its body as description |
| Xmpp.OnMessageSends | src/xmppclient.cc:109-133 | an event is sent exactly when it is one of the eight sendable kinds |
| Xmpp.SendReceive | src/xmppclient.cc:272-310 | what one hbox sends, the other receives as the same command, level and description |
| Xmpp.ReceiveSend | src/xmppclient.cc:109-133 | every received message is what its event would be sent as |
| Xmpp.PresenceMeaning | src/xmppclient.cc:366-379 | `Available` exactly for 0, and `Something is wrong` exactly outside 0..8 |
| Xmpp.HandleRosterPresence | src/xmppclient.cc:228-243 | an available peer becomes an hbox-level NEW, any other presence a DEL, named by its JID |
| Xmpp.StanzaErrorMeaning | src/xmppclient.cc:330-358 | every code in 0..24 has a non-empty text |
| ControlPoint.IsMediaServer | src/upnpclient.cc:220-230 | true exactly when the device type contains `MediaServer` |
| ControlPoint.MediaServerNetInfo | src/upnpclient.cc:232-245 | the network information is `host|port` |
| ControlPoint.MediaServerNetInfoOf | src/upnpclient.cc:234-244 | for `scheme//host:port/path` it is exactly `host|port`, which splits back into host and port |
| ControlPoint.ScpdPathAsWritten | src/upnpclient.cc:264-270 | the source's test either prefixes a `/` or keeps the URL |
| ControlPoint.ScpdPathAsWrittenMissesSlash | src/upnpclient.cc:264 | the relative path `stats.xml` is requested without a leading `/` |
| ControlPoint.ScpdPath | src/upnpclient.cc:264-270 | the intended path is always rooted, and exactly the unrooted URLs get a `/` |
| ControlPoint.ScpdBufferOverflow | src/upnpclient.cc:263-266 | when a `/` is added, the copy needs one byte more than the buffer holds |
| ControlPoint.ScpdBuffer | src/upnpclient.cc:263 | the corrected buffer holds the path and its NUL |
| ControlPoint.Collected | src/upnpclient.cc:253-284 | at most one service per URL, each named `UDN|path` with the path rooted as intended (`ScpdPath`, Findings row 1); order and content are stated by `CollectedAtPositions` |
| ControlPoint.FetchedPositions | src/upnpclient.cc:253-284 | the positions of the descriptions that could be fetched: increasing, each one fetched, and every fetched position listed |
| ControlPoint.CollectedAtPositions | src/upnpclient.cc:253-284 | exactly one service per fetched description, in URL order: the k-th service comes from the k-th fetched position, is named `UDN|path` after that URL and holds the fetched content |
| ControlPoint.AllFetchedCollected | src/upnpclient.cc:253-284 | when every description is fetched, service i is `UDN|path` of URL i with description i |
| ControlPoint.CollectedNameSplits | src/hbox.cc:449-451 | the service name splits back into the UDN and the path |
| ControlPoint.CollectServices | src/upnpclient.cc:253-284 | the loop builds exactly `Collected`, with the intended rooting |
| ControlPoint.ServiceEvents | src/upnpclient.cc:165-170 | one hbox-level SERVICE event per service, in order |
| ControlPoint.AnnouncementOrder | src/upnpclient.cc:139-176 | a new root device is announced as NEW or NEW_MEDIA (plus PORT), then its services, then START |
| ControlPoint.AddedOnce | src/upnpclient.cc:141-143 | a root device already known is not announced again |
| ControlPoint.RemovedThenAddedAgain | src/upnpclient.cc:184-197 | a removed device sends one DEL and is announced anew when it comes back |
| ControlPoint.UpnpClient.constructor | src/upnpclient.cc:32-35 | no root devices known; events go to the given queue |
| ControlPoint.UpnpClient.DeviceAdded | src/upnpclient.cc:134-177 | the known roots and the queue are extended as `AddedRoots` and `AddedEvents` say |
| ControlPoint.UpnpClient.Announce | src/upnpclient.cc:145-174 | the queue receives the head, the service events and START, in that order |
| ControlPoint.UpnpClient.PushServices | src/upnpclient.cc:164-170 | the queue receives one event per service |
| ControlPoint.UpnpClient.DeviceRemoved | src/upnpclient.cc:184-197 | the known roots and the queue change as `RemovedRoots` and `RemovedEvents` say |
| ControlPoint.UpnpClient.OnMessage | src/upnpclient.cc:63-70 | only a UPnP-level ACTION is acted on; its reply, if any, is queued |
| ControlPoint.InvokeAction | src/upnpclient.cc:72-127 | a reply is an ACTION_RESPONSE to the requesting peer |
| ControlPoint.InvokeActionLoop | src/upnpclient.cc:81-126 | the device loop computes `InvokeAction` |
| ControlPoint.RequestAnswered | src/upnpclient.cc:86-122 | a well-formed request for a known device is answered with that device's response |
| UpnpServer.InsertSlash | src/upnpserver.cc:228 | inserting `/` at `i` keeps both sides around it |
| UpnpServer.FixAt | src/upnpserver.cc:227-228 | fixing one address never shortens the text or changes it up to the tag |
| UpnpServer.FixScpdAddressed | src/upnpserver.cc:221-232 | after the fix-up every `<SCPDURL>` is followed by `/` or `http://` |
| UpnpServer.FixScpdKeepsAddressed | src/upnpserver.cc:226-231 | a description whose addresses are all rooted is left as it is |
| UpnpServer.FixScpdIdempotent | src/upnpserver.cc:221-232 | fixing twice is fixing once |
| UpnpServer.FixScpdUrls | src/upnpserver.cc:226-231 | the loop computes `FixScpd` |
| UpnpServer.Embed | src/upnpserver.cc:236-240 | the section is inserted right after the first `<deviceList>` (or at 11 without one), and the rest is kept |
| UpnpServer.EmbedKeepsDeviceList | src/upnpserver.cc:236-239 | the first `<deviceList>` stays where it was |
| UpnpServer.NewestFirst | src/upnpserver.cc:236-240 | two embedded devices end up newest first, right after `<deviceList>` |
| UpnpServer.EmbeddedServiceTargetOf | src/upnpserver.cc:245-248 | a service name `UDN|address` splits back into UDN and address |
| UpnpServer.ActionEvent | src/upnpserver.cc:77-108 | an action on a virtual device becomes an ACTION event to the hosting hbox |
| UpnpServer.ResponseRoundTrip | src/upnpserver.cc:302-346 | a response built by the control point reaches the virtual device as the same failure or the same outputs |
| UpnpServer.ReplaceAll | src/upnpserver.cc:348-354 | no occurrence of the pattern is left |
| UpnpServer.ReplacementKeepsPattern | src/upnpserver.cc:350-353 | a replacement containing the pattern recreates it, so the loop need not end |
| UpnpServer.SearchAndReplace | src/upnpserver.cc:348-354 | the loop computes `ReplaceAll` |
| UpnpServer.Server.constructor | src/upnpserver.cc:140-148 | the description is the default one, and the root device is published on the first port, 15010 |
| UpnpServer.Server.NewEmbeddedDevice | src/upnpserver.cc:212-242 | the root device is deleted on every call; the run is defined only if the root was still published and the source does not throw; the description becomes `EmbeddedDescription`, or stays unchanged where the source throws |
| UpnpServer.Server.StartEmbeddedDevice | src/upnpserver.cc:269-291 | a written description file moves the port ten further on; the root device is re-created there only if CyberLink also accepts the description, and is otherwise left as it was |
| UpnpServer.HostOnce | src/upnpserver.cc:212-291 | NEW then a successful START leaves the root device published on the second port |
| UpnpServer.UnwrittenThenNew | src/upnpserver.cc:212-291 | NEW, a START whose file cannot be written, then NEW: the root stays deleted and the second NEW is undefined (a double delete) |
| ResourceUrls.NextAddress | src/hbox.cc:640-657 | a located address lies after the search position and ends before the text does |
| ResourceUrls.Splice | src/hbox.cc:659 | the address is replaced and both sides are kept |
| ResourceUrls.RewriteResNone | src/hbox.cc:640-643 | a text without `<res` is left as it is |
| ResourceUrls.RewriteResStep | src/hbox.cc:655-660 | a single resource's address becomes the relay address |
| ResourceUrls.RewriteResElement | src/hbox.cc:640-661 | `<res attrs>http://host/path</res>` becomes `<res attrs>` + relay + `/path</res>` |
| ResourceUrls.RelayAddressNoTag | src/hbox.cc:644-652 | the relay address holds no `<` after its scheme |
| ResourceUrls.RewriteResourceUrls | src/hbox.cc:640-661 | the loop computes `RewriteRes` |
| HboxSpec.Initial | src/hbox.cc:38-48 | relay ports start at 54400, with no peers, no devices and empty queues |
| HboxSpec.FindPeer | src/hbox.cc:696-701 | `getHbox`: the first peer with the name, or none exactly when no peer has it |
| HboxSpec.DelBurst | src/hbox.cc:496-505 | one DEL to every peer |
| HboxSpec.HostedServiceEvents | src/hbox.cc:593-598 | one SERVICE per hosted service, named `UDN|service` |
| Orchestrator.Hbox.constructor | src/hbox.cc:38-48 | the object's view is `Initial` |
| Orchestrator.Hbox.GetHbox | src/hbox.cc:696-701 | the loop finds the peer `FindPeer` names |
| Orchestrator.Hbox.AddHbox | src/hbox.cc:686-688 | the peer goes to the front |
| Orchestrator.Hbox.Announce | src/hbox.cc:353-371 | the announcement of one device is queued for XMPP |
| Orchestrator.Hbox.AnnounceReady | src/hbox.cc:351-372 | every READY device is announced to the new peer |
| Orchestrator.Hbox.NewNeighborHbox | src/hbox.cc:324-375 | the view becomes `HboxSpec.NewNeighborHbox` |
| Orchestrator.Hbox.DelNeighborHbox | src/hbox.cc:381-388 | the view becomes `HboxSpec.DelNeighborHbox` |
| Orchestrator.Hbox.NewLocalUpnpDevice | src/hbox.cc:395-411 | the view becomes `NewLocalDevice` |
| Orchestrator.Hbox.AddNetworkInfoLocalUpnpDevice | src/hbox.cc:413-441 | defined and resulting view as `AddNetworkInfoLocal` |
| Orchestrator.Hbox.NewLocalUpnpService | src/hbox.cc:448-456 | defined and resulting view as `NewLocalService` |
| Orchestrator.Hbox.AnnounceToPeers | src/hbox.cc:468-488 | the START burst is queued for every peer |
| Orchestrator.Hbox.StartLocalUpnpDevice | src/hbox.cc:463-489 | defined and resulting view as `StartLocal` |
| Orchestrator.Hbox.WithdrawFromPeers | src/hbox.cc:500-504 | a DEL is queued for every peer |
| Orchestrator.Hbox.DelLocalUpnpDevice | src/hbox.cc:496-505 | the view becomes `DelLocal` |
| Orchestrator.Hbox.SendAction | src/hbox.cc:612-614 | the event is forwarded to XMPP unchanged |
| Orchestrator.Hbox.SendActionResponse | src/hbox.cc:616-618 | the event is forwarded to XMPP unchanged |
| Orchestrator.Hbox.NewRemoteUpnpDevice | src/hbox.cc:507-522 | defined and resulting view as `NewRemote` |
| Orchestrator.Hbox.SetRemoteUpnpDevicePort | src/hbox.cc:524-558 | defined and resulting view as `SetRemotePort` |
| Orchestrator.Hbox.NewRemoteUpnpService | src/hbox.cc:565-577 | defined and resulting view as `NewRemoteService` |
| Orchestrator.Hbox.Host | src/hbox.cc:587-601 | NEW, START, the services and RESTART are queued for the UPnP server |
| Orchestrator.Hbox.HostServices | src/hbox.cc:593-598 | one SERVICE per service is queued for the UPnP server |
| Orchestrator.Hbox.StartRemoteUpnpDevice | src/hbox.cc:579-604 | defined and resulting view as `StartRemote` |
| Orchestrator.Hbox.DelRemoteUpnpDevice | src/hbox.cc:606-610 | defined and resulting view as `DelRemote` |
| Orchestrator.Hbox.ActionControlReceived | src/hbox.cc:620-622 | the event is forwarded to the control point unchanged |
| Orchestrator.Hbox.FixResourceUrl | src/hbox.cc:629-666 | the payload becomes `HboxSpec.FixResourceUrl` |
| Orchestrator.Hbox.ActionResponseReceived | src/hbox.cc:624-627 | defined and resulting view as `HboxSpec.ActionResponseReceived` |
| Orchestrator.Hbox.HandleUpnpClient | src/hbox.cc:263-282 | an event from the control point is handled as `FromUpnpClient` |
| Orchestrator.Hbox.HandleUpnpServer | src/hbox.cc:284-289 | an event from the UPnP server is handled as `FromUpnpServer` |
| Orchestrator.Hbox.HandleXmpp | src/hbox.cc:291-314 | an event from XMPP is handled as `FromXmpp` |
| Orchestrator.Hbox.DispatchRound | src/hbox.cc:259-318 | one round of the dispatch loop is `DispatchOnce` |
| HboxProperties.FromUpnpClientKeepsInbound | src/hbox.cc:263-282 | handling a control-point event never touches the inbound queues |
| HboxProperties.FromXmppKeepsInbound | src/hbox.cc:291-314 | handling an XMPP event never touches the inbound queues |
| HboxProperties.DispatchTakesAtMostOne | src/hbox.cc:259-318 | a round takes at most one event from each inbound queue |
| HboxProperties.IdleRound | src/hbox.cc:259-318 | with all inbound queues empty a round changes nothing |
| HboxProperties.UnknownEventsDropped | src/hbox.cc:259-318 | an event with an unknown command is consumed without effect |
| HboxProperties.LocalServiceIsHboxLevel | src/hbox.cc:279-280 | a SERVICE from the control point is handled only at hbox level |
| HboxProperties.InitialGood | src/hbox.cc:38-48 | the initial view satisfies `Good` |
| HboxProperties.NewNeighborGood | src/hbox.cc:324-375 | a new neighbour keeps `Good` and `maxPort` |
| HboxProperties.DelNeighborGood | src/hbox.cc:381-388 | deleting a neighbour keeps `Good` and `maxPort` |
| HboxProperties.FromUpnpClientGood | src/hbox.cc:263-282 | every control-point handler keeps `Good` and never lowers `maxPort` |
| HboxProperties.NewRemoteGood | src/hbox.cc:507-522 | a new remote device keeps `Good` |
| HboxProperties.SetRemotePortGood | src/hbox.cc:524-558 | a remote port assignment keeps `Good` and raises `maxPort` by one |
| HboxProperties.NewRemoteServiceGood | src/hbox.cc:565-577 | a new remote service keeps `Good` |
| HboxProperties.StartRemoteGood | src/hbox.cc:579-604 | starting a remote device keeps `Good` |
| HboxProperties.DelRemoteGood | src/hbox.cc:606-610 | deleting a remote device keeps `Good` |
| HboxProperties.FromXmppGood | src/hbox.cc:291-314 | every XMPP handler keeps `Good` and never lowers `maxPort` |
| HboxProperties.DispatchKeepsGood | src/hbox.cc:259-318 | every dispatch round keeps `Good` and never lowers `maxPort` |
| HboxProperties.LocalPortIsFresh | src/hbox.cc:423-436 | a local device's relay port is `maxPort`, which no other device uses |
| HboxProperties.RemotePortIsFresh | src/hbox.cc:534-553 | a remote device's relay port is `maxPort`, which no other device uses |
| HboxProperties.NewNeighborLoopback | src/hbox.cc:325-328 | a peer asking for our information is sent it, and nothing else changes |
| HboxProperties.NewNeighborKnown | src/hbox.cc:330-336 | a known neighbour changes nothing |
| HboxProperties.NewNeighborUnknown | src/hbox.cc:338-373 | a new neighbour goes to the front with the parsed IP and HIT, and is sent our information and our READY devices; our own record, the port counter, the UPnP queues and the inbound queues are unchanged |
| HboxProperties.HelloRoundTrip | src/hbox.cc:340-345 | the peer records exactly the IP and HIT we advertised |
| HboxProperties.DelNeighborRemovesPeer | src/hbox.cc:381-388 | among distinct names the neighbour is gone afterwards, and only it |
| HboxProperties.ServiceEventsCount | src/hbox.cc:362-367 | a service burst holds one SERVICE per service |
| HboxProperties.AnnouncementShape | src/hbox.cc:353-370 | an announcement is NEW, PORT for a media server, the services, then START, all to the peer |
| HboxProperties.NeighborBurstAnnouncesReady | src/hbox.cc:351-372 | a new neighbour gets one NEW and one START per READY device |
| HboxProperties.AnnouncementStartsOnce | src/hbox.cc:369-370 | an announcement sends START to its peer once and to nobody else |
| HboxProperties.CountToBelowCount | src/hbox.cc:468-488 | events to one peer are among all events of the kind |
| HboxProperties.StartBurstReachesEveryPeer | src/hbox.cc:468-488 | starting a device sends START once to every peer of each name |
| HboxProperties.StartLocalMarksReady | src/hbox.cc:463-489 | the device becomes READY and nothing else in the records changes; starting again keeps it so |
| HboxProperties.DelLocalNotifiesEveryPeer | src/hbox.cc:496-505 | every peer gets a DEL, in peer order, and the device is removed |
| HboxProperties.LocalPortPayload | src/hbox.cc:413-441 | a PORT payload `host|port` sets the device's address, remote port and relay |
| HboxProperties.AnnouncedPort | src/hbox.cc:524-558 | the PORT event we send is read by the peer as our relay port, forwarded through our LSI or IP |
| HboxProperties.AnnouncedDevice | src/hbox.cc:507-522 | the NEW event we send creates the device at the peer, tagged with our JID |
| HboxProperties.AnnouncedService | src/hbox.cc:565-577 | the SERVICE event we send adds the service at the peer |
| HboxProperties.NewRemoteIdempotent | src/hbox.cc:516-521 | a repeated device announcement changes nothing |
| HboxProperties.StartRemoteIdempotent | src/hbox.cc:582-603 | a repeated START changes nothing |
| HboxProperties.StartRemoteHandsOver | src/hbox.cc:579-604 | the first START hands the device to the UPnP server as NEW, START, its services and RESTART; later ones do nothing |
| HboxProperties.SaveSourceAfterUdn | src/hbox.cc:560-563 | `<UPC>jid</UPC>` goes right after the first `</UDN>`, and the rest is kept |
| HboxProperties.SaveSourceWithoutUdn | src/hbox.cc:560-563 | without `</UDN>` the tag lands at offset 5, or the insertion throws for a shorter text |
| HboxProperties.FixResourceUrlWithoutRelay | src/hbox.cc:636-637 | without a relay port the payload is unchanged |
| DescriptionFile.NextLt | include/descriptionfile.hh:86-90 | the next `<` from a position, or the end |
| DescriptionFile.NextLtIsFirst | include/descriptionfile.hh:86-90 | no `<` is skipped |
| DescriptionFile.NextTag | include/descriptionfile.hh:73-76 | the next `<UDN>` from a position, or the end |
| DescriptionFile.NextTagIsFirst | include/descriptionfile.hh:73-76 | no `<UDN>` is skipped |
| DescriptionFile.BareUser | include/descriptionfile.hh:64-67 | the username cut at its first `/` |
| DescriptionFile.EmptyUdnLosesClosingTag | include/descriptionfile.hh:70-92 | as written, `<UDN></UDN>` becomes `<UDN>uuid:user` |
| DescriptionFile.EmptyUdnKeepsClosingTag | include/descriptionfile.hh:70-92 | as intended, `<UDN></UDN>` becomes `<UDN>uuid:user</UDN>` |
| DescriptionFile.ReplaceFromAtTag | include/descriptionfile.hh:73-92 | at a tag, the rewriting keeps the text up to the tag, writes the id, and goes on after the content |
| DescriptionFile.ChangeUdnsReplaces | include/descriptionfile.hh:70-92 | the loop replaces the content of every `<UDN>` element with `uuid:user` and keeps everything else |
| DescriptionFile.ChangeUdnsWithoutTag | include/descriptionfile.hh:70-92 | a description without `<UDN>` is kept as it is |
| DescriptionFile.ChangeUdn | include/descriptionfile.hh:55-105 | fails when the file cannot be read or written; otherwise writes `ChangeUdns` of the content for the bare username, the intended loop of Findings row 3 |
| DescriptionFile.SkipContent | include/descriptionfile.hh:86-90 | the inner loop stops at the next `<` |

## Left out

- UpnpServer.Server.NewEmbeddedDevice: `server` is deleted on every NEW, before the `<SCPDURL>` test, and re-created only by a START that writes the file and whose description CyberLink accepts. The model tracks this as `root == Deleted` and reports a second NEW in that state as undefined. A SERVICE or RESTART in that state dereferences freed memory; those operations are not modelled, so the model does not show it.

- Threads, sockets, Boost.Asio, the CyberLink UPnP stack, gloox, files and `sleep` are
  not modelled. What they report comes in as parameters:
  - whether a listener or description file could be created;
  - the LSI the system reports for a HIP association;
  - which descriptions could be fetched;
  - whether `getAction` finds the action and what `postControlAction` returns.
- `hbox::init`, `getArguments`, `start`, `confirmLocalDatabases`, the `communication_info`
  probes (`init`, `getCapability`, `findIpAddress`, `findHit`, `findRelayAddress`,
  `findLsi`) and `getHttpContent` depend on the host or the network. Their results are
  parameters.
- Orchestrator.Hbox: the records of its own hbox and of the peers are held as values.
  The aliasing between `hbox_info` objects and the `upnp_device` pointers they share is
  not captured. Each handler is defined by a pure transition over these values.
- Orchestrator.Hbox.DelNeighborHbox: the source dereferences the iterator after `erase`,
  which is undefined behaviour. The model removes the first peer with the name, as
  intended.
- Orchestrator.Hbox.DispatchRound: when a handler's run is undefined (`defined` false),
  the resulting state is not specified.
- ResourceUrls.RewriteRes returns `None` in three cases the model does not follow:
  - a `>` or `http://` is missing after `<res`: the `http://` search then starts from
    `npos` and finds nothing, the `/` search starts at `npos + 7`, which wraps to offset
    6, and the source splices `substr(0, npos)` (the whole text), the relay address and
    the text from that `/` on;
  - no `/` follows the address, and `substr(npos)` throws;
  - the self IP contains `<`.
- The event's `operator<<` (debug logging only) and `hbox_info::getDeviceList` are not
  separate members: the orchestrator reads its own device list directly from the record
  it holds.
- Strings.Atoi: 32-bit overflow of `atoi` is not modelled; numbers are unbounded.
- Devices.UpnpDevice.RemoveUpnpService requires the service to be present. With an
  absent name, the source erases `end()`, which is undefined.
- A second PORT event for the same device replaces the relay listener in the device
  record. The model drops the old one; the source leaks it, and it keeps listening.
- CommInfos.Parse: the parsing constructor leaves the flags and the capability
  uninitialised. The model sets them to false and 0.
- ControlPoint.UpnpClient.DeviceAdded requires a well-formed location for a media
  server. `findMediaServerNetInfo` indexes fields that may not exist otherwise.
- ControlPoint.ScpdPathAsWritten: for an SCPD URL shorter than five characters the
  source reads past its NUL. The model reads NUL characters there.
- ControlPoint.Collected and ControlPoint.CollectServices name each service with the
  intended rooting `ScpdPath`, not the source's `&&` test. The source's names are those
  of `ScpdPathAsWritten` (Findings row 1): for `stats.xml` the source names the service
  `UDN|stats.xml`, the model `UDN|/stats.xml`. `DeviceAdded`, `Announce` and
  `PushServices` inherit this.
- DescriptionFile.ChangeUdn writes the intended rewriting `ChangeUdns`, not the source's
  loop, which is `ChangeUdnsAsWritten` (Findings row 3): on `<UDN></UDN>` the source
  loses `</UDN>`.
- Xmpp.StanzaErrorMeaning requires a code in 0..24. The source's switch has no return
  outside that range.
- UpnpServer.ReplaceAll requires the replacement to be shorter than the pattern. The
  source does not demand this, but otherwise the loop need not end (see
  `ReplacementKeepsPattern`). The only caller's uses are commented out.
- Parts of the UPnP server left out:
  - `restartEmbeddedDevice`, `delEmbeddedDevice` (empty in the source),
    `newEmbeddedService`'s lookup in CyberLink's device list, and `onMessage`'s dispatch;
  - the condition variable that makes `actionControlReceived` wait for the response.
    A response for no embedded device (`NoMatch`) leaves the waiting virtual device
    blocked.
- DescriptionFile.ChangeUdn: the file read and write are parameters.
- DescriptionFile.ChangeUdns copies the `<` that ends a UDN's content at once. Starting
  the inner search at the character in hand would loop for ever when the username itself
  ends in `<UDN>`.

## Findings

| source | as written | input that shows it | evidently intended | confidence | as-written member | corrected member |
|---|---|---|---|---|---|---|
| src/upnpclient.cc:264 | the URL gets a `/` only when no character matches its place in `/` and `http:`, because all comparisons are joined by `&&` | SCPD URL `stats.xml` (second letter `t`) is requested as `stats.xml`, not `/stats.xml` | prefix `/` unless the URL starts with `/` or `http:` | high, not executed | ControlPoint.ScpdPathAsWrittenMissesSlash | ControlPoint.ScpdPath |
| src/upnpclient.cc:263-266 | the buffer has `strlen + 1` bytes, but `/` plus the URL plus NUL is written into it | any URL that gets the `/`, e.g. `a.xml` needs 7 bytes in a 6-byte buffer | `strlen + 2` bytes | high, not executed | ControlPoint.ScpdBufferOverflow | ControlPoint.ScpdBuffer |
| include/descriptionfile.hh:83-90 | after `<UDN>` the character in hand is dropped unexamined, and the search for `<` starts at the next one | `<UDN></UDN>` becomes `<UDN>uuid:user`, losing `</UDN>` and the text up to the next `<` | the content up to the next `<` is replaced and that `<` is kept | high, not executed | DescriptionFile.EmptyUdnLosesClosingTag | DescriptionFile.ChangeUdnsReplaces |
