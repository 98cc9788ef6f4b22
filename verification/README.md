# A verified model of the proxy core

The proxy core turns subscriptions into endpoints, compiles endpoints into configurations for
three helper processes (an SNI spoofer, sing-box and Xray), and routes each connection through
one of them. This project restates that logic in Dafny and proves what it is relied on for.
`dafny verify dfyconfig.toml` checks everything.

Strings stand for Go strings: one character is one byte. Code that changes things step by step
is written with classes, fields, arrays and loops, and each such method is tied by its
postcondition to a function of the old state; the theorems are about those functions. Code that
runs concurrently is a machine: `IsRun` relates a sequence of states to a sequence of events,
and the theorems hold for every run, that is, for every interleaving.

| file | models |
|---|---|
| Wrappers, Bytes, Trimming, Decimal, HostPort, Sums | the library pieces everything else reads: byte searches, white space, decimal numbers, host:port addresses, sums over sequences |
| Endpoints | endpoints and their `Config` maps as heap objects, so that sharing a map is visible |
| CoreConfig, Wanted, SniSpoof, SingBox, Xray, Pipeline | the three generators, what following a generated document means, what an endpoint wants of the block that serves it, read off its attributes alone, and the startup sequence |
| Base64, Subscription, QueryString, VlessBundle | the codecs: base64, plain or encoded subscriptions, percent-escaping and queries, `vless://` URIs |
| WeightedChoice, Balancer, DialRuns, Accounting | choosing and dialling endpoints, failover, and what the counters add up to |
| ProbeAll, ListCache, Tickets | the prober's goroutines, the list-file cache, the WebSocket tickets |
| LogBus, CapturingWriter | the log rings, their merge, and the line splitter |
| YamlEdit | comment-preserving edits of a YAML node tree |
| Dedup, Rules, MasterDns | the endpoint pool at startup, the rule engine and its persistence, the MasterDNS configuration text |

## Where the code does not do what one might expect

Each of these is a theorem; the condition under which the expectation does hold is proved as
well.

- `Pipeline.HandlesOverlapIff`: the filter of the Xray generator is documented to be exclusive with
  sing-box. It is exclusive but for endpoints that name a transport of Xray's although sing-box does
  not ask their protocol for one, such as Shadowsocks with a "raw" type
  (`Pipeline.HandlesOverlaps`). No parser builds such an endpoint, only a direct caller of the
  package can; and as the outbound builder rejects these protocols afterwards, no endpoint is ever
  claimed twice (`Pipeline.NeverClaimedTwice`).
- `Pipeline.XrayNetworkIsTheHint`: Xray claims an endpoint by "net" or, failing that, "type", but
  the stream it opens looks at "net" only, because the fallback to "type" is dead code
  (`Pipeline.HintIsNotTheNetwork` is such an endpoint). The VLESS parser puts the link's transport
  under "net", empty or not, and never sets "type", so this too takes a direct caller.
- `ListCache.StaleHit`: a cache hit can be content the file held neither when the loader asked for
  its time stamp nor when it looked the entry up. `ListCache.HitIsCurrent` says when it cannot.
- `ListCache.LongLineHides`: a line of 64 KiB or more ends the reading of a list without an error;
  whatever stands behind it is ignored, and the cut-off list is cached under the current time stamp.
  `ListCache.MatchDomainList` says which lines count.
- `Base64.WrappedRoundTrip`: text wrapped with CR and LF bytes decodes exactly when their number is
  a multiple of 4, or one more than that and no "=" is missing at the end. `Base64.WrappingFails`
  gives one that fails on each side: one line feed and its "=" missing, a CR LF and nothing missing.
  A subscription wrapped otherwise yields no endpoint
  at all (`Subscription.WrappedSubscription`).
- `VlessBundle.BundleRoundTrip`: a record whose port is not made of digits prints a URI that does
  not parse.
- `Accounting.DirectBytes`: direct flows balance the row "direct" while no pool holds an endpoint of
  that name that can come to be picked, one that is healthy and enabled or the first of its name, so
  that a patch can enable it. From every other pool `Accounting.SharedDirectRow` is a run in which
  they do not. Neither the parsers nor the sidecars make such an ID.
- `YamlEdit.RemovedIffUnique`: removing a key that stands twice leaves the second one
  (`YamlEdit.SecondIsLeft`).
- `Dedup.SameUriLoses`: a server is lost when another came with its URI before. Links name their
  server, but a WireGuard file has only its base name as URI, with the name of its source before it
  unless that is empty or "default": of two such files the second is dropped, whatever server it
  names. `Dedup.ServerKeptIff` says exactly which servers a batch leaves in the pool,
  `Dedup.ServersOfPool` which ones all batches do, and `Dedup.NoServerLost` that none is lost where
  equal URIs mean equal servers.
- `Dedup.ReaddingAdds`: adding the same batch twice can add an endpoint the second time.
- `Dedup.TwoReadsClash`: IDs are meant to keep endpoints apart, yet when a source is read twice, as
  from a file and from a URL, two links to one server that differ in their label both enter the
  pool under one ID. `Dedup.PoolIdsDistinctIff` says exactly when the IDs of the pool differ, and
  `Dedup.SourcesNeverMeet` when different sources cannot meet.
- `Dedup.RestartRestores`: a priority the user set to 0 is lost over a restart on an endpoint that
  is born with another, as every sidecar is (`Dedup.PatchToZeroIsUndone`).
- `Rules.MovedRuleSharesHandle`: a rule and a copy of it put where it used to be get the same ID.
- `MasterDns.TomlRoundTrip`: which domains, keys and methods survive being written and read.

## Where comments and code differ

The model follows the code.

- `proxy-core/balancer/balancer.go:335` says weights come from a configuration key; they are the
  priorities.
- `proxy-core/snispoof/generator.go:30` says endpoint `i` gets port `BasePort+i`; only handled
  endpoints count.
- `proxy-core/config/config.go:143-146` says the kill-switch drops connections of `direct` rules;
  the engine honours such rules whatever the switch says.
- `proxy-core/api/api.go:1538-1539` says comments in config.yaml are lost when rules are saved; the
  node-tree editing it goes through keeps them.
- `proxy-core/singbox/generator.go:227-232` says the spoofer is not for QUIC protocols; a Hysteria2 or
  TUIC endpoint that carries a decoy name is redirected to it like any other.
- `proxy-core/subscription/parser.go:430` says white space is stripped; only what surrounds the text
  is, and line ends inside it count towards the padding.

## Model

| member | source | states |
|---|---|---|
| HostPort.SplitOfJoin | proxy-core/singbox/generator.go:535-545 | joining a host and a port and splitting the text gives both back exactly when the host has no bracket, IPv6 literals included |
| HostPort.SplitIff | proxy-core/singbox/generator.go:535-545 | a text is split into host and port exactly when it is `host:port` without another colon or `[host]:port`, without further brackets |
| HostPort.ParseOfAddrText | proxy-core/singbox/generator.go:124 | a pinned address reads back as the host and the port it was built from, for every port an `int` can hold |
| Decimal.AtoiOfItoa | proxy-core/xray/generator.go:305-315 | a printed port number parses back, sign included, within the 64-bit range |
| Decimal.DigitsOfItoa | proxy-core/singbox/generator.go:108 | numbers print as their decimal digits, the last one last, behind a minus sign when negative |
| Decimal.AtoiShape | proxy-core/xray/generator.go:305-315 | what parses is a sign or none, and then at least one digit and nothing else |
| Decimal.AtoiSigns | proxy-core/xray/generator.go:305-315 | digits parse as their value up to 2^63 - 1, with "+" or without a sign, and behind "-" as its negative down to -2^63 |
| Decimal.ItoaInjective | proxy-core/singbox/generator.go:108 | no two numbers print alike, so `ep-%d` tags and ports cannot collide |
| Endpoints.Pin | proxy-core/singbox/generator.go:123-124 | one iteration's `ensureConfigMap` and map write: this endpoint's map gets the pin, through whatever endpoints share it, a missing map is replaced by a fresh one, nothing else changes |
| Endpoints.ViewBeforePin | proxy-core/snispoof/generator.go:86 | what an iteration reads of its endpoint differs from the input at most in the pin key, and only through a shared map |
| Endpoints.PinnedHeapIsPinnedViews | proxy-core/snispoof/generator.go:80-104 | on distinct maps the in-place writes amount to pinning every claimed endpoint and no other |
| CoreConfig.Layout | proxy-core/singbox/generator.go:66-126 | inbounds and route rules are aligned, one pair per claimed endpoint in list order, ports consecutive from the base, across both branches of the loop |
| CoreConfig.Blocks | proxy-core/singbox/generator.go:102-110 | a block is in the document exactly when it was built for a claimed endpoint |
| CoreConfig.TagsDistinguish | proxy-core/singbox/generator.go:81-110 | inbound and outbound tags of different endpoints differ, WireGuard or not, and none is `out-direct` |
| CoreConfig.ForwardsToOwnBlock | proxy-core/singbox/generator.go:66-146 | the inbound on a claimed endpoint's port is the only one there, and the first rule that names its tag leads to that endpoint's own block |
| CoreConfig.PortsAreConsecutive | proxy-core/singbox/generator.go:66-126 | a port leads anywhere exactly when it is one of `base .. base + claimed - 1` |
| SniSpoof.Generate | proxy-core/snispoof/generator.go:69-114 | the mappings and the `spoof_via` pins are those of the endpoints as they were on entry, even when maps are shared; every endpoint with a decoy name has a mapping to its address with that name and its fingerprint, "chrome" for none, and every mapping is such an endpoint's, on the ports from the base, 12800 by default |
| SniSpoof.RelaysToOwnAddress | proxy-core/snispoof/generator.go:84-104 | the spoofer port pinned on an endpoint relays to that endpoint's address |
| SniSpoof.RelayedPorts | proxy-core/snispoof/generator.go:84-104 | the spoofer relays exactly the ports `base .. base + handled - 1` |
| SniSpoof.MappingsDecoy | proxy-core/snispoof/generator.go:84-104 | the mappings are those of the endpoints with a "fake_sni", port by port: address, decoy name and fingerprint are the endpoint's |
| SniSpoof.MappingIgnoresPin | proxy-core/snispoof/generator.go:87-102 | writing a pin changes no mapping, not even through a shared map |
| SingBox.Generate | proxy-core/singbox/generator.go:47-157 | document and pins are those of the endpoints as they were on entry, for any sharing of maps; following the pin of any endpoint sing-box can serve leads to a block with the kind, server name, Reality flag and transport that its attributes ask for; ports start at 10800 by default, and the document ends with the direct block as its final route |
| SingBox.BuildsWanted | proxy-core/singbox/generator.go:254-526 | sing-box claims an endpoint exactly when its address reads, its protocol is known, its transport is one of sing-box's and, for WireGuard, both keys are there; the block has the kind, server name, Reality flag and transport of its protocol's own attributes |
| SingBox.UpstreamIgnoresPin | proxy-core/singbox/generator.go:166-285 | the block built for an endpoint does not depend on the pin the generator itself writes |
| Xray.Generate | proxy-core/xray/generator.go:67-146 | the same for Xray, from port 11800, which writes no document exactly when there is no endpoint it can serve |
| Xray.BuildsWanted | proxy-core/xray/generator.go:43-61 | Xray claims an endpoint exactly when its address reads and it is MTProto, or VLESS with a transport of Xray's; the block has the server name, Reality flag and stream that the attributes ask for |
| Xray.UpstreamIgnoresPin | proxy-core/xray/generator.go:155-210 | the block built for an endpoint does not depend on its `socks5_addr` |
| Pipeline.EndToEnd | proxy-core/main.go:252-325 | after the three generators, resolving any pin hop by hop (inbound, rule, block, spoofer) ends at exactly its own endpoint's address, in the core that claimed it, through the spoofer exactly when the endpoint has a decoy name and is neither Reality nor WireGuard, with a block that has the kind, server name, Reality flag and transport its attributes ask for; an endpoint no core can serve keeps its pin |
| Pipeline.SingBoxPinResolves | proxy-core/singbox/generator.go:233-285 | a sing-box pin resolves to its own endpoint's address, and Xray leaves it as it is |
| Pipeline.XrayPinResolves | proxy-core/xray/generator.go:86-119 | an Xray pin resolves to its own endpoint's address, and sing-box does not answer on its port |
| Pipeline.OutwardEndsAtAddress | proxy-core/xray/generator.go:176-210 | a redirected block reaches the real server through the spoofer, any other directly |
| Pipeline.SpoofMovesOnlyTheTarget | proxy-core/singbox/generator.go:227-250 | the spoofer's pin changes where a block connects and nothing else: not who claims the endpoint, its server name, its Reality flag or its transport |
| Pipeline.NeverClaimedTwice | proxy-core/xray/generator.go:39-61 | no endpoint is claimed by both cores |
| Pipeline.HandlesOverlapIff | proxy-core/xray/generator.go:39-61 | Xray's filter accepts an endpoint that sing-box claims exactly when it names a transport of Xray's, has an address, and is of a protocol whose transport sing-box does not ask for (for WireGuard, with both keys) |
| Pipeline.HandlesOverlaps | proxy-core/xray/generator.go:39-61 | such an endpoint, which only sing-box builds a block for |
| Pipeline.XrayNetworkIsTheHint | proxy-core/xray/generator.go:241-246 | the stream Xray opens uses the transport it claimed the endpoint for exactly when that is given as "net" |
| Pipeline.HintIsNotTheNetwork | proxy-core/xray/generator.go:241-246 | a VLESS endpoint with only the type "xhttp", claimed for it and served over plain TCP |
| Pipeline.UnclaimedPinKept | proxy-core/singbox/generator.go:42-46 | an endpoint neither core claims keeps the pin it came with |
| Pipeline.Run | proxy-core/main.go:252-325 | the startup sequence on shared `Config` maps establishes the end-to-end meaning for every endpoint |
| Base64.EncodeLoop | proxy-core/subscription/moavbundle.go:252-271 | the nested loops compute the encoding by groups of three bytes |
| Base64.DecodeOfEncode | proxy-core/subscription/moavbundle.go:252-271 | the encoder's output is what section 4 of RFC 4648 decodes to the input, for every byte string |
| Base64.EncodeGroup | proxy-core/subscription/moavbundle.go:252-271 | the four characters of every group of three bytes are those of its sextets, by position, with "=" where a byte is missing |
| Base64.DecodesIff | proxy-core/subscription/parser.go:434-441 | a text decodes exactly when it is made of groups of four characters of the alphabet, with at most two "=" and these at the end |
| Base64.RoundTrip | proxy-core/subscription/parser.go:429-446 | every spelling of the encoded text decodes to the bytes: either alphabet, mixed even, any number of trailing "=" missing, white space around it (sections 3.2, 4 and 5 of RFC 4648) |
| Base64.UrlRoundTrip | proxy-core/subscription/parser.go:431-433 | the encoder's output with "-" and "_" for "+" and "/" decodes to the bytes, with any number of its "=" missing |
| Base64.WrappedRoundTrip | proxy-core/subscription/parser.go:434-441 | text wrapped with line ends, in either alphabet, with any number of its "=" missing and white space around it, decodes exactly when the line-end bytes inside are a multiple of 4, or one more and no "=" is missing |
| Base64.WrappingFails | proxy-core/subscription/parser.go:434-441 | two texts that do not decode: one line feed with the "=" missing, and a CR LF with nothing missing |
| Subscription.ParseSubscription | proxy-core/subscription/parser.go:42-71 | the endpoints of the entries of the decoded text, or of the text itself when it is no base64, in order |
| Subscription.EntriesInOrder | proxy-core/subscription/parser.go:49-54 | the entries are the trimmed lines that are neither blank nor comments, each once and in order |
| Subscription.ParsedAppend | proxy-core/subscription/parser.go:55-71 | the endpoints of entries one after the other are those of the first and then those of the rest, and of one entry what it parses to |
| Subscription.PlainTextIsKept | proxy-core/subscription/parser.go:42-47 | a text that holds any URI is never mistaken for base64 |
| Subscription.PlainOrEncoded | proxy-core/subscription/parser.go:40-47 | a subscription gives the same endpoints plain and encoded, in every accepted spelling of the encoding |
| Subscription.WrappedSubscription | proxy-core/subscription/parser.go:44-47 | a wrapped encoding, its "=" missing or not, is read in full exactly when it decodes, which depends on the line-end bytes and the missing "=" alone; otherwise no entry holds a URI |
| QueryString.UnescapeOfEscape | proxy-core/subscription/moavbundle.go:190-197 | unescaping undoes escaping on every byte string (section 2.1 of RFC 3986) |
| QueryString.EscapedForm | proxy-core/subscription/moavbundle.go:190-197 | an unreserved byte is printed as it stands, a space as "+", any other byte as "%" and two hexadecimal digits in upper case |
| QueryString.SegmentMeans | proxy-core/subscription/parser.go:112-126 | a segment of a query is cut at its first "=" and unescaped on both sides; one with a semicolon, an empty one and one that does not unescape are skipped |
| QueryString.QueryRoundTrip | proxy-core/subscription/moavbundle.go:211 | a printed parameter list parses back to the same pairs in the same order |
| VlessBundle.BuildVlessURI | proxy-core/subscription/moavbundle.go:178-212 | the growing parameter list, with its back-fills decided by `hasParam`, prints the URI of the intended pairs, which starts with user, host, port, transport and encryption |
| VlessBundle.SniKnown | proxy-core/subscription/moavbundle.go:198-201 | the prefix test for "sni" finds a parameter exactly when the merged map has one, whatever its value contains |
| VlessBundle.BundleRoundTrip | proxy-core/subscription/parser.go:107-138 | parsing a printed record gives exactly the twelve keys of the record back, each byte for byte from its own parameter: flow, pbk, sid, fp, alpn and path copied, "net" the transport, the user name or the "uuid", "sni" or its default, "host" or, for "ws" and "httpupgrade" only, the connection host; it parses exactly when the port is digits |
| VlessBundle.ParsedKeys | proxy-core/subscription/parser.go:107-138 | the endpoint of any link that splits: every key holds the first query parameter of its name, "net" that of "type", and "uuid" the user name |
| VlessBundle.LinkSplits | proxy-core/subscription/parser.go:108-115 | in any link with a port the user name ends at its first colon, a path is dropped, and the link is refused exactly when the port is not digits |
| WeightedChoice.WeightedRandom | proxy-core/balancer/balancer.go:336-355 | the subtracting scan selects the index whose weight interval holds the draw; the statement after the loop is unreachable |
| WeightedChoice.ExactWeights | proxy-core/balancer/balancer.go:336-355 | exactly `weight(i)` of the draws in `[0, total)` select index `i` |
| WeightedChoice.EveryDrawSelects | proxy-core/balancer/balancer.go:347-354 | every draw selects exactly one index |
| Balancer.Balancer.PatchEndpoint | proxy-core/balancer/balancer.go:89-105 | only the first endpoint with the ID changes, and only in the fields given; not found exactly when no endpoint has it |
| Balancer.Balancer.PickExcluding | proxy-core/balancer/balancer.go:206-243 | fails exactly when no endpoint is enabled, has status "ok" and is untried; otherwise picks one of these: the fastest, the one of least priority number, the one whose interval of `WeightedChoice.ExactWeights` holds the draw, or for any other strategy the first in the pool |
| Balancer.CandidatesInOrder | proxy-core/balancer/balancer.go:206-219 | the endpoints that can be picked are those of the pool that are enabled, healthy and untried, each at its place and in pool order |
| Balancer.Balancer.Pick | proxy-core/balancer/balancer.go:118-155 | the same over the whole pool |
| Balancer.Balancer.MarkError | proxy-core/balancer/balancer.go:246-255 | the first endpoint with the ID goes to "error", nothing else changes |
| Balancer.Balancer.TryEndpoints | proxy-core/balancer/balancer.go:167-185 | without interference the loop succeeds at the first working dial or has failed on min(4, live IDs) different endpoints; each attempt is counted on its own row |
| Balancer.Balancer.DialContext | proxy-core/balancer/balancer.go:164-203 | the outcome, the pool, the counters and all flows, determined by which dials work; the flow of a proxied dial carries the endpoint the strategy chose, which was enabled and healthy in the pool, and its protocol; direct or blocked only after min(4, live IDs) failures, as the kill-switch says |
| Balancer.Exhausted | proxy-core/balancer/balancer.go:167-185 | when nothing is left to pick, or four attempts are used, exactly min(4, live IDs) endpoints failed |
| Balancer.MarkedLiveIDs | proxy-core/balancer/balancer.go:246-255 | marking an ID takes no other ID out of the live ones, even when IDs repeat in the pool |
| Balancer.Stats.RecordDial | proxy-core/balancer/stats.go:54-65 | one dial, and one error when it failed, on that row and no other |
| Balancer.Stats.RecordFailover | proxy-core/balancer/stats.go:69-71 | one failover on that row and no other |
| Balancer.Stats.RecordTraffic | proxy-core/balancer/stats.go:75-83 | positive counts are added on that row and no other |
| Balancer.Flows.Begin | proxy-core/balancer/flows.go:41-58 | IDs count up from 1 and the ring stays the last `cap` flows begun |
| DialRuns.PicksAreDistinct | proxy-core/balancer/balancer.go:164-185 | in every interleaving of dials with patches, pool swaps and marks, one dial picks at most four endpoints, with different IDs |
| DialRuns.PicksWereLive | proxy-core/balancer/balancer.go:206-219 | each was enabled, healthy and untried in the pool of that moment |
| DialRuns.FailuresMatch | proxy-core/balancer/balancer.go:172-183 | every finished attempt but possibly the last has failed |
| DialRuns.GaveUpExhausted | proxy-core/balancer/balancer.go:168-190 | a dial gives up only with four failed attempts or with no endpoint left in the pool that is enabled, healthy and untried |
| DialRuns.DirectOnlyAfterFailures | proxy-core/balancer/balancer.go:187-203 | a dial goes direct only if it read the kill-switch as off after it had given up, all its attempts having failed, and it tries nothing afterwards |
| DialRuns.RefusedOnlyWhenBlocked | proxy-core/balancer/balancer.go:187-196 | a dial is refused only if it read the kill-switch as on after it had given up, all its attempts having failed |
| DialRuns.FailuresAreMarked | proxy-core/balancer/balancer.go:174-183 | in every interleaving a dial takes down its own failed picks, in order and each before it tries the next, and nothing else |
| DialRuns.OutcomesAreTheDials | proxy-core/balancer/balancer.go:173-200 | what a dial goes on with, failover, a flow or an error, is what the network dial reported for the endpoint it had picked, or for the direct one |
| DialRuns.MarkedIsAvoided | proxy-core/balancer/balancer.go:246-255 | from its mark until the pool is replaced no dial picks an endpoint, whatever is patched meanwhile |
| DialRuns.SettingsAreHistory | proxy-core/balancer/balancer.go:48-105 | only a patch enables or disables, only a mark takes down, each the first endpoint with the ID; only a new pool brings endpoints in or back up, and only its own setting moves the kill-switch |
| DialRuns.DialCanMove | proxy-core/balancer/balancer.go:164-203 | a dial that is not over can always take its next step, and the kill-switch alone decides what follows when it has given up |
| Accounting.AlwaysBalanced | proxy-core/balancer/balancer.go:172-200 | in every state of every run each row differs from what it should be only by what dials in progress still owe it |
| Accounting.RowsAreHistory | proxy-core/balancer/stats.go:54-83 | each counter of a row starts at zero and grows by exactly the dials, failures, failovers and bytes of that endpoint, event by event |
| Accounting.FlowsAreHistory | proxy-core/balancer/flows.go:41-80 | one flow for every connection and every refusal, in the order in which they begin, each with its endpoint and kind for ever and the bytes of its own connection |
| Accounting.Conservation | proxy-core/balancer/balancer.go:298-333 | at rest: failovers equal dial errors, the other dials began one flow each, and the byte counters are the sums over all flows ever begun |
| Accounting.EndpointBytes | proxy-core/balancer/balancer.go:305-325 | an endpoint's two byte counters are the sums over its own flows unless it is named "direct" |
| Accounting.DirectBytes | proxy-core/balancer/balancer.go:197-200 | if no pool of the run holds an endpoint named "direct" that is healthy and either enabled or the first of its name, both counters of that row are the sums over the direct flows |
| Accounting.SharedDirectRow | proxy-core/balancer/balancer.go:197-200 | from every other pool a run after which the row holds bytes no direct flow carried |
| ProbeAll.RunKeepsInv | proxy-core/prober/prober.go:45-69 | under every schedule at most ten probes are under way at a time, and no run is longer than five steps per endpoint and one |
| ProbeAll.FreeSlotCanBeTaken | proxy-core/prober/prober.go:48-60 | while fewer than ten probes are under way, any that waits can start |
| ProbeAll.NeverStuck | proxy-core/prober/prober.go:51-69 | before the return some step is always possible |
| ProbeAll.ReturnsExpected | proxy-core/prober/prober.go:51-103 | a run that returns has probed each enabled endpoint once and no other; slot by slot, an enabled endpoint has the latency and status of its own report, a disabled one those it came with, and every other field is the endpoint's |
| ProbeAll.CanFinish | proxy-core/prober/prober.go:51-69 | every run can be continued until it returns |
| ListCache.Scan | proxy-core/plugins/lists.go:51-71 | the payload holds exactly the networks, addresses and suffixes of the lines before the first that is too long, blank ones and comments aside |
| ListCache.MatchDomainList | proxy-core/plugins/lists.go:81-93 | a host is found exactly when some line that is no comment, network or address is the host or what it ends with behind a dot, and neither it nor a line before it is too long |
| ListCache.LongLineHides | proxy-core/plugins/lists.go:51-52 | a list reads the same whatever stands behind a line that is too long |
| ListCache.HitIsCurrent | proxy-core/plugins/lists.go:32-42 | a hit is the parse of the file's current content whenever the file still has the time stamp that was read, even after a slow loader overwrote a newer entry |
| ListCache.LoadIsCurrent | proxy-core/plugins/lists.go:44-77 | the same for what a loader reads and stores itself |
| ListCache.CacheIsLastStore | proxy-core/plugins/lists.go:73-77 | in every state the cache holds for each path what was stored last for it, under the time stamp its loader had read |
| ListCache.StampIsStats | proxy-core/plugins/lists.go:33-50 | whatever a call finds or stores carries the time stamp its own stat read, even when the file is a newer one by the time it is opened |
| ListCache.LoaderCanMove | proxy-core/plugins/lists.go:32-77 | a call that is not done can always go on; it ends without a list exactly when the file is missing at its stat or as it is opened |
| ListCache.StaleHit | proxy-core/plugins/lists.go:33-42 | a run in which a hit is neither the content at the stat nor the content at the look-up |
| Tickets.WsTickets.Issue | proxy-core/api/wsticket.go:29-43 | the token is entered with its expiry and exactly the expired entries are collected |
| Tickets.WsTickets.Consume | proxy-core/api/wsticket.go:46-57 | the answer and the removal of the token |
| Tickets.ConsumeMeetsHistory | proxy-core/api/wsticket.go:46-57 | over every history with a monotone clock a token is accepted exactly when it was issued less than 30 s earlier and not consumed since |
| Tickets.CollectionIsInvisible | proxy-core/api/wsticket.go:36-40 | the collection inside `issue` never changes an answer |
| Tickets.SingleUse | proxy-core/api/wsticket.go:52-55 | a token that was presented is refused until it is issued again |
| LogBus.Bus.Publish | proxy-core/logbus/logbus.go:57-93 | each ring gets the event if it is of its class, and drops its oldest when it holds more than `maxPer`: it stays exactly the last `maxPer` events of its own class, whatever is published to the others |
| LogBus.RingsStep | proxy-core/logbus/logbus.go:64-93 | one event moves one ring by one and leaves the others alone |
| LogBus.SortEventsByTs | proxy-core/logbus/logbus.go:114-122 | the in-place sort orders by time and keeps the order of events with equal times |
| LogBus.Bus.Snapshot | proxy-core/logbus/logbus.go:98-109 | a sorted, stable permutation of the three rings |
| LogBus.StableIsPermutation | proxy-core/logbus/logbus.go:101-107 | keeping the order of each instant's events means losing and inventing none |
| CapturingWriter.Writer.Write | proxy-core/logbus/logbus.go:160-190 | one call publishes the messages of the lines it completes, in order, and keeps the rest |
| CapturingWriter.LineSays | proxy-core/logbus/logbus.go:170-180 | a line is published without its line end and without the standard logger's date and time; a line with nothing else is not |
| CapturingWriter.EventsSay | proxy-core/logbus/logbus.go:176-186 | one event for each message, with the writer's source, the message's level and the clock's reading |
| CapturingWriter.ChunkingInvariance | proxy-core/logbus/logbus.go:160-190 | for every way of cutting a byte stream into writes the same messages come out and the same bytes stay behind |
| CapturingWriter.TailIsAfterLastLineEnd | proxy-core/logbus/logbus.go:163-169 | what stays behind is exactly the bytes after the last line end |
| YamlEdit.Node.Get | proxy-core/api/yamledit.go:72-79 | the value of the first pair with the key |
| YamlEdit.Node.SetNode | proxy-core/api/yamledit.go:91-100 | only this node's content changes: the first pair's value is replaced, or a new pair comes last |
| YamlEdit.Node.Child | proxy-core/api/yamledit.go:109-116 | the mapping at the key, or a new empty one put there |
| YamlEdit.Node.Seq | proxy-core/api/yamledit.go:119-126 | the sequence at the key, or a new empty one put there |
| YamlEdit.Node.Del | proxy-core/api/yamledit.go:129-137 | the first pair with the key is cut out, and the answer says whether there was one |
| YamlEdit.LookupWith | proxy-core/api/yamledit.go:91-100 | after `setNode` its key reads as written and every other key as before |
| YamlEdit.WithKeepsKeys | proxy-core/api/yamledit.go:89-100 | every key node keeps its identity and place, a new one coming last, and every other value stays |
| YamlEdit.LookupWithoutOther | proxy-core/api/yamledit.go:129-137 | after `del` every other key reads as before |
| YamlEdit.WithoutShifts | proxy-core/api/yamledit.go:129-137 | removal shifts the later pairs forward and keeps their order |
| YamlEdit.RemovedIffUnique | proxy-core/api/yamledit.go:129-137 | after `del` the key is gone exactly when it stood there at most once |
| YamlEdit.SecondIsLeft | proxy-core/api/yamledit.go:129-137 | after `del` on the mapping `{a: 1, a: 2}` its key reads 2 |
| YamlEdit.MadeTwice | proxy-core/api/yamledit.go:107-126 | asking for a child mapping or sequence again gives the same node and changes nothing |
| YamlEdit.MadeReadsBack | proxy-core/api/yamledit.go:107-126 | a child that was made is an empty mapping or sequence of the right tag, and it is what its key reads |
| YamlEdit.RunChain | proxy-core/api/api.go:1247-1263 | running `child` calls along a path and a final edit on the nodes leaves the document that the theorems below are about |
| YamlEdit.OnlyPathChanges | proxy-core/api/yamledit.go:15-21 | a chain of edits along a path changes no node that is not on it |
| YamlEdit.EditKeepsKeys | proxy-core/api/yamledit.go:15-21 | every key node of the document, with its comments, stays in place; only the mapping a removal acts on loses a pair |
| YamlEdit.ReadsBack | proxy-core/api/yamledit.go:72-137 | a chain of `child` calls and a final edit reads back as written, whatever stood along the path; a removal exactly when the key stood there at most once |
| YamlEdit.OffPathSame | proxy-core/api/yamledit.go:72-137 | every path that parts from the edited one leads to the very same node as before |
| YamlEdit.UniquePath | proxy-core/api/yamledit.go:23-24 | in a tree no two key paths lead to the same node |
| YamlEdit.EditKeepsTree | proxy-core/api/yamledit.go:72-137 | the document stays a tree when what is put into it is a tree of its own |
| Dedup.Pool.AddEndpoints | proxy-core/main.go:111-154 | a batch appends exactly the kept endpoints, in order: each with its protocol, address and URI, its ID under the namespace of its source, and the latency, status, switch and priority that are saved for its URI or else its own; the seen set stays the URIs of the pool |
| Dedup.DroppedIffWitness | proxy-core/main.go:122-132 | an endpoint is dropped exactly when its URI is in the pool or an earlier kept endpoint of the batch has its URI or its protocol and address |
| Dedup.KeptDistinct | proxy-core/main.go:122-132 | what one batch adds has URIs new to the pool, and pairwise different URIs and protocol-address keys |
| Dedup.KeptInOrder | proxy-core/main.go:117-153 | survivors keep the batch's order |
| Dedup.PoolDistinct | proxy-core/main.go:108-154 | over any sequence of batches the URIs of the pool are pairwise different |
| Dedup.AllStoodFor | proxy-core/main.go:108-154 | every endpoint of every batch is in the pool or stood for by one with its URI or its protocol and address |
| Dedup.ServerKeptIff | proxy-core/main.go:117-132 | after a batch a server is in the pool exactly when it was there or the batch has it under a URI that neither the pool nor an endpoint kept earlier in the batch has |
| Dedup.BringsIff | proxy-core/main.go:117-132 | where a URI goes with one server within the batch, only the URIs in the pool count |
| Dedup.ServersOfPool | proxy-core/main.go:108-154 | over any batches a server is in the pool exactly when some batch brought it under a URI that was new then |
| Dedup.NoServerLost | proxy-core/main.go:108-154 | where equal URIs mean equal servers, every server of every batch is in the pool |
| Dedup.SameUriLoses | proxy-core/main.go:183-208 | of any two servers under one URI the second is not in the pool |
| Dedup.KeyIsThePair | proxy-core/main.go:121-126 | equal keys are equal protocol and address, as protocol names hold no bar |
| Dedup.PoolIdsDistinctIff | proxy-core/main.go:111-154 | the IDs of the pool are pairwise different exactly when, at every batch, no endpoint whose URI is new brings an ID that is there already |
| Dedup.TwoReadsClash | proxy-core/main.go:156-180 | two batches of one source whose links to one server differ in their label put one ID into the pool twice |
| Dedup.NamespacesApart | proxy-core/main.go:132-140 | IDs in the pool are equal exactly when namespace and ID are, for source names without slash and colon and IDs that start with a protocol |
| Dedup.SourcesNeverMeet | proxy-core/main.go:132-140 | with such names the IDs of the pool are pairwise different if they are so within each namespace |
| Dedup.GeneratedIdIsTheKey | proxy-core/subscription/parser.go:448-451 | generated IDs are equal exactly when the protocol-address keys are |
| Dedup.ReaddingIsNoOpIff | proxy-core/main.go:117-132 | adding a batch again adds nothing exactly when all its URIs are in the pool |
| Dedup.ReaddingAdds | proxy-core/main.go:117-132 | a batch that adds one endpoint the first time and another the second |
| Dedup.LoadState | proxy-core/main.go:101-104 | a URI is saved exactly when an endpoint has it, and what is saved is the last such endpoint |
| Dedup.StateKeepsOrder | proxy-core/main.go:117-153 | the saved state has no say in which endpoints are in the pool, nor in their order |
| Dedup.RestartRestores | proxy-core/main.go:101-154 | starting from the same batches on the saved pool gives that pool again, endpoint by endpoint, but for priorities that were set to 0 on endpoints born with another |
| Dedup.PatchToZeroIsUndone | proxy-core/sidecars/manager.go:69-74 | a pool of one sidecar that is patched to priority 0 is the unpatched one again after a restart |
| Rules.Engine.SetRules | proxy-core/plugins/engine.go:111-127 | the new list is the old one tidied, rule by rule: criterion, switch and note stay, an ID is made where none is given, and action and action name agree, the name leading; it is built before it replaces the old |
| Rules.Engine.Evaluate | proxy-core/plugins/engine.go:131-146 | the decision of the first enabled rule that the connection meets, criterion by criterion, or the proxy without one, the kill-switch playing no part |
| Rules.FirstMatchWins | proxy-core/plugins/engine.go:64-66 | a decision is made exactly when the first enabled rule that the connection meets makes it, or it is the proxy and there is none |
| Rules.MatchesMeans | proxy-core/plugins/routing.go:22-60 | every kind of criterion, said of the connection: same host, host from a label boundary on, keyword inside the host, port or port range, protocol hint, letters in any case; the answer of the look-up for lists and networks; no other kind is ever met |
| Rules.RouterEvaluate | proxy-core/plugins/routing.go:139-156 | the loop with its flag decides by the first non-empty conjunction whose criteria are all met by the connection |
| Rules.EngineIsRouter | proxy-core/plugins/routing.go:18-19 | the engine decides like the router on its enabled rules as conjunctions of one |
| Rules.SuffixAtLabel | proxy-core/plugins/routing.go:26-29 | a domain suffix matches the whole name or from a label boundary on, never inside a label |
| Rules.PortRange | proxy-core/plugins/routing.go:65-79 | a printed range matches exactly its ports, a printed port itself |
| Rules.Itoa | proxy-core/plugins/engine.go:153-166 | the digits written backwards into the 16-byte buffer are the decimal text of the number; negative numbers give the empty text |
| Rules.GeneratedIdsDiffer | proxy-core/plugins/engine.go:149-151 | IDs generated at different positions differ, whatever the rules contain |
| Rules.IdsDistinctIff | proxy-core/plugins/engine.go:111-123 | all IDs differ exactly when the ones supplied do and none of them is one that is generated |
| Rules.MovedRuleSharesHandle | proxy-core/plugins/engine.go:149-151 | two rules with the same ID |
| Rules.Persist | proxy-core/api/api.go:1540-1549 | what is written has each rule's criterion, action name, switch and note, and an engine started from it decides every connection as this one |
| Rules.Startup | proxy-core/main.go:413-436 | the engine built at startup holds each rule as configured: its criterion and note, enabled unless the configuration says no, the action it names or the proxy, and an ID made from its criterion, its action and its place |
| Rules.Restart | proxy-core/main.go:413-436 | saving an engine and starting a new one from the configuration gives an engine that decides every connection alike |
| Rules.RuleSurvives | proxy-core/main.go:415-435 | a saved rule returns with its criterion, action, switch and note, the action's canonical name and a new ID |
| Rules.RestartKeepsDecisions | proxy-core/api/api.go:1535-1549 | after saving and restarting every connection is decided as before |
| MasterDns.ParseToml | proxy-core/bundles/bundles.go:187-209 | the reading loop gives for domain, key and method what the last line says that sets it, under either name and in capitals or small letters, or nothing without such a line |
| MasterDns.KeyReads | proxy-core/bundles/bundles.go:213-226 | a quoted key reads back exactly unless it has a line end, quotes at its ends, or a first '#' behind white space |
| MasterDns.CommentIsDropped | proxy-core/bundles/bundles.go:213-226 | a comment behind a quoted value is no part of it |
| MasterDns.DomainReads | proxy-core/bundles/bundles.go:200-201 | a domain in its array reads back exactly when it holds no word end, quote or comma and no white space around it |
| MasterDns.ArrayReadsFirst | proxy-core/bundles/bundles.go:200-226 | an array of domains is read up to its first comma, whatever else it holds |
| MasterDns.MethodReads | proxy-core/bundles/bundles.go:204-205 | a method reads back exactly when it is one word, not an array and not quoted |
| MasterDns.WrittenText | proxy-core/sidecars/configgen.go:48-65 | the text that is written, character by character: three settings and the fixed listener |
| MasterDns.TomlRoundTrip | proxy-core/sidecars/configgen.go:48-65 | the written text reads back as domain, key and method exactly when each of the three can be read |
| MasterDns.WriteAndRead | proxy-core/sidecars/configgen.go:48-65 | writing the file and reading it gives back domain, key and method exactly when each of the three can be read; nothing is written without a domain and a key |
| MasterDns.DefaultMethodReads | proxy-core/sidecars/configgen.go:53-56 | without a method the default is written, and the text reads back exactly when domain and key can be read |

## Left out

- Endpoints.Pin: `Config` maps hold strings only and are updated through one method; concurrent readers of a map are not modelled.
- Pipeline.EndToEnd: assumes what a deployment provides: distinct `Config` maps, host names without brackets, ports within `int`, no `spoof_via` left on an endpoint that has no decoy name, no real server at one of the spoofer's own addresses, and cores that listen under different names or on port ranges that do not meet.
- Pipeline.Run: the generators run unconditionally; the settings that switch one off, the default decoy name that is given to eligible endpoints before, writing the files and restarting the containers are not modelled.
- SingBox.Generate: of an outbound only kind, server, port, TLS server name, Reality flag and transport are kept; the other fields are copied through from the map. The four slices of the loop are one document value.
- Xray.Generate: the same reduction; `splithttp` and `raw` settings blocks are not modelled.
- Base64.EncodeLoop: shifts and bitwise "or" are written as multiplication, division and addition, which agree as the bits do not overlap.
- VlessBundle.BundleRoundTrip: user, host, port, label, transport and security are URI-safe, so `url.Parse` is modelled only for such an authority and fragment; the copied parameters are arbitrary bytes. `expandProto`, `mergeFlat` and the other protocols' URIs are not modelled.
- Subscription.ParseSubscription: what one entry parses to is a parameter, none, one or several endpoints; white space is ASCII.
- WeightedChoice.WeightedRandom: the draw is a parameter; the sum of weights is unbounded.
- Balancer.Balancer.PickExcluding: an unstable sort is modelled as any endpoint that could come first.
- Balancer.Balancer.DialContext: whether a dial works is a parameter; the network, the clocks and the error texts are left out. The step between a pick and its bookkeeping is interruptible in `DialRuns` and `Accounting`, not here.
- Accounting.Conservation: counters are unbounded; `Close`, which only stamps the flow, is left out.
- ProbeAll.ReturnsExpected: what a probe reports is a parameter of the slot; the roll-up log line is left out.
- ListCache.Scan: a read error, which ends the scan as silently as a line that is too long, is left out.
- ListCache.HitIsCurrent: time stamps are never reused; parsing of CIDRs and addresses and lower-casing are parameters.
- LogBus.Bus.Publish: subscribers, which may drop events, are left out.
- CapturingWriter.Writer.Write: the clock's readings and the level table are parameters; the pass-through writer is left out.
- YamlEdit.Node.SetNode: sharing of a slice's backing array is not modelled; contents are sequences. Parsing and printing of the document are assumed faithful.
- YamlEdit.ReadsBack: a mapping's content comes in pairs, and the document is a tree, as the parser builds it.
- Dedup.PoolIdsDistinctIff: within one batch an ID stands for one protocol and address, and the "only if" asks that an address or a URI goes with one ID; the parsers, the sidecars and batches of one WireGuard file make such batches.
- Dedup.SourcesNeverMeet: the un-named, "default" and "sidecars" sources share one namespace; nothing in the configuration keeps slashes and colons out of a source name.
- Rules.Engine.Evaluate: IP, GeoIP and list look-ups are a parameter; letters are folded in ASCII only. Locks are left out: a rule list is replaced in one assignment.
- Rules.RestartKeepsDecisions: the YAML text in between is assumed faithful.
- Decisions are three values; an action number outside them, which the source prints as "proxy", cannot be expressed.
- MasterDns.TomlRoundTrip: white space is ASCII, and so is upper-casing of setting names. The resolver list is left out.
- The dashboard, HTTP handlers, sockets, Docker, zip files, templates, keyword tables and default values.
- The merge of probe results into the pool and other read-modify-write windows across handlers.
- The remaining URI parsers and the `ss://` path through `url.Parse`.
- `stripListenerSections` and the Psiphon, AmneziaWG and TrustTunnel writers.
