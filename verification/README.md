# A verified model of ngrok's server and its WebSocket engine

This project models, in Dafny, the parts of the repository whose correctness is
hard to see from any one function, and proves what they promise. Code that works
step by step is modelled by classes and methods with the same fields and branches,
proved against functions on values; protocols among goroutines are modelled as a
state machine whose steps are the atomic steps of the goroutines; pure code is
modelled by functions and lemmas.

The files, each a module of the same name:

- `Bytes`, `Options`, `Strings`: bytes and exclusive-or, optional values, and the
  parts of Go's `strings` and `strconv` that the rest relies on.
- `Mask`: payload masking. The word-at-a-time form has the contract of the
  byte-at-a-time form, for both word sizes and every address.
- `Frames`: the wire format of RFC 6455, sections 5.2 to 5.5: an encoder, a one-pass
  decoder of byte streams, the meaning of a sequence of frames, and the theorem that
  they agree.
- `Writer`: the write side of a connection. Frames are built in place; control frames
  from other goroutines may go out between any two frames (`Conn.Interfere`).
- `Reader`: the read side, a machine that can stop between any two bytes, proved
  against the one-pass decoder. `Future()` is all that the decoder would still find.
- `Conversation`: both ends together, the round trip.
- `TruncWriter`: the writer that holds back the last four bytes.
- `Utf8`: the table-driven UTF-8 automaton against the grammar of RFC 3629, section 4.
- `Lru`: the cache, a list and a table of shared entries and a 64-bit size counter.
- `Vhosts`, `Registry`, `Requests`: hostname rules, the tunnel registry with its
  affinity cache, and the handling of one request for tunnels. The parameter `busy`
  says whether other goroutines work between the steps.
- `Lifecycle`: control connections, tunnels, proxy connections and public handlers as
  one state machine. A run (`IsRun`) is any sequence of steps that their guards allow;
  `RunKeeps` shows the invariant `Inv` in every state of every run, and the theorems
  follow from it.
- `Config`: the client's configuration parser and printer.
- `Domains`: the admin panel's list of domains, their certificates, and the removal
  of a domain.
- `CertReload`: hot reload of a certificate, racing with other callers and with a
  program that rewrites the files.

Assumptions and choices of modelling:

- `Lifecycle` takes "evaluate `c.id` and run `controlRegistry.Del`"
  (src/ngrok/server/control.go:271) as one step. `LateDeregister` shows why: split in
  two, a stopper could delete the control that replaced it.
- In `Lifecycle` a tunnel's shutdown takes one step per URL, and the tunnel's list
  loses the URL in the same step; no other goroutine reads that list.
- Which calls of a connection's ping, pong and close handlers succeed is an input
  (`Reader.Conn.accepts`), the same as any handlers with any state of their own.
- Timeouts, heartbeats, network failures, the ports the system hands out and random
  names are nondeterministic choices.
- Lower-casing is that of ASCII and of the two other letters whose lower case is
  ASCII. Files and environment variables hold valid UTF-8. A URL is as long as its
  number of characters.
- Sizes of cache entries are not negative; the cache's counter wraps at 2^64 as the
  source's does.
- The length of one `Write` plus the buffer stays below 2^63, as it does for anything
  that fits in memory.

What the proofs brought to light, where code and expectation differ:

- A truncated message never ends in a clean EOF if the byte source reports its end
  separately from data. If it reports both at once, `Conversation.FragmentCut` gives
  the only failing case: the data ends exactly at the end of a frame that is not the
  message's last. `Reader.Conn.Read` has the condition.
- While `NextReader` skips the rest of an unread message, a truncated stream shows as
  the source's own EOF, not as an unexpected one: exactly when it ends inside a frame
  of that message (`Reader.Conn.NextReader`, `Conversation.SkippedCut`).
- The frames of an unread message that are still to come count towards the read limit
  of the next one. `Reader.Conn.NextReader` says when a message is refused; in
  `Conversation.UnreadCounts` one of two bytes is, at a limit of two. If every message
  is read to its end only its own length counts (`Conversation.Receive`).
- Saving a cache and loading it reverses the order of use (`Lru.LoadReversesOrder`).
- The web tunnels of one request are meant to share one host. They do if and only if
  the request names a host, or the first virtual host of its first protocol is in
  normal form (`Requests.OneHostExactly`). A space before a virtual host's default
  port breaks that: with VHOST `a :80,a` a client that asks for http and https gets
  "name.a " and "name.a" (`Requests.TwoHosts`, `Requests.SpacedRun`).
- A tcp tunnel on a server without any domain panics; the client gets no answer and
  its control shuts down (`Requests.Control.RegisterTunnel`).
- Values so large that the cache's counter wraps keep eviction from its work, exactly
  when the total of some prefix over the capacity wraps to within it
  (`Lru.EvictedExact`, with a case in `Lru.WrappedCounter`); with capacity plus size
  below 2^64, as for a cache of one megabyte of URLs, that cannot happen
  (`Lru.SetItemFits`).
- The configuration round trip holds exactly for clean values and names and lines
  below the scanner's limit (`Config.RoundTrip`); a quoted value with blanks inside
  the quotes is read but not written back.
- Certificate arguments that end in a bare `-domainCert` swallow an upserted one
  (`Domains.UpsertExact`), and malformed ones lose a certificate when another domain
  is removed (`Domains.MalformedLoses`).
- With only one of the two certificate paths configured, a loaded certificate is
  never reloaded (`CertReload.CertSource.Certificate`); `CertReload.StaleAsset` is a
  state in which the file has changed and the old pair is still returned.

## Model

| member | source | states |
|---|---|---|
| Mask.MaskBytesSafe | src/github.com/gorilla/websocket/mask_safe.go:9-15 | the buffer is masked byte by byte from the given position, nothing outside it changes, and the position returned is the one to go on with |
| Mask.MaskBytes | src/github.com/gorilla/websocket/mask.go:13-54 | the word-at-a-time form, for 4- and 8-byte words and every address and length, changes the buffer and the position exactly as the byte form does |
| Mask.MaskWords | src/github.com/gorilla/websocket/mask.go:33-44 | one exclusive-or per word with one key word masks the whole stretch |
| Mask.MaskedAt | src/github.com/gorilla/websocket/mask_safe.go:9-15 | byte i of the data meets key byte (pos + i) mod 4 |
| Mask.MaskedTwice | src/github.com/gorilla/websocket/mask_safe.go:9-15 | masking twice with the same key and position is the identity |
| Mask.MaskedConcat | src/github.com/gorilla/websocket/mask_safe.go:9-15 | masking a concatenation is masking the parts with the position threaded through |
| Frames.PlayEncoded | src/github.com/gorilla/websocket/conn.go:787-1054 | from any point of a conversation, decoding the bytes of any legal sequence of frames gives back what was sent, whatever bytes follow |
| Frames.RoundTrip | src/github.com/gorilla/websocket/conn.go:549-774 | the peer of a fresh connection decodes exactly the messages, pings, pongs and close that were sent, in order |
| Frames.TornRoundTrip | src/github.com/gorilla/websocket/conn.go:378-404 | a connection lost inside a frame: every earlier message is heard, and the cut frame never completes one |
| Frames.PlayIsCounted | src/github.com/gorilla/websocket/conn.go:888-905 | on every byte stream, the lengths counted for a message are at least what is decoded of it, and exactly that when it is complete |
| Frames.EncodedIsCarried | src/github.com/gorilla/websocket/conn.go:549-634 | a legal sequence of whole frames announces for each message exactly its payload, in all no more than its bytes |
| Frames.BigEndianInverse | src/github.com/gorilla/websocket/conn.go:580-594 | a length stored in network order is read back |
| Writer.Conn.constructor | src/github.com/gorilla/websocket/conn.go:284-325 | a new connection meets the invariant, with nothing sent |
| Writer.Conn.WriteLocked | src/github.com/gorilla/websocket/conn.go:378-404 | a write adds one whole legal frame, or nothing once an error is recorded, or part of a frame and then an error for ever; a close frame is recorded as the last |
| Writer.Conn.ControlFrame | src/github.com/gorilla/websocket/conn.go:414-430 | the bytes built for a control frame are its encoding, masked exactly on the client |
| Writer.Conn.WriteControl | src/github.com/gorilla/websocket/conn.go:406-465 | a control frame of at most 125 bytes goes out whole, changes nothing of the message in progress, and the wire stays legal; each error case is the source's |
| Writer.Conn.BeginMessage | src/github.com/gorilla/websocket/conn.go:468-501 | the previous message is closed first, and its data joins what was sent; for a legal type the only error is the recorded one |
| Writer.Conn.NextWriter | src/github.com/gorilla/websocket/conn.go:511-523 | a fresh writer for the next message, the one open writer of the connection, unless an error is recorded |
| Writer.Conn.WriteMessage | src/github.com/gorilla/websocket/conn.go:751-774 | on success exactly this message joins the messages sent, after the one that was pending; on failure the messages sent do not include it, and an error is recorded, or the type is illegal, or a control message does not fit one frame |
| Writer.MessageWriter.BuildFrame | src/github.com/gorilla/websocket/conn.go:559-603 | writeBuf[framePos:pos], followed by extra, is exactly header, key and masked payload of one frame, in the shortest length form |
| Writer.MessageWriter.FlushFrame | src/github.com/gorilla/websocket/conn.go:549-634 | opcode on the first frame and 0 after, FIN only on the last; what was written stays what went out plus what is buffered |
| Writer.MessageWriter.NCopy | src/github.com/gorilla/websocket/conn.go:636-648 | there is room for at least one byte, a frame going out when the buffer is full, and nothing written is lost; a failure is a recorded error or a control message over its frame |
| Writer.MessageWriter.Write | src/github.com/gorilla/websocket/conn.go:650-675 | all of the data is appended to the message, however it is fragmented; a writer that has ended touches nothing; a failure is a recorded error or a control message over its frame |
| Writer.MessageWriter.Close | src/github.com/gorilla/websocket/conn.go:720-726 | the message sent is all the data written, and the writer is ended |
| Reader.Conn.ReadLength | src/github.com/gorilla/websocket/conn.go:840-871 | a length of any of the three forms is read in network order; one that does not fit 63 bits is refused, a stream that ends inside it is reported as cut |
| Reader.Conn.CountLength | src/github.com/gorilla/websocket/conn.go:888-905 | with wrap-around of 64-bit sums, a message is refused exactly when its announced length exceeds the limit, before any of that frame is delivered |
| Reader.Conn.ReadControl | src/github.com/gorilla/websocket/conn.go:907-952 | a control frame's payload is unmasked and handed on; a close ends the stream with its code, or as a violation |
| Reader.Conn.NextFrame | src/github.com/gorilla/websocket/conn.go:787-952 | one frame is taken off the stream as the decoder would take it, and its length off what is announced, or the reader stops as the decoder does, or because a handler fails, or because this frame takes the count over the limit |
| Reader.Conn.AdvanceFrame | src/github.com/gorilla/websocket/conn.go:787-952 | the rest of the current frame is skipped first; the source's own error, an EOF included, exactly when the stream ends in that rest; then as NextFrame |
| Reader.Conn.NextReader | src/github.com/gorilla/websocket/conn.go:969-1005 | the next data message by the decoder, whatever was left unread; unless a handler fails, refused if and only if what is still announced of the message before and the next first frame are together over the limit, or a length has no 63 bits; EOF if and only if the stream ends inside a frame of the message before; once an error is recorded it is returned again and nothing is read |
| Reader.Conn.ReadFrameBytes | src/github.com/gorilla/websocket/conn.go:1019-1037 | the bytes delivered are the next payload bytes, unmasked, as many as source, buffer and frame allow |
| Reader.Conn.Read | src/github.com/gorilla/websocket/conn.go:1009-1054 | whatever the sizes, a read delivers the next bytes of the decoder's message; inside a frame, EOF on an incomplete message if and only if the source reports its end with the last bytes of a frame that is not the last; errors are permanent; the limit stops it only when the whole message is over it, and any other end shows it is not; no more than the limit is ever delivered; a read with room, from a source that yields, makes progress |
| Reader.ResumeLater | src/github.com/gorilla/websocket/conn.go:1019-1037 | reading bytes of a frame takes exactly those off the front of all that is to come |
| Conversation.Drain | src/github.com/gorilla/websocket/conn.go:1009-1054 | any sequence of reads of any sizes together delivers what one read would, never more than the read limit, refused only if the whole message is over it; enough nonempty reads come to the end of the message or an error |
| Conversation.Receive | src/github.com/gorilla/websocket/conn.go:969-1054 | for every byte stream, the types and payloads read are those of the one-pass decoder; when the reader stops on its own nothing is missing and the handlers had every ping and pong; with enough reads exactly the decoder's messages are read, complete flags included, and the limit stops the reader if and only if some message announces more |
| Conversation.WireDecodes | src/github.com/gorilla/websocket/conn.go:549-774 | after any run of a writer the wire decodes to exactly what was sent |
| Conversation.TornWireDecodes | src/github.com/gorilla/websocket/conn.go:378-404 | the same after a network error in the middle of a frame |
| Conversation.ReadBack | src/github.com/gorilla/websocket/conn.go:549-1054 | the round trip: a connection of the opposite role, with any limit and any handlers, reads back what any run of a writer wrote, whatever the reads; with enough of them all messages and controls, unless a handler fails; refused if and only if some message sent is over the limit |
| Conversation.ReadEverything | src/github.com/gorilla/websocket/conn.go:549-1054 | with handlers that accept, no limit and enough reads, on a wire below 2^63 bytes: the messages read equal the messages sent, and the pings and pongs handled those sent |
| Conversation.WireCounts | src/github.com/gorilla/websocket/conn.go:888-905 | an intact wire announces for each message what was sent |
| Conversation.FragmentCut | src/github.com/gorilla/websocket/conn.go:1009-1054 | a clean EOF on an incomplete message does arise, in this case; that there is no other is part of Reader.Conn.Read |
| Conversation.SkippedCut | src/github.com/gorilla/websocket/conn.go:787-794 | a stream that ends in what NextReader skips shows as a clean EOF |
| Conversation.UnreadCounts | src/github.com/gorilla/websocket/conn.go:888-905 | a run in which a message of two bytes is refused at a limit of two, because of the unread rest of the one before |
| TruncWriter.Writer.Write | src/github.com/gorilla/websocket/compression.go:64-90 | bytes forwarded followed by bytes held are all bytes written, the bytes held are the last four or all, and the count is short by the bytes newly held; while all fits in what is held nothing is forwarded and nothing fails |
| Utf8.CharIsEncoding | src/github.com/gorilla/websocket/examples/autobahn/server.go:234-249 | the grammar's characters are exactly the encodings of scalar values, the value being the one its bits give |
| Utf8.WellFormedIsEncoding | src/github.com/gorilla/websocket/examples/autobahn/server.go:234-249 | every well-formed string is the encoding of a sequence of scalar values |
| Utf8.EncodingsAreWellFormed | src/github.com/gorilla/websocket/examples/autobahn/server.go:234-249 | and every encoding of scalar values is well-formed |
| Utf8.TableClass | src/github.com/gorilla/websocket/examples/autobahn/server.go:234-243 | the byte rows of the table, all 256 entries, as byte ranges |
| Utf8.TableRow | src/github.com/gorilla/websocket/examples/autobahn/server.go:244-248 | the state rows of the table as byte ranges |
| Utf8.Decode | src/github.com/gorilla/websocket/examples/autobahn/server.go:256-265 | one table step: the next state by byte range and the scalar so far with six more bits |
| Utf8.RejectAbsorbs | src/github.com/gorilla/websocket/examples/autobahn/server.go:256-265 | once rejected, always rejected |
| Utf8.AcceptsWellFormed | src/github.com/gorilla/websocket/examples/autobahn/server.go:234-265 | from the start the automaton ends accepting on exactly the well-formed strings |
| Utf8.LastScalar | src/github.com/gorilla/websocket/examples/autobahn/server.go:256-265 | whenever the automaton accepts after a nonempty string, x is the last scalar value encoded |
| Utf8.RejectsHopeless | src/github.com/gorilla/websocket/examples/autobahn/server.go:256-265 | it rejects exactly when no continuation could make the string well-formed |
| Utf8.RunConcat | src/github.com/gorilla/websocket/examples/autobahn/server.go:256-265 | reading a concatenation is reading the parts in turn |
| Utf8.Validator.Read | src/github.com/gorilla/websocket/examples/autobahn/server.go:195-211 | the verdict depends on the bytes seen so far and the end of the stream alone, so on no way of cutting it into reads |
| Lru.FittingIsLongest | src/ngrok/cache/lru.go:236-245 | the fitting prefix, most recently used first, is the longest that fits |
| Lru.EvictedExact | src/ngrok/cache/lru.go:236-245 | with its wrapping counter eviction keeps the longest prefix that fits if and only if no prefix over the capacity has a total that wraps to within it |
| Lru.EvictedIsLongest | src/ngrok/cache/lru.go:236-245 | whatever the sizes, eviction keeps the longest prefix whose counter is within the capacity |
| Lru.WrappedCounter | src/ngrok/cache/lru.go:228-245 | three sizes, of which two fit, that add up to 2^64 + 1: nothing is evicted |
| Lru.SetItemFits | src/ngrok/cache/lru.go:213-245 | a cache within its capacity stays within it, and keeps the longest prefix that fits, when capacity plus new size is below 2^64 |
| Lru.SetThenLookup | src/ngrok/cache/lru.go:74-83 | what was just set is found if it fits alone, and is not found if it does not, unless the counter wraps |
| Lru.WithoutKeepsOthers | src/ngrok/cache/lru.go:96-109 | removing a key changes no other key's value |
| Lru.LoadReversesOrder | src/ngrok/cache/lru.go:183-203 | loading a saved cache into an empty one of the same capacity brings back every item, in the opposite order of use |
| Lru.CounterMoves | src/ngrok/cache/lru.go:213-221 | adding a difference of sizes through uint64, negative or not, gives the counter of the new total |
| Lru.LRUCache.constructor | src/ngrok/cache/lru.go:54-60 | an empty cache meets the invariant |
| Lru.LRUCache.CheckCapacity | src/ngrok/cache/lru.go:236-245 | the loop ends, never takes from an empty list, and leaves the longest prefix that fits whenever the counter had not wrapped |
| Lru.LRUCache.EvictBack | src/ngrok/cache/lru.go:238-244 | the least recently used item leaves list, table and counter |
| Lru.LRUCache.UpdateInplace | src/ngrok/cache/lru.go:213-221 | the item has its new value and is first, for values of any size, and the counter is the sum of the sizes modulo 2^64 |
| Lru.LRUCache.AddNew | src/ngrok/cache/lru.go:228-234 | the new item, of any size, is first, and eviction takes from the other end |
| Lru.LRUCache.MoveToFront | src/ngrok/cache/lru.go:223-226 | the item becomes the first and the others keep their order |
| Lru.LRUCache.Get | src/ngrok/cache/lru.go:62-72 | the value that the items hold for the key, which is moved to the front; nothing changes when it is absent |
| Lru.LRUCache.Set | src/ngrok/cache/lru.go:74-83 | table, list and counter agree afterwards, and the items are what eviction leaves of the new item and the others; within its capacity the cache stays within it |
| Lru.LRUCache.SetIfAbsent | src/ngrok/cache/lru.go:85-94 | an item that is present keeps its value and moves to the front |
| Lru.LRUCache.Delete | src/ngrok/cache/lru.go:96-109 | exactly this key is gone, and the result says whether it was there |
| Lru.LRUCache.Clear | src/ngrok/cache/lru.go:111-118 | nothing is left |
| Lru.LRUCache.SetCapacity | src/ngrok/cache/lru.go:120-126 | eviction by the new capacity; the longest prefix that fits unless the counter had wrapped |
| Lru.LRUCache.Items | src/ngrok/cache/lru.go:156-166 | the items, most recently used first |
| Lru.LRUCache.LoadItems | src/ngrok/cache/lru.go:183-203 | each saved item is set in turn |
| Vhosts.ComputePublicVhosts | src/ngrok/server/tunnel.go:142-168 | the loop with its set of seen hosts lists each nonempty virtual host where it first occurs |
| Vhosts.FirstsExact | src/ngrok/server/tunnel.go:152-167 | no virtual host twice, and exactly the nonempty ones |
| Vhosts.ValidIsNormal | src/ngrok/server/tunnel.go:170-197 | a valid hostname is already trimmed and in lower case and holds no colon |
| Registry.KeysNameProtocol | src/ngrok/server/registry.go:93-100 | both cache keys determine the protocol they were made for |
| Registry.CachedIsAffine | src/ngrok/server/registry.go:102-115 | a cached registration is none, or a URL of the asked protocol that this server may publish, for the web a name under its first virtual host |
| Registry.CachedAfterRemembered | src/ngrok/server/registry.go:102-126 | after a registration the same client is offered that URL |
| Registry.WishIsAffine | src/ngrok/server/tunnel.go:83-112 | a hostname or subdomain that is granted equals or lies under a configured virtual host |
| Registry.NameUnder | src/ngrok/server/tunnel.go:103-117 | a subdomain or a random name makes a host under the first virtual host |
| Registry.UnderFirstIsAffine | src/ngrok/server/tunnel.go:114-117 | a name under the first virtual host is a host the server may publish |
| Registry.HostNormal | src/ngrok/server/tunnel.go:152-163 | such a host is in normal form if and only if the first virtual host is |
| Registry.TunnelRegistry.constructor | src/ngrok/server/registry.go:31-36 | the empty registry is sound |
| Registry.TunnelRegistry.Register | src/ngrok/server/registry.go:80-91 | a free URL is added, a taken one changes nothing; every registered URL stays one the server may publish |
| Registry.TunnelRegistry.UnregisterURLs | src/ngrok/server/tunnel.go:75-80 | exactly the tunnel's own URLs leave the registry, every other one keeps its tunnel |
| Registry.TunnelRegistry.GetCachedRegistration | src/ngrok/server/registry.go:102-115 | the URL cached for the client's identifier, else for its address, and the cache stays sound |
| Registry.TunnelRegistry.RegisterAndCache | src/ngrok/server/registry.go:117-126 | on success the URL is registered and cached under both keys, else neither map nor cache changes |
| Registry.TunnelRegistry.RegisterRepeat | src/ngrok/server/registry.go:131-149 | one previously free URL is added or the map is unchanged; the cached URL is the first tried; giving up means that five URLs under the first virtual host were taken |
| Registry.TunnelRegistry.RegisterURL | src/ngrok/server/tunnel.go:53-62 | the tunnel lists the URL exactly when the registry took it |
| Registry.TunnelRegistry.RegisterVhost | src/ngrok/server/tunnel.go:83-123 | the outcome is what the request asked for: the source's error, the named host or subdomain exactly if it is free, or a name under the first virtual host, which fails only when such names are taken; a success adds one free URL within the server's domains, a failure none |
| Requests.Control.NewTunnel | src/ngrok/server/tunnel.go:201-296 | a failure leaves the registry as it was; a success registers one free URL, which is the tunnel's only one; which of the two, and the error or URL, follows from the request, the ports and what is registered |
| Requests.Control.BindTcp | src/ngrok/server/tunnel.go:212-234 | a bound port's URL is registered and listed, or nothing is; without a domain the panic leaves the registry as it was |
| Requests.Control.RegisterTunnel | src/ngrok/server/control.go:134-163 | k protocols get k successes, or j < k successes and one error, or no answer after a panic, each with the outcome of NewTunnel under the host of the answer before; the tunnels and the registry grow by the successes; a first failure without tunnels, or a panic, begins the shutdown |
| Requests.OneHostExactly | src/ngrok/server/control.go:155-161 | the web tunnels of one request, if there are two or more, have one host if and only if the request names a host or the first virtual host of the first protocol is in normal form |
| Requests.TwoHosts | src/ngrok/server/tunnel.go:152-163 | with VHOST "a :80,a" a request for http and https is granted "name.a " for the one and "name.a" for the other, for every name |
| Requests.SpacedRun | src/ngrok/server/control.go:134-163 | a run of one request for "http+https" on a fresh server that is answered with two hosts |
| Requests.BothGranted | src/ngrok/server/control.go:134-163 | a request for two protocols whose wishes name two free URLs is answered with both |
| Requests.ColonStays | src/ngrok/server/control.go:161 | a host with a port is never a valid hostname for the next protocol |
| Lifecycle.ReplacementChain | src/ngrok/server/control.go:109-130 | in every run, when a control's manager has started, every control it replaced, directly or not, has completed its shutdown, owns no URL and has an empty pool |
| Lifecycle.DeregisterIsOwn | src/ngrok/server/control.go:352-361 | no stopper ever removes another control's entry from the registry |
| Lifecycle.StepKeepsDirectory | src/ngrok/server/registry.go:183-207 | every step keeps the registry true: each name leads to the control that has it, and a control waits for an older one |
| Lifecycle.OneOwner | src/ngrok/server/tunnel.go:53-80 | in every run a URL is registered for a tunnel if and only if it is that tunnel's |
| Lifecycle.UrlSteps | src/ngrok/server/tunnel.go:201-318 | only a registration, of one free URL, and a tunnel's shutdown, of its own URL, change the tunnel registry |
| Lifecycle.StepKeepsOwnership | src/ngrok/server/control.go:284-295 | every step keeps ownership: a tunnel with a URL is one its control still answers for |
| Lifecycle.CompleteForever | src/ngrok/server/control.go:284-297 | once a control's shutdown is complete none of its URLs remain and its pool is empty, and no step changes that |
| Lifecycle.OnePlace | src/ngrok/server/control.go:299-347 | in every run each connection given to NewProxy is in exactly one place: on its way, in one pool, with one handler, or closed |
| Lifecycle.ArrivedForever | src/ngrok/server/control.go:299-347 | a connection given to NewProxy is in one place in every later state of the run |
| Lifecycle.PoolBounded | src/ngrok/server/control.go:303-309 | a pool never holds more than ten connections, none twice |
| Lifecycle.StepKeepsConserved | src/ngrok/server/tunnel.go:373-396 | every step of proxies, handlers and stoppers keeps each connection where it is recorded |
| Lifecycle.EnterKeepsConserved | src/ngrok/server/main.go:104-125 | a connection that meets a full or closed pool is closed, not lost |
| Lifecycle.MessageOrder | src/ngrok/server/control.go:80-125 | the first message on a control channel is AuthResp, and after a positive one the second is ReqProxy |
| Lifecycle.OneSuccessEach | src/ngrok/server/control.go:151-159 | in every run the successes reported are the tunnels opened |
| Lifecycle.NoSendAfterClose | src/ngrok/server/control.go:273-279 | NewControl and manager are done when the out channel is closed, so neither can send on it |
| Lifecycle.RunKeeps | src/ngrok/server/control.go:63-347 | all invariants hold in every run |
| Config.RoundTrip | src/ngrok/client/config.go:288-454 | for any order of the maps, parsing what was printed restores the settings if and only if values are clean, names can be keys, and lines fit the scanner |
| Config.FoldLines | src/ngrok/client/config.go:410-454 | what is read back is every value trimmed of blanks and quotes |
| Config.ParsedSafe | src/ngrok/client/config.go:288-399 | nothing ever parsed holds a comment sign or line break, and every name can be a key |
| Config.LongLineFails | src/ngrok/client/config.go:293-298 | one line over the scanner's limit fails the parse |
| Config.ReadPair | src/ngrok/client/config.go:380-399 | a printed key and value are read back with their indentation |
| Config.Configuration.ParseConfiguration | src/ngrok/client/config.go:288-378 | the line loop sets the fields, and reports the first problem, as a fold over the lines does |
| Config.Configuration.ReadEntry | src/ngrok/client/config.go:299-374 | one line changes fields, section, tunnel and proto state as specified, or nothing |
| Config.Configuration.FormatConfiguration | src/ngrok/client/config.go:410-454 | the text is the specified lines for some order of the tunnels and of each tunnel's protocols |
| Domains.ConfiguredDomainList | src/ngrok/admin/main.go:1458-1480 | the loop lists the listable candidates, each where it first occurs |
| Domains.KeptDistinct | src/ngrok/admin/main.go:1462-1469 | every listed domain is valid and none is listed twice |
| Domains.ValidIsNormalized | src/ngrok/admin/main.go:1499-1526 | a valid domain name is already normalized |
| Domains.DomainCertArgPaths | src/ngrok/admin/main.go:2065-2095 | the index loop finds what the argument list gives for the domain |
| Domains.RemoveDomainCertArg | src/ngrok/admin/main.go:2120-2140 | the loop drops exactly the domain's arguments |
| Domains.UpsertDomainCertArg | src/ngrok/admin/main.go:2097-2118 | the loop drops them and appends the new one |
| Domains.DropKeepsOthers | src/ngrok/admin/main.go:2120-2140 | unless a bare flag has an argument of that domain for its value, dropping one domain changes no other domain's paths and leaves none for it |
| Domains.UpsertExact | src/ngrok/admin/main.go:2097-2118 | after an upsert the domain has the new paths exactly when the arguments did not end in a bare flag |
| Domains.MalformedLoses | src/ngrok/admin/main.go:2120-2140 | for any two domains and any paths, arguments where a flag stands for a value lose the other domain's certificate |
| Domains.FieldsOfJoin | src/ngrok/admin/main.go:2120-2140 | arguments joined with spaces are split back into the same fields |
| Domains.RemovalKeepsList | src/ngrok/admin/main.go:1768-1817 | the list after a removal is the old list without the domain, in order |
| Domains.RemovalKeepsCerts | src/ngrok/admin/main.go:1798-1834 | every surviving domain, a promoted one included, keeps its certificate and key paths |
| Domains.ServerConfig.RemoveDomainFromConfig | src/ngrok/admin/main.go:1768-1817 | errors change nothing; otherwise list and paths are as the two theorems say |
| Domains.DefaultsIdempotent | src/ngrok/admin/main.go:1107-1132 | filling in defaults twice is filling them in once, and does not change the list of configured domains |
| CertReload.CertSource.constructor | src/ngrok/server/tls.go:39-48 | a source with nothing loaded meets the invariant |
| CertReload.CertSource.StatModTimes | src/ngrok/server/tls.go:57-73 | two files looked at one after the other, writes in between allowed |
| CertReload.CertSource.Load | src/ngrok/server/tls.go:141-169 | whatever is written meanwhile, what is loaded is current or a recorded time is not |
| CertReload.CertSource.Reload | src/ngrok/server/tls.go:126-169 | no renewal is missed and a loaded certificate is never lost, whatever is written while the lock is held |
| CertReload.CertSource.Certificate | src/ngrok/server/tls.go:97-170 | once a certificate is loaded no call returns an error; a returned pair matches and is the one held; the first call, and one past the next check, returns what the files hold if nothing disturbs it |
| CertReload.StaleAsset | src/ngrok/server/tls.go:97-170 | with one path configured: the file has new bytes that would load, and any later call still returns the old pair |

## Left out

- Sockets, TLS, buffered readers and HTTP parsing: a connection is a byte sequence with steps that append or consume and may fail.
- Deflate, compressed messages and the flate pools: RSV1 stays off; only the truncating writer is modelled.
- PreparedMessage, WriteString, ReadFrom, JSON messages and the pool of write buffers.
- The WebSocket handshake and proxies, and SetReadLimit in the middle of a message.
- The panic after a thousand reads of a failed connection, and the replies to pings and closes that the default handlers write.
- Mask.MaskBytes: words are little-endian in memory; a big-endian layout is not modelled.
- Lru.LRUCache.Set: does not model access times.
- Lru.LRUCache.LoadItems: decoding of the saved file is not part of this model.
- Registry.TunnelRegistry.RegisterRepeat: with other goroutines at work it speaks of the map at the step that registers; the client id is taken as fixed during the call.
- Registry.TunnelRegistry.constructor: does not model loading a saved cache file, whose URLs may come from other virtual hosts.
- Requests.Control.NewTunnel: does not model HTTP authentication or metrics, and the listener that a panic leaves open is not tracked.
- Requests.Control.RegisterTunnel: does not model a send on the out channel that blocks for ever after the writer has died.
- Lifecycle.MessageOrder: says nothing of the id in AuthResp, which is empty when the control was replaced while it waited.
- Lifecycle.ReplacementChain: does not say that there is one live control per id, which is false: a control that stops by itself deregisters before it tears down its tunnels.
- The control lifecycle is a state machine on values: the goroutines' shared Control and Tunnel objects are indices into sequences, so aliasing is by index. One step is one channel operation, one registry call under its lock, or one change of a goroutine's own state.
- Liveness: the manager can block for ever on the out channel once the writer is dead. In this state machine the manager does not panic; `Requests` has the one panic of a request.
- Lifecycle.OnePlace: the twenty attempts of one handler are not counted; a handler may retry any number of times.
- Config.RoundTrip: speaks of the fields that are printed; LogTo and Path are not among them, and a nil tunnel is not modelled.
- Domains.RemovalKeepsList: speaks of removals that leave a domain; when none is left the configuration is reset and the environment file decides.
- Domains.DefaultsIdempotent: only the fields that domains and certificates depend on; cleaning of joined paths is not modelled.
- CertReload.CertSource.Certificate: the time of the next check is an arbitrary number; parsing of certificates is not modelled, whether a pair matches is a parameter.
- The rest of the admin panel, the client's ring buffer and id map, logging, metrics and the message packing around the control channel.
