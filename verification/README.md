# wireguard-tools in Dafny

A model of the parts of wireguard-tools in which a mistake is hardest to see by
reading, with proofs of what they are for.  `dafny verify dfyconfig.toml` checks
everything.

* **Public keys.**  The three implementations of Curve25519 (64-bit limbs,
  ten 32-bit limbs, sixteen 16-bit limbs) from bytes to bytes: each is the function
  X25519 of section 5 of RFC 7748, so all three agree.  Machine integers are
  subset newtypes, so every sum, product and shift is proved not to overflow.
  The 64-bit ladder runs over one bit more than the standard's; that this is
  harmless for every base point rests on 2^255 - 19 being prime, which is
  proved by a chain of Pocklington certificates.
* **Netlink.**  Attribute bytes, the message builder, the set-device loop that
  cuts a device into messages of bounded size, the effect of the messages on a
  receiver, said field by field of the device, and on the way back the parser and
  the merging of a dump's fragments on linked lists.
* **syncconf.**  The sort-and-scan edit of a configuration, and what applying
  the edited configuration does to the running peers.
* **Text.**  The userspace protocol, configuration files and `showconf`, the
  syntax highlighter, and the Base64 and hexadecimal key codecs, each with
  its round trip or an independent reference.  A request of the userspace protocol
  means to a daemon what the netlink messages for the same device mean to the
  kernel.  What each key, value and name does is stated by its very text.

Where the source works in place, the model does: limb arrays, the message
buffer, the span array and the linked lists of peers are heap objects changed by
methods, and each method is tied to a function of the old contents.

How the modules depend on each other:

| part | modules |
|---|---|
| integers, bits, primes | Bits, Machine, LittleEndian, Primes, PrimeField |
| Curve25519 | Field, Ladder, Inversion, Clamping, HaclArith, HaclField, HaclLadder, HaclFormat, HaclCurve, Radix16, EmbeddedField, EmbeddedCurve, FiatLimbs, FiatField, FiatCurve, Agreement |
| netlink | Common, Tlv, TlvMessage, WgMessage, Kernel, WgDevice, SetMeaning, SetDevice, Coalesce, Reassembly, DumpParser, DumpWriter, WireFormat |
| syncconf | SyncConf, SyncMeaning |
| text | Letters, Text, Base64, KeyCodec, HexCodec, UapiReader, UapiNames, UapiWriter, UapiRoundTrip, UapiReplies, UapiKeys, UapiDaemon, ConfigParser, ConfigNames, ShowConf, ConfigRoundTrip, ConfigReadsBack, ConfigAccepts, ConfigForms, ConfigValues, ShowForms, Spans, Colours, Highlighter, HighlightChecks |

Findings about the source:

* Merging the fragments of a dump follows a null tail pointer when, within the
  fragments of one peer, an empty one that is not the last comes after a
  non-empty one (`Reassembly.SafeExactly`, `Reassembly.UnsafeExample`).  The
  fragments described in `src/uapi/linux/linux/wireguard.h` never do
  (`Reassembly.Reassembles`).
* After merging, the device's pointer to its last peer points at a freed peer
  exactly when the last peer came in several fragments
  (`Coalesce.CoalescePeers`, `DumpParser.KernelGetDevice`).
* An invalid allowed IP in a dump is swallowed: it ends its peer without an error
  (`DumpParser.RefusedExactly`, `DumpParser.InvalidIpEndsPeer`).
* A device written to the userspace protocol and read back is the same only under
  the condition of `UapiRoundTrip.EchoIsDevice`: for instance an all-zero
  preshared key is read as none (`UapiRoundTrip.ZeroKeyIsLost`).
* A configuration shown and parsed again is the same only under the condition of
  `ConfigAccepts.SameAgain`: for instance a keepalive that is switched off is not
  shown (`ConfigAccepts.KeepaliveOffIsLost`, `ConfigAccepts.EmptyListenIsLost`).
* An allowed IP of a family that is neither IPv4 nor IPv6 makes the kernel refuse the
  device, and is silently not sent to a daemon (`SetMeaning.WholeMeans`,
  `UapiDaemon.RequestMeans`); otherwise the two end in the same state.
* A negative number of milliseconds close to -2^64 is accepted
  (`ConfigValues.NegativeReads`).
* `syncconf` equals replacing all peers except for endpoints: a peer whose file
  entry has none keeps the one it is using (`SyncMeaning.SyncIsReplace`).
* `fsquare_times` with a count of zero still squares once
  (`HaclField.FSquareTimes`); no caller passes zero.

Calls into the C library are parameters: `getaddrinfo`, `getnameinfo`,
`inet_pton` and `inet_ntop` (records `Net` and `Lib`) are arbitrary functions, and
round trips ask of them only what the predicates `NetOk`, `NetPrints`, `SocketOk`
and `LibOk` say: numeric forms of addresses convert back, and do not begin with a
sign.

## Model

| member | source | states |
|---|---|---|
| Agreement.AllDerivations | src/curve25519.c:88-93 | The 64-bit build, the build without 128-bit integers and the embeddable library write the same 32 public-key bytes for every private key. |
| Agreement.BothBuilds | src/curve25519.c:95-98 | The two builds of `curve25519` write the same 32 bytes for every secret and every base point. |
| Agreement.LEInjective | src/curve25519.c:58-74 | Byte strings of one length with the same little-endian value are equal, so equal values mean equal output bytes. |
| HaclCurve.GeneratePublic | src/curve25519.c:88-93 | The bytes written are X25519(clamped secret, 9) of section 5 of RFC 7748, for every secret. |
| HaclCurve.Curve25519Generic | src/curve25519-hacl64.h:755-784 | The bytes written are X25519(clamped secret, decoded base point), for every secret and every 32-byte base point, canonical or not: decoding, clamping, a ladder over 256 bits, inversion and encoding together. |
| HaclCurve.AgreesWithRfc | src/curve25519-hacl64.h:586-597 | On a clamped scalar the 256-bit ladder and the 255-bit ladder of RFC 7748 end in the same affine coordinate, for every u. |
| HaclCurve.ScalarOfPoint | src/curve25519-hacl64.h:743-753 | Writes the canonical encoding of x times z to the power p - 2. |
| Ladder.DeferredIsEager | src/curve25519-fiat32.h:796-845 | Postponing and merging conditional swaps (fiat32, RFC 7748) gives the state of swapping back after every step (hacl64, embeddable), for all scalars, lengths and start states. |
| Ladder.LeadingZeroBit | src/curve25519-hacl64.h:541-597 | The extra step the 64-bit ladder makes on bit 255 does not change the affine result, for every u including 0. |
| Ladder.ScaleRun | src/curve25519-hacl64.h:574-597 | Along any scalar bits, projectively proportional ladder states stay proportional, and unit factors stay units. |
| Ladder.ScaleAffine | src/curve25519-hacl64.h:743-753 | Scaling a projective point by a unit leaves its affine coordinate unchanged. |
| Ladder.AffineIsQuotient | src/curve25519-hacl64.h:743-753 | The affine coordinate is the quotient: times z it is x, whenever z is not zero. |
| Ladder.ZeroStep | src/curve25519-hacl64.h:475-539 | A step on a zero bit from the start state multiplies the second point by 4u and leaves the first. |
| Ladder.CollapsedRun | src/curve25519-hacl64.h:475-539 | With u = 0 the state (0 : 0) is never left, so both ladders return 0. |
| PrimeField.PIsPrime | src/curve25519-hacl64.h:294-336 | 2^255 - 19 is prime (Pocklington certificates down to 991), which is what inversion by a power relies on. |
| PrimeField.PowerInverts | src/curve25519-hacl64.h:294-336 | x times x to the power p - 2 is 1 for every x but zero: the exponentiation all three inversions perform does invert. |
| PrimeField.UnlessZero | src/curve25519-hacl64.h:294-336 | Fermat's congruence for every field element but zero. |
| Primes.Pocklington | src/curve25519-hacl64.h:294-336 | A number with the stated evidence is prime; used for each link of the certificate. |
| Primes.Fermat | src/curve25519-hacl64.h:294-336 | Fermat's little theorem for every prime. |
| Clamping.ClampSecret | src/curve25519.h:18-22 | The three masks in place produce the scalar decoding of RFC 7748: bits 0-2 and 255 clear, bit 254 set, all others kept. |
| Clamping.ClampedBits | src/curve25519.h:18-22 | Every clamped scalar has bit 255 clear and bit 254 set. |
| Inversion.ChainEnd | src/curve25519-hacl64.h:334-335 | The addition chain's last link: z^(2^250 - 1) squared five times, times z^11, is z^(p-2). |
| Inversion.ChainStart | src/curve25519-hacl64.h:307-312 | The first seven links give z^11 and z^31. |
| Inversion.JoinOnes | src/curve25519-hacl64.h:313-333 | Each middle link joins exponents of j and k ones into j + k ones. |
| HaclField.FMul | src/curve25519-hacl64.h:183-212 | The product in the field, with no intermediate overflow of 64 or 128 bits, for loose inputs; the result is carried and arguments may alias. |
| HaclField.MulShiftReduce | src/curve25519-hacl64.h:153-181 | The five columns are the exact convolution modulo 2^255 - 19. |
| HaclField.SumScalarMultiplication | src/curve25519-hacl64.h:73-81 | Each column grows by the exact product, without 128-bit overflow. |
| HaclField.ShiftReduce | src/curve25519-hacl64.h:124-151 | The rotation by one limb that multiplies the limb leaving the top by 19. |
| HaclField.CarryWide | src/curve25519-hacl64.h:83-122 | Carrying preserves the value and leaves limbs 0-3 below 2^51. |
| HaclField.CarryTopWide | src/curve25519-hacl64.h:198-203 | Folding the top carry subtracts a multiple of p and touches only the end limbs. |
| HaclField.CopyFromWide | src/curve25519-hacl64.h:49-71 | The truncation to 64 bits loses nothing after carrying. |
| HaclField.ReduceWide | src/curve25519-hacl64.h:197-210 | Carry, fold, copy and final carry return the residue of the wide value. |
| HaclField.SquareWide | src/curve25519-hacl64.h:214-241 | The dedicated squaring columns equal the convolution of the operand with itself. |
| HaclField.FSquare | src/curve25519-hacl64.h:243-268 | The square in the field, in place. |
| HaclField.FSquareTimes | src/curve25519-hacl64.h:279-285 | count squarings: the power 2^count (and one squaring for count 0). |
| HaclField.FSquareTimesInPlace | src/curve25519-hacl64.h:287-292 | The same in place. |
| HaclField.CRecip | src/curve25519-hacl64.h:294-336 | The addition chain computes z^(p-2), for every z. |
| HaclField.FSum | src/curve25519-hacl64.h:338-345 | The sum in the field, limbs staying loose. |
| HaclField.FDifference | src/curve25519-hacl64.h:347-391 | b - a in the field: adding 8p first keeps every limb from wrapping below zero. |
| HaclField.FScalar | src/curve25519-hacl64.h:393-428 | The product with a small constant, with bounded limbs. |
| HaclArith.ConvField | src/curve25519-hacl64.h:153-181 | The reduced convolution of two limb vectors stands for the field product. |
| HaclArith.ConvBound | src/curve25519-hacl64.h:153-181 | Bounds of the five columns for loose operands, which leave room in 128 bits. |
| HaclLadder.SwapConditional5 | src/curve25519-hacl64.h:440-460 | With mask 0 nothing changes, with mask all ones the two arrays are exchanged. |
| HaclLadder.PointSwapConditional | src/curve25519-hacl64.h:462-467 | The arithmetic mask of the bit swaps both coordinates exactly when the bit is 1. |
| HaclLadder.StepFormula | src/curve25519-hacl64.h:475-539 | The order of operations of the source equals the ladder step of RFC 7748, for all field elements. |
| HaclLadder.AddAndDouble | src/curve25519-hacl64.h:475-539 | On limb arrays, with reused buffers, the two result points are the RFC 7748 ladder step. |
| HaclLadder.SmallLoop | src/curve25519-hacl64.h:541-572 | Four double steps consume the eight bits of a byte, swapping the roles of the buffers. |
| HaclLadder.BigLoop | src/curve25519-hacl64.h:574-584 | The loop over the bytes runs the ladder over all 8 i bits. |
| HaclLadder.LadderCMult | src/curve25519-hacl64.h:586-597 | The result point is that of the 256-bit ladder from (1 : 0), (u : 1). |
| HaclFormat.EqMaskIs | src/curve25519-hacl64.h:15-23 | The branch-free equality mask is all ones exactly for equal words. |
| HaclFormat.GteMaskIs | src/curve25519-hacl64.h:25-37 | The branch-free comparison mask is all ones exactly when a >= b, for all 64-bit words. |
| HaclFormat.FExpand | src/curve25519-hacl64.h:599-621 | Five overlapping loads decode the little-endian value with bit 255 dropped. |
| HaclFormat.CarryFull | src/curve25519-hacl64.h:623-649 | Two carry passes keep the residue and make every limb at most 51 bits. |
| HaclFormat.SecondCarryFull | src/curve25519-hacl64.h:673-687 | Keeps the residue and ends fully carried. |
| HaclFormat.Trim | src/curve25519-hacl64.h:689-712 | The masked subtraction leaves the canonical representative below p. |
| HaclFormat.Store | src/curve25519-hacl64.h:714-733 | The 32 bytes have the value of the five limbs. |
| HaclFormat.FContract | src/curve25519-hacl64.h:735-741 | The bytes encode the canonical residue of any limbs below 2^63. |
| EmbeddedCurve.GeneratePublicKey | contrib/embeddable-wg-library/wireguard.c:1681-1727 | The bytes written are X25519(clamped private key, 9), for every key, also when both buffers are the same. |
| EmbeddedCurve.Ladder255 | contrib/embeddable-wg-library/wireguard.c:1690-1714 | The loop over bits 254 to 0 is the ladder of RFC 7748. |
| EmbeddedCurve.LadderBit | contrib/embeddable-wg-library/wireguard.c:1691-1713 | One iteration on six limb arrays is swap, RFC 7748 step, swap. |
| EmbeddedCurve.StepFormula | contrib/embeddable-wg-library/wireguard.c:1694-1711 | The source's sequence of operations equals the RFC 7748 step for u = 9. |
| EmbeddedField.Carry | contrib/embeddable-wg-library/wireguard.c:1569-1577 | Arithmetic-shift carries: exact quotient removed as a multiple of 2p, digits in range, for signed limbs. |
| EmbeddedField.CSwap | contrib/embeddable-wg-library/wireguard.c:1579-1593 | The masked exchange on signed limbs swaps exactly when the bit is 1. |
| EmbeddedField.Sum | contrib/embeddable-wg-library/wireguard.c:1625-1631 | The sum in the field. |
| EmbeddedField.Difference | contrib/embeddable-wg-library/wireguard.c:1633-1639 | The difference in the field, limbs possibly negative. |
| EmbeddedField.Columns | contrib/embeddable-wg-library/wireguard.c:1644-1649 | The 31 columns have the value of the exact product, within 64 bits. |
| EmbeddedField.MultMod | contrib/embeddable-wg-library/wireguard.c:1641-1657 | The product in the field: folding with 38 and two carries; arguments may alias. |
| EmbeddedField.Invert | contrib/embeddable-wg-library/wireguard.c:1659-1673 | The square-and-multiply loop that skips bits 2 and 4 computes the power p - 2. |
| EmbeddedField.TrySubtract | contrib/embeddable-wg-library/wireguard.c:1605-1613 | One borrow chain and masked swap subtracts p exactly when the value is at least p. |
| EmbeddedField.Pack | contrib/embeddable-wg-library/wireguard.c:1595-1623 | The bytes encode the canonical residue. |
| FiatCurve.Curve25519Generic | src/curve25519-fiat32.h:752-860 | The bytes returned are X25519(clamped scalar, decoded point) for every scalar and point. |
| FiatCurve.FiatLadder | src/curve25519-fiat32.h:796-845 | The loop with deferred swaps is the ladder of RFC 7748 over 255 bits. |
| FiatCurve.LadderStep | src/curve25519-fiat32.h:822-839 | The tight and loose operations of one iteration, in place with reused temporaries, compute the RFC 7748 step. |
| FiatCurve.Points.SwapIf | src/curve25519-fiat32.h:812-813 | The two masked swaps exchange the points exactly when the bit is 1. |
| FiatCurve.StepFormula | src/curve25519-fiat32.h:822-839 | The form with constant 121666 equals the RFC form with 121665. |
| FiatCurve.Times121666 | src/curve25519-fiat32.h:631-745 | Tight limbs standing for the product with 121666. |
| FiatCurve.CSwapIs | src/curve25519-fiat32.h:618-628 | The mask on 32-bit limbs swaps exactly when the bit is 1. |
| FiatCurve.SqrTimes | src/curve25519-fiat32.h:556-604 | n squarings are the power 2^n. |
| FiatCurve.LooseInvert | src/curve25519-fiat32.h:556-604 | The inversion chain computes z^(p-2). |
| FiatField.MulColumnsExact | src/curve25519-fiat32.h:308-422 | The ten columns of 64-bit sums equal the exact mixed-radix convolution, none overflowing. |
| FiatField.MulImplIsProduct | src/curve25519-fiat32.h:308-422 | Carried columns: tight limbs standing for the field product. |
| FiatField.SqrImplIsSquare | src/curve25519-fiat32.h:440-544 | Tight limbs standing for the square. |
| FiatField.AddImplIsSum | src/curve25519-fiat32.h:222-255 | Loose limbs standing for the sum. |
| FiatField.SubImplIsDifference | src/curve25519-fiat32.h:265-298 | Loose limbs standing for the difference, no limb wrapping. |
| FiatLimbs.FreezeIsReduction | src/curve25519-fiat32.h:104-158 | The borrow chain and conditional add return the canonical residue. |
| FiatLimbs.FromBytesValue | src/curve25519-fiat32.h:26-47 | Decoding gives the little-endian value with bit 255 dropped. |
| FiatLimbs.ToBytesValue | src/curve25519-fiat32.h:160-196 | Encoding writes the canonical residue. |
| Tlv.HeaderRoundTrip | src/netlink.h:305-319 | A written attribute is read back with its type, nested flag masked, and payload, wherever it lies in a buffer. |
| Tlv.Parse | src/netlink.h:254-276 | On any bytes, a callback with any state is given exactly the attributes the reference reader finds, in order, until it asks to stop; nothing outside the payload is read, a malformed header ends the walk, and the last return code is passed on. |
| Tlv.ViewsRoundTrip | src/netlink.h:254-264 | Walking an encoded attribute list yields its attributes in order, whatever surrounds it. |
| Tlv.NestedRoundTrip | src/netlink.h:266-276 | Walking the payload of a nest yields its children. |
| Tlv.TreeRoundTrip | src/netlink.h:305-343 | Decoding the encoding of any attribute forest whose lengths fit 16 bits returns the forest. |
| TlvMessage.Message.constructor | src/netlink.h:609-627 | A fresh message holds only its header. |
| TlvMessage.Message.Put | src/netlink.h:305-319 | Appends one padded attribute to the innermost open nest and leaves the rest of the tree. |
| TlvMessage.Message.PutCheck | src/netlink.h:345-352 | Writes exactly when header and padded payload fit the limit; otherwise nothing changes. |
| TlvMessage.Message.NestStart | src/netlink.h:336-343 | Opens a nest at the tail. |
| TlvMessage.Message.NestStartCheck | src/netlink.h:372-378 | Opens a nest exactly when its header fits; otherwise nothing changes. |
| TlvMessage.Message.NestEnd | src/netlink.h:380-383 | Back-patching the length closes the nest with all its children. |
| TlvMessage.Message.NestCancel | src/netlink.h:385-388 | Cancelling removes the nest and its children and restores the outer tree. |
| TlvMessage.LayoutEnd | src/netlink.h:380-383 | The bytes of an open tree with the length patched are the bytes of the tree with the nest closed. |
| TlvMessage.LayoutAligned | src/netlink.h:305-319 | Every reachable message is 4-aligned. |
| TlvMessage.Build | src/netlink.h:305-388 | Any sequence of put, start, end and cancel operations, each refused when it does not fit: the message holds the tree that the sequence describes, and when no nest is open parsing visits its attributes and decoding returns it. |
| WgMessage.MessageRoundTrip | src/ipc-linux.h:144-278 | The receiver's reading of an encoded set-device message is the message, every optional field included. |
| WgMessage.PeerRoundTrip | src/ipc-linux.h:179-244 | The same for one peer with its allowed IPs. |
| WgMessage.IpRoundTrip | src/ipc-linux.h:218-237 | The same for one allowed IP. |
| Kernel.DeviceKeeps | src/uapi/linux/linux/wireguard.h:72-131 | Every message keeps each route owned by an existing peer. |
| Kernel.PiecesJoin | src/uapi/linux/linux/wireguard.h:122-131 | A peer followed by its continuation has the effect of the joined peer. |
| Kernel.IpsAppend | src/uapi/linux/linux/wireguard.h:99-111 | Allowed IPs applied in two parts have the effect of the whole list. |
| WgDevice.AcceptMeaning | src/ipc-linux.h:177-272 | Fragments that continue from a cursor bring the receiver from the state at that cursor to the state at the next. |
| WgDevice.AcceptOnce | src/ipc-linux.h:177-272 | Such fragments carry each allowed IP between the cursors exactly once, in order, with its peer. |
| WgDevice.AcceptAll | src/ipc-linux.h:157-272 | Fragments of a complete run carry every peer's allowed IPs exactly once and in order. |
| WgDevice.AtFailure | src/ipc-linux.h:261-272 | Once the receiver refuses something, the state is what the whole device would have led to. |
| SetDevice.KernelSetDevice | src/ipc-linux.h:144-278 | For every device and buffer size: all messages are aligned and within the buffer, settings are sent once, and replaying them has the effect of the whole device in one message, which is the state that the fields of the device ask for; if none is refused, every peer and allowed IP is covered exactly once; the loop terminates. |
| SetMeaning.WholeMeans | src/ipc-linux.h:144-278 | Field by field, for any list of peers: refused if and only if a peer that stays has an allowed IP that is not acceptable; the key, port and mark of the device; which peers exist; for each option the last word said of it, or its former value; and for every route, the one peer that owns it, if any, as if and only if. |
| SetMeaning.PeersMean | src/uapi/linux/linux/wireguard.h:72-131 | The same for the peers alone, by the order in which they come. |
| SetMeaning.PeerMeans | src/ipc-linux.h:179-244 | What one peer does to every key and every route. |
| SetMeaning.RouteNames | src/ipc-linux.h:224-231 | The route of an allowed IP is made of the first four bytes of the union for IPv4 and of all sixteen for IPv6, cut to its mask. |
| SetMeaning.DottedQuad | src/ipc-linux.h:224-226 | The first byte of an IPv4 address counts most: with mask 8 it is the network. |
| SetMeaning.PeerIsSet | src/ipc-linux.h:179-244 | The last peer of its key has its own preshared key, interval and endpoint (16 or 28 bytes) afterwards, and the routes that no later entry disturbs. |
| SetMeaning.PeerIsGone | src/ipc-linux.h:187-188 | A peer removed last is gone, and owns no route. |
| WireFormat.DeviceBytes | src/uapi/linux/linux/wireguard.h:154-164 | The bytes of a set-device message before its peers, with lengths, attribute numbers and padding. |
| WireFormat.PeerBytes | src/uapi/linux/linux/wireguard.h:175-187 | The bytes of a peer before its allowed IPs. |
| WireFormat.IpBytes | src/uapi/linux/linux/wireguard.h:195-201 | The bytes of an allowed IP. |
| WireFormat.NestIs | src/netlink.h:336-343 | A nest is marked in its type and holds its children. |
| SetDevice.WriteMessage | src/ipc-linux.h:157-260 | One message decodes to its header and fragments, which continue from the cursor, and the cursor moves strictly forward. |
| SetDevice.WritePeers | src/ipc-linux.h:178-260 | The peers loop with all three overflow exits writes fragments that continue from the start cursor and makes progress. |
| SetDevice.WritePeer | src/ipc-linux.h:182-260 | One peer: complete, cut inside its allowed IPs, or cancelled without a trace, each exactly when space runs out there. |
| SetDevice.WriteIps | src/ipc-linux.h:218-238 | A maximal run of allowed IPs, each written whole or not at all. |
| SetDevice.WriteHeader | src/ipc-linux.h:158-174 | Device settings go into the first message only. |
| SetDevice.SetNoPeers | src/ipc-linux.h:157-176 | A device without peers is one message with the same effect. |
| Coalesce.CoalescePeers | src/ipc-linux.h:464-484 | On linked lists, merging adjacent peers of one key yields the reference merge; no node is lost, created or shared, and no null tail is followed; the pointer to the last peer stays right if and only if the last peer was not absorbed, and otherwise points at a freed peer. |
| Coalesce.Absorb | src/ipc-linux.h:473-482 | One merge step: splices both allowed-IP lists, copies the tail pointer and unlinks the duplicate. |
| Coalesce.PeerList.AppendPeer | src/ipc-linux.h:389-411 | Appends one fragment to the list and keeps the heap shape. |
| Coalesce.PeerList.AppendIp | src/ipc-linux.h:308-330 | Appends one allowed IP to the last peer and keeps the heap shape. |
| Reassembly.SafeExactly | src/ipc-linux.h:464-484 | Merging meets no null tail pointer if and only if in each run of fragments an empty one that is not last follows only empty ones. |
| Reassembly.UnsafeExample | src/ipc-linux.h:473-479 | Three fragments of one peer, the last two empty, reach the null tail pointer. |
| Reassembly.MergeRuns | src/ipc-linux.h:464-484 | The merge turns each maximal run of one key into one peer with the concatenated allowed IPs. |
| Reassembly.Reassembles | src/uapi/linux/linux/wireguard.h:56-66 | Reassembly undoes fragmentation: cutting peers as documented and merging returns the peers, without a null tail. |
| Reassembly.TailLostIff | src/ipc-linux.h:473-479 | When a merged peer is left with a null tail although it has allowed IPs, exactly. |
| Reassembly.GetPeers | src/ipc-linux.h:486-535 | Building the lists and merging them yields the reference merge for every tidy dump, and the pointer to the last peer is right if and only if that peer came in one fragment. |
| DumpParser.DumpRebuilds | src/ipc-linux.h:389-484 | Peers cut into fragments across any number of messages, their attributes in any order and among others, are read, joined without a null tail, and are the peers again. |
| DumpParser.PeerReads | src/ipc-linux.h:332-387 | The peer callback recovers key, preshared key and its flag, endpoint, keepalive, handshake time, both byte counters and the allowed IPs, whatever the order of the attributes. |
| DumpParser.IpReads | src/ipc-linux.h:280-306 | The allowed-IP callback recovers family, address and mask, whatever the order of the attributes. |
| DumpParser.MessagesRead | src/ipc-linux.h:413-462 | Messages read one after the other append the fragments of each, in order. |
| DumpParser.RefusedExactly | src/ipc-linux.h:389-411 | The peers of a message are refused if and only if one has no key before its first invalid allowed IP; an invalid allowed IP by itself is swallowed. |
| DumpParser.InvalidIpEndsPeer | src/ipc-linux.h:308-387 | What follows an invalid allowed IP of a peer is not looked at. |
| WireFormat.DumpBytes | src/uapi/linux/linux/wireguard.h:175-187 | The attributes of a peer in a dump, by number. |
| WireFormat.PeerAttribute | src/ipc-linux.h:332-387 | Each attribute of a peer changes its own field, if its length is right, and nothing else; zeros are no preshared key. |
| WireFormat.EndpointAttribute | src/ipc-linux.h:352-363 | An endpoint is taken if it has the size of its family. |
| WireFormat.IpAttribute | src/ipc-linux.h:280-306 | The same for an allowed IP; a short address changes the first bytes of the union. |
| WireFormat.IpAccepted | src/ipc-linux.h:308-330 | An entry is good if and only if its family is known and its mask not too long; it joins the list in any case. |
| DumpParser.KernelGetDevice | src/ipc-linux.h:486-535 | On any messages: fails if and only if the reference reading does, and otherwise leaves the merged lists in the heap, with the exact condition for the pointer to the last peer. |
| DumpWriter.MessageShows | src/uapi/linux/linux/wireguard.h:23-56 | A message encoded in the documented order of attributes describes its peers. |
| DumpWriter.WrittenDumpRebuilds | src/uapi/linux/linux/wireguard.h:23-66 | Bytes to heap: a dump written as documented, in as many messages as it takes, comes back as the list of peers it was cut from. |
| SyncConf.SyncConf | src/setconf.c:30-114 | The edited file is the removals of exactly the running peers it lacks followed by its own peers, each with stale keepalive and preshared key turned off explicitly; replace flags cleared; untouched when either side is empty. |
| SyncConf.QSort | src/setconf.c:65-75 | A permutation sorted by peer_cmp. |
| SyncConf.LessExactly | src/setconf.c:21-28 | The first byte that differs decides the order of two keys. |
| SyncConf.BeforeTotal | src/setconf.c:21-28 | peer_cmp orders any two entries. |
| SyncConf.BeforeTransitive | src/setconf.c:21-28 | peer_cmp is transitive. |
| SyncConf.Neighbour | src/setconf.c:75-110 | After sorting, a file entry directly follows the running entry of the same key. |
| SyncConf.ScanEdits | src/setconf.c:77-110 | The linear scan patches each file peer with the running peer of its key, and only with that one. |
| SyncConf.StaleExactly | src/setconf.c:77-93 | A key is removed exactly when it is running and not in the file. |
| SyncConf.Scan | src/setconf.c:77-110 | The scan in place, as a function of the table: patched peers and prepended removals. |
| SyncMeaning.SyncIsReplace | src/setconf.c:30-114 | Applying the edited file has the effect of replacing all peers by the file's, except that a peer without an endpoint in the file keeps the running one; it is refused exactly when replacing is. |
| SyncMeaning.PeerAlike | src/setconf.c:94-109 | One edited peer on the running state and the original peer on an empty state lead to like states. |
| SyncMeaning.AfterRemovals | src/setconf.c:80-93 | After the removals only peers of the file are left, unchanged. |
| Highlighter.HighlightConfig | contrib/highlighter/highlighter.c:574-641 | The single pass over the characters with its five states yields the spans of the line-by-line reference and a final end span, for every text, and every line is coloured as its words say. |
| Colours.LinesColoured | contrib/highlighter/highlighter.c:574-641 | For every line of every text: comments, headings, and a key, which is a field if and only if it is, in any case, one of the five names of [Peer] or the twelve of [Interface] under the last such heading; and the value of each of the seventeen names by its check, list elements and delimiters included; all else is an error. |
| Colours.SectionIs | contrib/highlighter/highlighter.c:596-599 | The section in force is that of the last heading before the line, if it is one of the two. |
| Colours.KeyKindIs | contrib/highlighter/highlighter.c:364-371 | A key is coloured as a field exactly under the heading it belongs to. |
| Colours.ValueIs | contrib/highlighter/highlighter.c:510-572 | The colour of the value of each field, by name, accepted and refused. |
| Colours.ListColoured | contrib/highlighter/highlighter.c:482-508 | Every element of a list is coloured by its check, and the commas between them. |
| Highlighter.Step | contrib/highlighter/highlighter.c:583-636 | Each character that does not end a line keeps: spans so far plus spans to come. |
| Highlighter.FinishLine | contrib/highlighter/highlighter.c:584-614 | At a line end or comment the pending key, value, section or comment is coloured as the reference says. |
| Highlighter.Multivalue | contrib/highlighter/highlighter.c:482-508 | The list loop colours comma-separated items and delimiters as the reference, including empty items and trailing commas. |
| Highlighter.Item | contrib/highlighter/highlighter.c:445-480 | One item is coloured by its field's rule. |
| Highlighter.Value | contrib/highlighter/highlighter.c:510-572 | Each field's value is coloured by its check. |
| Highlighter.EndpointValue | contrib/highlighter/highlighter.c:548-563 | A valid endpoint is split at its last colon. |
| Highlighter.SpanArray.Append | contrib/highlighter/highlighter.c:425-443 | Appends a span exactly when it is not empty, growing the array when full. |
| Spans.LinesFill | contrib/highlighter/highlighter.c:574-641 | The spans of any text are in order, disjoint, not empty, contain no line break, and cover every visible character. |
| Spans.VisibleInExactlyOne | contrib/highlighter/highlighter.c:574-641 | Every character that is not blank or a line break lies in exactly one span; line breaks lie in none. |
| HighlightChecks.IsValidEndpoint | contrib/highlighter/highlighter.c:272-313 | Accepts exactly [address]:port, with an optional scope, and host:port split at the first colon. |
| HighlightChecks.ChecksAreOk | contrib/highlighter/highlighter.c:272-313 | Every accepted endpoint has a colon, which splitting it relies on. |
| KeyCodec.KeyToBase64 | src/encoding.c:24-33 | The 44 characters and the terminator are the Base64 encoding of section 4 of RFC 4648. |
| KeyCodec.KeyFromBase64 | src/encoding.c:50-72 | Accepts exactly the canonical encodings of 32 bytes (section 3.5 of RFC 4648) and returns the decoded key. |
| KeyCodec.IsValidKey | contrib/highlighter/highlighter.c:60-92 | The highlighter accepts exactly the same texts as the decoder. |
| KeyCodec.KeyRoundTrip | src/encoding.c:24-72 | Decoding the encoding of a key returns the key. |
| KeyCodec.TextRoundTrip | src/encoding.c:24-72 | Encoding the decoding of an accepted text returns the text. |
| Base64.EncodeCharIs | src/encoding.c:11-22 | The branch-free character formula is the RFC 4648 alphabet. |
| Base64.DecodeCharIs | src/encoding.c:35-48 | The branch-free formula inverts the alphabet and is -1 for every other byte, with char signed or not. |
| Base64.EncodeBase64 | src/encoding.c:11-22 | Three bytes become the four characters of their 24 bits. |
| Base64.DecodeBase64 | src/encoding.c:35-48 | Four characters are combined; a negative result marks any character outside the alphabet. |
| Base64.Joined4Is | src/encoding.c:35-48 | The combined value is negative exactly when one of the four is invalid, and otherwise the 24-bit number. |
| Base64.AlphabetInverse | src/encoding.c:11-48 | The alphabet and its inverse undo each other. |
| HexCodec.KeyToHex | src/encoding.c:74-83 | The 64 lower-case hex digits and the terminator. |
| HexCodec.KeyFromHex | src/encoding.c:85-114 | Accepts exactly 64 hex digits of either case and returns the decoded key. |
| HexCodec.HexRoundTrip | src/encoding.c:74-114 | Decoding the encoding of a key returns the key. |
| HexCodec.HexTextRoundTrip | src/encoding.c:74-114 | Encoding the decoding of an accepted text returns it in lower case. |
| HexCodec.EncodeNibbleIs | src/encoding.c:74-83 | The branch-free digit formula is the hex alphabet. |
| HexCodec.GetNibble | src/encoding.c:85-114 | The branch-free formula returns the digit's value and a mask of all ones exactly for other bytes. |
| UapiReader.GetDevice | src/ipc-uapi.h:195-429 | The reading loop computes the reference run over the lines of the reply; what each line does is stated by its key in UapiKeys, and which replies are accepted in UapiReplies. |
| UapiRoundTrip.EchoReadsBack | src/ipc-uapi.h:42-429 | The text of a request for a device, ended as a reply, is read back as that device. |
| UapiDaemon.WriteDevice | src/ipc-uapi.h:42-143 | The request written for a device brings a daemon that reads it line by line, from any state, to the state that the device asks for, the same that the kernel reaches from its messages; given the line errno=0 before its blank line and read as a reply, it is the device. |
| UapiDaemon.RequestMeans | src/ipc-uapi.h:42-143 | The same of the text: removed peers and allowed IPs, replaced peers and lists, options, refusals, and entries of an unknown family, which are not sent. |
| UapiDaemon.PeerOrdered | src/ipc-uapi.h:68-142 | The lines of one peer, removed or not, mean the peer. |
| UapiDaemon.IpsOrder | src/ipc-uapi.h:131-141 | Allowed IPs as text, with a minus for those to remove, mean the allowed IPs. |
| UapiDaemon.HeadOrders | src/ipc-uapi.h:42-67 | The lines before the first peer mean the settings of the device. |
| UapiDaemon.WsWritten | src/ipc-uapi.h:102-126 | The WebSocket settings are written if and only if the transport is not UDP, or the request has some and leaves the transport alone. |
| UapiKeys.ByteLines | src/ipc-uapi.h:412-415 | The line rx_bytes sets the received bytes of the current peer, tx_bytes the sent ones, and nothing else; the largest number stands for larger ones, and anything but digits is refused. |
| UapiKeys.HandshakeLines | src/ipc-uapi.h:408-411 | The two parts of the last handshake, up to 2^63 - 1. |
| UapiKeys.IntervalLines | src/ipc-uapi.h:342-347 | The three WebSocket intervals, up to 32 bits. |
| UapiKeys.KeepaliveLine | src/ipc-uapi.h:378-380 | The keepalive interval, up to 16 bits. |
| UapiKeys.WsLines | src/ipc-uapi.h:308-322 | URL, tunnel target and bearer are kept as they are. |
| UapiKeys.TlsLines | src/ipc-uapi.h:323-337 | So are the three TLS files. |
| UapiKeys.SwitchLines | src/ipc-uapi.h:304-341 | A switch is on for true only; a transport that is not known is UDP. |
| UapiKeys.PresharedLine | src/ipc-uapi.h:259-263 | A preshared key of zeros sets no flag, and clears none. |
| UapiKeys.EndpointLine | src/ipc-uapi.h:264-303 | Both forms of an endpoint are resolved by host and service; what cannot be resolved has its own error. |
| UapiKeys.AllowedIpLine | src/ipc-uapi.h:381-407 | Any address and any mask in digits: the family by the colon, the mask cut to a byte and then checked. |
| UapiKeys.DeviceNumberLines | src/ipc-uapi.h:237-242 | Port and mark of the device, with their limits. |
| UapiKeys.DeviceTextLines | src/ipc-uapi.h:348-377 | The five WebSocket texts of the device. |
| UapiKeys.PrivateKeyLine | src/ipc-uapi.h:232-236 | The private key, from which the public one is derived. |
| UapiKeys.PublicKeyLine | src/ipc-uapi.h:243-258 | A public key begins a peer. |
| UapiKeys.ErrnoLine | src/ipc-uapi.h:416-417 | The error number becomes the pending result. |
| UapiKeys.KeyLinesRefuse | src/ipc-uapi.h:232-263 | Keys that are not 64 hex digits end the reading. |
| UapiKeys.OtherLines | src/ipc-uapi.h:223-417 | Any other key, a key of the device after a peer and a key of a peer before one change nothing. |
| UapiKeys.ZeroEnds | src/ipc-uapi.h:223-229 | A line is read up to its first zero byte. |
| UapiRoundTrip.EchoIsDevice | src/ipc-uapi.h:42-429 | It is the very device if and only if no peer has a zero preshared key, an undeclared transport, WebSocket settings on UDP, or counters. |
| UapiRoundTrip.ReadsItself | src/ipc-uapi.h:68-142 | The same for the lines of one peer, against the reader. |
| UapiRoundTrip.ZeroKeyIsLost | src/ipc-uapi.h:259-263 | A peer with a zero preshared key is read back without one. |
| UapiRoundTrip.DeviceReadsBack | src/ipc-uapi.h:223-429 | The same on lines: all peers, in order, with every field. |
| UapiRoundTrip.PeerReadsBack | src/ipc-uapi.h:259-407 | One peer's lines fold into the peer. |
| UapiRoundTrip.EndpointRoundTrips | src/ipc-uapi.h:264-303 | A printed endpoint, bracketed when it is IPv6, is split and resolved to itself. |
| UapiRoundTrip.IpRoundTrips | src/ipc-uapi.h:381-407 | A printed allowed IP is read back. |
| UapiRoundTrip.TimesFold | src/ipc-uapi.h:408-411 | Handshake seconds and nanoseconds end up each in its own field. |
| UapiRoundTrip.BytesFold | src/ipc-uapi.h:412-415 | Received and sent bytes end up each in its own field. |
| UapiReplies.ReturnedExactly | src/ipc-uapi.h:195-429 | A device is returned if and only if the reply has a blank line, every line before it is a key with a value that the key may have where it stands, and the last errno before it is zero. |
| UapiReplies.ReadsOn | src/ipc-uapi.h:223-417 | The reader goes on if and only if every line so far is well formed, a condition on the text. |
| UapiReplies.RetIsLastErrno | src/ipc-uapi.h:416-417 | While reading, the pending result is the last errno, or a protocol error before any. |
| ConfigParser.ParseConfig | src/config.c:742-938 | The line loop and the final checks compute the reference parse, for every text; what each line does is stated by its key in ConfigForms and by its value in ConfigValues. |
| ConfigForms.InterfaceLines | src/config.c:778-787 | Port, key and mark of the interface, by the names of their keys in any case, accepted and refused. |
| ConfigForms.ServerLines | src/config.c:788-800 | The WebSocket server texts, which may be empty. |
| ConfigForms.OtherInterfaceLine | src/config.c:801-802 | Any other key is refused in the interface section. |
| ConfigForms.KeyLines | src/config.c:806-817 | Keys, interval and allowed IPs of a peer, by the names of their keys in any case. |
| ConfigForms.TextLines | src/config.c:820-843 | The WebSocket texts of a peer; each marks the peer as having settings. |
| ConfigForms.WordLines | src/config.c:818-847 | WSMask and WSTLSInsecure take true and false, WSMode its two words, and nothing else. |
| ConfigForms.MillisLines | src/config.c:848-859 | The three intervals. |
| ConfigForms.OtherSectionLine | src/config.c:860-863 | Any other key, and a key without a value, is refused in a peer section. |
| ConfigForms.Headings | src/config.c:747-768 | Headings in any case; [Peer] begins a peer whose list replaces; a line before any heading is refused. |
| ConfigForms.EmptyFile | src/config.c:909-920 | An empty file leaves everything unset. |
| ConfigForms.HeadingFirst | src/config.c:862-863 | A file whose first line that says something is not a heading is refused. |
| ConfigForms.CommentDropped | src/config.c:881-887 | What follows a comment sign does not matter. |
| ConfigForms.BlankDropped | src/config.c:895-898 | Blanks do not matter, wherever they are. |
| ConfigForms.OtherKept | src/config.c:895-898 | Every other character does. |
| ConfigValues.AllowedEntry | src/config.c:660-735 | For every entry of a list, with any sign, address and mask: what it adds, or that it is refused; without a mask it is the whole address. |
| ConfigValues.AllowedLine | src/config.c:660-735 | A further line appends to the list; it replaces unless its entry has a sign. |
| ConfigValues.BareAddress | src/config.c:711-714 | An address alone is a /32 or a /128. |
| ConfigValues.UrlSplits | src/config.c:325-364 | Host and port of ws:// and wss:// URLs in any case, with and without brackets and path, and the limits of both. |
| ConfigValues.UrlLine | src/config.c:369-390 | The endpoint of a URL is resolved from its host and port, and the URL is kept. |
| ConfigValues.UdpLine | src/config.c:804-805 | Any other endpoint is one of UDP. |
| ConfigValues.EndpointReads | src/config.c:197-289 | Both forms of an endpoint are resolved by host and service. |
| ConfigValues.EndpointRefused | src/config.c:213-244 | Without a host or a service it is refused. |
| ConfigValues.TargetIs | src/config.c:404-422 | A tunnel target is accepted if and only if it is a host, a colon and digits. |
| ConfigValues.DecimalReads | src/config.c:79-107 | Marks, intervals and milliseconds in decimal, up to their limits and not beyond. |
| ConfigValues.NegativeReads | src/config.c:437-448 | A negative count is taken modulo 2^64. |
| ConfigValues.HexReads | src/config.c:79-107 | Marks in hex digits of either case. |
| ConfigValues.FwmarkExactly | src/config.c:79-107 | Which texts are marks. |
| ConfigValues.OffReads | src/config.c:79-107 | The word off in any case. |
| ConfigValues.TransportsExactly | src/config.c:562-609 | Which settings go together: exactly one condition for each transport. |
| Letters.SameExactly | contrib/highlighter/highlighter.c:42-58 | Two texts are the same but for case if and only if each pair of characters is equal or one letter in its two cases. |
| ShowForms.InterfaceText | src/showconf.c:40-61 | The very lines printed for the interface. |
| ShowForms.PeerText | src/showconf.c:62-136 | The very lines printed for a peer. |
| ShowForms.WsText | src/showconf.c:88-114 | The very lines printed for its WebSocket settings. |
| ShowForms.HexText | src/showconf.c:44-45 | Marks are printed in lower-case hex digits. |
| Text.DecDigits | src/showconf.c:42-43 | Numbers are printed in decimal. |
| ConfigParser.CleanLine | src/config.c:874-907 | The copying loop drops blanks and everything from the comment sign on. |
| ConfigAccepts.ShowConfRoundTrip | src/showconf.c:40-136 | For every configuration text the parser accepts, what is shown is accepted and gives the device again, as far as it is printed. |
| ConfigAccepts.SameAgain | src/showconf.c:40-136 | The device parsed again is the very device if and only if no allowed IP has a sign, no keepalive is set to zero, no WebSocket setting has its default, no device text is set to be empty, and a WebSocket peer has the address of its URL. |
| ConfigAccepts.EmptyListenIsLost | src/config.c:467-484 | A text that is not preserved: WSListen set to be empty. |
| ConfigAccepts.KeepaliveOffIsLost | src/config.c:291-315 | A text that is not preserved: a keepalive that is switched off. |
| ConfigReadsBack.ShowDevice | src/showconf.c:40-136 | The text printed, parsed, is the device as far as it is printed. |
| ConfigAccepts.AcceptedIsWell | src/config.c:922-938 | Whatever the parser accepts can be printed and is within the ranges the printer needs. |
| ConfigAccepts.ReadInv | src/config.c:874-907 | Every run of accepted lines keeps the device within those ranges. |
| ConfigReadsBack.DeviceReads | src/showconf.c:40-136 | Every well-formed device is printed and parsed back. |
| ConfigReadsBack.PeersRead | src/showconf.c:62-136 | All peers' lines read back in order, each starting its own section. |
| ConfigRoundTrip.EntriesRead | src/config.c:660-740 | A comma-separated list of allowed IPs is read entry by entry in order. |
| ConfigRoundTrip.SignedEntryReads | src/config.c:643-658 | A leading sign marks an entry added or removed and turns off replacing. |
| ConfigRoundTrip.FwmarkRoundTrips | src/config.c:79-107 | A mark printed in hex is read back. |
| ConfigRoundTrip.FwmarkReads | src/config.c:79-107 | Decimal marks and the word off are read. |
| ConfigRoundTrip.KeepaliveRoundTrips | src/config.c:291-315 | Every interval up to 65535 printed in decimal is read back. |
| ConfigRoundTrip.MillisRoundTrips | src/config.c:437-448 | Every 32-bit number of milliseconds printed in decimal is read back. |
| ConfigRoundTrip.Base64RoundTrips | src/config.c:109-117 | A printed key is read back. |
| ConfigRoundTrip.CleanEntry | src/config.c:874-907 | Cleaning a printed entry leaves the key, the equals sign and the cleaned value. |

## Left out

- FiatCurve.Curve25519Generic: the ten limbs of an element are one value; elements are overwritten in place, limbs are not, so aliasing of output and input limbs is not modelled here (it is for the other two implementations).
- FiatCurve.Times121666: modelled as the general product with a constant second operand; the source unrolls the same text with nine operands zero.
- SetDevice.KernelSetDevice: the peer and allowed-IP cursors are indices into sequences, the message length is a field beside the buffer, and the buffer is at least 280 bytes (the source uses a page, at least 4096).
- Kernel.DeviceKeeps: the receiver is a reference model of the commands documented in the header; the running kernel's refusal of the interface's own key and of unsupported protocol versions is not part of it.
- SyncMeaning.SyncIsReplace: keys are distinct within the file and among running peers; with a repeated key the outcome of the source depends on the order in which qsort leaves equal elements.
- SyncConf.QSort: the C library's sort is represented by its contract, implemented by insertion.
- Highlighter.HighlightConfig: the checks of single values other than keys and endpoints are parameters, and a failing realloc is not modelled.
- HighlightChecks.IsValidEndpoint: the checks of host, port, address and scope are parameters.
- UapiReader.GetDevice: running out of memory is not modelled; the socket is the text of the reply, and key derivation is a function given from outside.
- UapiDaemon.WriteDevice: the reply that the sender reads back after its request is not modelled.  The daemon is a reference model of the cross-platform protocol; the WebSocket settings are no part of its state, they are covered by reading them back.
- UapiRoundTrip.EchoReadsBack: covers peers that are not marked for removal, since a removed peer is not part of a reply.
- ConfigParser.ParseConfig: key files, secret files, retries of name resolution and the warning about a netmask with host bits are parameters or left out; names are resolved by one call.
- ConfigAccepts.ShowConfRoundTrip: for a file that replaces the configuration; `addconf`, which starts without the three device flags, is not modelled.
- ConfigReadsBack.ShowDevice: the lines of a peer are composed as one value before they are printed.
- DumpParser.KernelGetDevice: the scalar device attributes of a dump are not parsed, which would add only one-line members; nodes are filled when they are allocated; the retry on EINTR is left out.
- Tlv.Parse: attribute fields are little-endian, as on the machines the tool is built for most.
- `set` and `config_read_cmd`: the command-line form of a configuration.
- `show`, `genkey`, `genpsk`, `pubkey` and the command dispatch: printing and reading with no state.
- `wg-quick` and the backends for FreeBSD, OpenBSD and Windows.
- Sockets, netlink acknowledgements, sequence numbers and retries on EINTR.
- Constant running time and the clearing of secrets from memory.
- Allocation failure.
