# Connection statistics table — a Dafny model

This project models the formatting and aggregation logic of the connection
statistics table of Jitsi Meet (`ConnectionStatsTable`), the popover that
shows a participant's bitrate, packet loss, resolution and frame rate, and,
for the local participant on request, bandwidth and transport candidates.

The React tree is replaced by an abstract list of rows (`Rows.Row`): each
row has an optional React key, the translation key of its label, the
`count` interpolation parameter, a value cell (plain text, or a download and
an upload part) and a peer-to-peer marker flag. The translation function `t`
is taken to be the identity on its key.

Modules:

- `HostPort` — `getIP` / `getPort`: split "host:port" on the last colon,
  through JavaScript's clamping `substring`.
- `Join` — `getStringFromArray` (a loop, proved equal to the functional
  `Join`), and `Split`, which reads a comma-separated list back.
- `Dedup` — the `includes`/`push` first-occurrence de-duplication, its
  characterisation (no repeats, same elements, first-occurrence order) and
  its uniqueness.
- `Transport` — the transport records, the five aggregated lists (the loop
  `CollectTransportData` and the per-column first-occurrence de-duplication
  `Aggregate`), and the transport rows.
- `StatsTable` — bitrate, bandwidth, packet loss, frame rate and resolution
  cells, the show-more link, and `render`'s visibility rules.
- `JsValues` — JavaScript values (`undefined`, `null`, integral numbers),
  truthiness, template-literal and `Array.prototype.join` rendering.
- `Wrappers` — `Option`, used for absent properties.

Behaviour of the code worth knowing, which the model keeps:

- A value without a colon gives an empty host, because `substring` clamps
  the end index -1 from `lastIndexOf` to 0, and the whole string as the
  port, because the port starts at -1 + 1 = 0.
- Frame rate: "N/A" is shown not only for an empty map but also for a map
  with a single `null` or `undefined` rate, because `Array.prototype.join`
  renders those as empty text and `'' || 'N/A'` falls back.
- Packet loss: only `null` reads "N/A"; `undefined` prints as
  "undefined%", and zero prints as "0%", whereas a zero rate reads "N/A".

## Model

| member | source | states |
|---|---|---|
| HostPort.LastIndexOf | react/features/connection-stats/components/ConnectionStatsTable.js:467 | -1 exactly when the character is absent; otherwise the index holds it and no later index does |
| HostPort.GetIP | react/features/connection-stats/components/ConnectionStatsTable.js:466-468 | with a colon, the host is the prefix before a colon after which no colon follows; without one, the host is empty |
| HostPort.GetPort | react/features/connection-stats/components/ConnectionStatsTable.js:478-480 | the port never contains a colon and is a suffix of the input preceded by a colon when there is one; without a colon it is the whole input |
| HostPort.SplitRoundTrip | react/features/connection-stats/components/ConnectionStatsTable.js:466-480 | host + ":" + port gives back any input that contains a colon |
| HostPort.JoinRoundTrip | react/features/connection-stats/components/ConnectionStatsTable.js:466-480 | splitting host + ":" + port with a colon-free port gives back exactly that host and port |
| HostPort.SplitOmits | react/features/connection-stats/components/ConnectionStatsTable.js:466-480 | host and port hold no character that the input does not hold |
| Join.JoinShape | react/features/connection-stats/components/ConnectionStatsTable.js:489-497 | empty for no items; otherwise starts with the first item, ends with the last, and is as long as the items plus one ", " between each pair |
| Join.GetStringFromArray | react/features/connection-stats/components/ConnectionStatsTable.js:489-497 | the loop that appends ", " before every item but the first produces the joined list |
| Join.JoinCons | react/features/connection-stats/components/ConnectionStatsTable.js:489-497 | two or more items join as the first item, ", ", then the rest joined |
| Join.JoinIsEmpty | react/features/connection-stats/components/ConnectionStatsTable.js:196-198 | the joined text is empty exactly for no items or a single empty item |
| Join.JoinOmits | react/features/connection-stats/components/ConnectionStatsTable.js:489-497 | a character outside the separator occurs in the joined text only if some item holds it |
| Join.SplitJoin | react/features/connection-stats/components/ConnectionStatsTable.js:489-497 | a non-empty list of comma-free items is recovered by splitting its joined text at ", " |
| Dedup.IndexOf | react/features/connection-stats/components/ConnectionStatsTable.js:361 | the first index holding the value, or the length when `includes` would be false |
| Dedup.PushIfAbsent | react/features/connection-stats/components/ConnectionStatsTable.js:361-363 | the result includes the value, holds exactly the old elements and the value, and grows by at most one |
| Dedup.Dedup | react/features/connection-stats/components/ConnectionStatsTable.js:355-380 | the de-duplicated list is never longer than its input |
| Dedup.DedupPrefixStep | react/features/connection-stats/components/ConnectionStatsTable.js:355-380 | one more loop iteration pushes the next value only if the list does not include it yet |
| Dedup.DedupStep | react/features/connection-stats/components/ConnectionStatsTable.js:361-379 | a push-if-absent step keeps "no repeats, same elements, first-occurrence order" for the extended input |
| Dedup.DedupCorrect | react/features/connection-stats/components/ConnectionStatsTable.js:355-380 | the collected list has no repeats, holds exactly the input's values, and orders them by first occurrence |
| Dedup.DedupUnique | react/features/connection-stats/components/ConnectionStatsTable.js:355-380 | two repeat-free lists with the same elements, both in first-occurrence order of one input, are equal |
| Dedup.DedupCharacterization | react/features/connection-stats/components/ConnectionStatsTable.js:355-380 | a list is a first-occurrence de-duplication of the input if and only if it is the collected list |
| Dedup.DedupIdempotent | react/features/connection-stats/components/ConnectionStatsTable.js:355-380 | de-duplicating the collected list again changes nothing |
| Dedup.DedupPair | react/features/connection-stats/components/ConnectionStatsTable.js:355-380 | two equal values collect to one entry, two different values to both, in order |
| Transport.AggregateCorrect | react/features/connection-stats/components/ConnectionStatsTable.js:355-380 | each of the five lists is a first-occurrence de-duplication of its extracted column, no longer than the transport list |
| Transport.CollectStepExtends | react/features/connection-stats/components/ConnectionStatsTable.js:355-379 | one iteration of the loop (get the four address parts, push each value its list does not yet include) turns the lists for the first i records into those for the first i + 1 |
| Transport.CollectTransportData | react/features/connection-stats/components/ConnectionStatsTable.js:347-380 | the source's loop over the records builds exactly the five de-duplicated columns |
| Transport.TransportRows | react/features/connection-stats/components/ConnectionStatsTable.js:331-422 | absent or empty transports give one uncounted "address" row reading "N/A" without the peer-to-peer marker; otherwise five rows keyed remoteaddress, remoteport, localaddress, localport, transport, with the peer-to-peer marker only on the first and only when the first transport is P2P |
| Transport.TransportRowsLayout | react/features/connection-stats/components/ConnectionStatsTable.js:386-420 | each row's cell joins its aggregated list; address and type rows count their list, port rows count the transports |
| Transport.TransportRowsLabels | react/features/connection-stats/components/ConnectionStatsTable.js:386-420 | the five rows for a non-empty transport list display the remote address, remote port, local address, local port and transport labels, in that order |
| Transport.TransportRowsContent | react/features/connection-stats/components/ConnectionStatsTable.js:355-420 | for comma-free fields, every cell reads back as each distinct value of its column once, in first-occurrence order; address and type counts equal the number of values shown, port counts equal the number of transports |
| Transport.SingleTransport | react/features/connection-stats/components/ConnectionStatsTable.js:355-420 | one transport "host:port" shows the host as remote address and the port as remote port, each counted once |
| Transport.SameHostTwoPorts | react/features/connection-stats/components/ConnectionStatsTable.js:355-420 | two transports to one host on different ports show the host once and both ports, counted 1 and 2 |
| StatsTable.RateText | react/features/connection-stats/components/ConnectionStatsTable.js:177-181 | "N/A" exactly when the value is not truthy (missing, null or zero); otherwise the number followed by " Kbps" |
| StatsTable.RatesCell | react/features/connection-stats/components/ConnectionStatsTable.js:164-181 | an absent statistic reads "N/A" in both directions; a present one formats each direction on its own |
| StatsTable.RateRow | react/features/connection-stats/components/ConnectionStatsTable.js:134-185 | the bandwidth and bitrate rows carry their label only (no key, count or peer-to-peer marker); a direction reads "N/A" exactly when the statistic or that direction is missing or zero (falsy), and otherwise its rate text "<v> Kbps" |
| StatsTable.PacketLossText | react/features/connection-stats/components/ConnectionStatsTable.js:230-234 | "N/A" exactly for null; undefined prints as "undefined%", a number as itself followed by "%" |
| StatsTable.PacketLossRow | react/features/connection-stats/components/ConnectionStatsTable.js:217-251 | the row carries its label only (no key, count or peer-to-peer marker); an absent statistic gives a single "N/A" cell; a present one a two-part cell whose directions read "N/A" exactly when null and otherwise "<v>%" |
| StatsTable.RateAndPacketLossFallbacksDiffer | react/features/connection-stats/components/ConnectionStatsTable.js:221-238 | undefined and zero read "N/A" as a rate but "undefined%" and "0%" as a packet loss |
| StatsTable.JoinOrNotAvailableCases | react/features/connection-stats/components/ConnectionStatsTable.js:196-198 | with 'N'-free items, the fallback "N/A" appears exactly for no items or one empty item, and otherwise the joined items are shown |
| StatsTable.FrameRateNotAvailable | react/features/connection-stats/components/ConnectionStatsTable.js:194-208 | the frame-rate cell reads "N/A" exactly for no SSRCs or a single SSRC without a numeric rate |
| StatsTable.FrameRateReadsBack | react/features/connection-stats/components/ConnectionStatsTable.js:196-198 | with numeric rates, the cell lists every rate in key order separated by ", " |
| StatsTable.ResolutionCases | react/features/connection-stats/components/ConnectionStatsTable.js:260-278 | the resolution cell reads "N/A" exactly for no SSRCs; otherwise it lists every "<width>x<height>" in key order |
| StatsTable.ShowMoreLink | react/features/connection-stats/components/ConnectionStatsTable.js:287-300 | the link exists exactly for local video; it reads "less" exactly when more is shown and "more" otherwise |
| StatsTable.Render | react/features/connection-stats/components/ConnectionStatsTable.js:96-107 | the link is rendered exactly for local video, the "less" link and the additional table exactly for local video showing more |
| StatsTable.StatisticsLayout | react/features/connection-stats/components/ConnectionStatsTable.js:308-319 | the main table always holds, in order, the bitrate row from `bitrate`, the packet-loss row from `packetLoss`, the resolution row from `resolution` and the frame-rate row from `framerate` |
| StatsTable.AdditionalLayout | react/features/connection-stats/components/ConnectionStatsTable.js:116-125 | the additional table is the bandwidth row formatted from `bandwidth`, followed by the transport rows of `transport` |
| StatsTable.RemoteIgnoresShowMore | react/features/connection-stats/components/ConnectionStatsTable.js:102-104 | for remote video there is no link and no additional table, and flipping the show-more flag changes nothing |
| StatsTable.LocalToggleShowMore | react/features/connection-stats/components/ConnectionStatsTable.js:96-107 | for local video, toggling the flag keeps the main table, switches the link between "more" and "less", and adds or removes the additional table |

## Left out

- React element construction, CSS class names, the arrow glyphs and the `translate` wrapper: rows are abstract records and `t` returns its key, with `count` kept as a separate field.
- The `onShowMore` click callback: it is forwarded to the caller untouched and has no logic here.
- `React.PropTypes` checking: a runtime development aid with no effect on the output.
- Number-to-string conversion of non-integral numbers (fractions, NaN, infinities): statistics are modelled as integers rendered in decimal, and NaN's falsiness is not modelled.
- Integer width and exponent notation: statistics are unbounded integers printed in plain decimal, so the model neither rounds values beyond 2^53 as a JavaScript Number would nor prints the exponent form (`1e+21`) JavaScript uses from 10^21 up.
- `Object.keys` enumeration order (integer-like keys first, ascending): the frame-rate and resolution maps are given as their entries already in enumeration order.
- A resolution entry that is itself null or undefined makes the source throw a TypeError; the model's entries are always `{ width, height }` records.
- A transport record whose `ip` or `localip` is missing or not a string makes `getIP`/`getPort` throw a TypeError; the model's addresses are always strings.
- A transport `type` that is not a string: the source de-duplicates the raw value with `includes` and prints it through string concatenation; the model's types are always strings.
- The `transport[i].p2p` flag is a boolean in the model; a missing flag is not distinguished from false.
- Transport.TransportRowsContent: stated only for records whose fields contain no comma, because a value with a comma inside cannot be told apart from two values once joined.
- StatsTable.FrameRateReadsBack: stated only when every rate is a number, because null and undefined rates join to empty items that the fallback can swallow.
