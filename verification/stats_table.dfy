/**
 * The connection statistics table as a whole: the bitrate, packet-loss,
 * resolution and frame-rate rows that are always shown, the show-more link
 * shown for local video, and the additional bandwidth and transport rows shown
 * for local video when more statistics are requested.
 */
module StatsTable {
  import opened Wrappers
  import opened JsValues
  import opened Rows
  import Join
  import Transport

  /** A `{ download, upload }` statistic. */
  datatype Directional = Directional(download: JsValue, upload: JsValue)

  /** A `{ width, height }` display resolution. */
  datatype Resolution = Resolution(width: JsValue, height: JsValue)

  /**
   * The component's inputs.  The per-SSRC maps are given as their entries in
   * `Object.keys` enumeration order; `None` is an absent property.
   */
  datatype Props = Props(
    bandwidth: Option<Directional>,
    bitrate: Option<Directional>,
    framerate: Option<seq<(string, JsValue)>>,
    isLocalVideo: bool,
    packetLoss: Option<Directional>,
    resolution: Option<seq<(string, Resolution)>>,
    shouldShowMore: bool,
    transport: Option<seq<Transport.TransportRecord>>)

  /** What is rendered: the main table, the optional show-more link (its translation key), the optional extra table. */
  datatype View = View(statistics: seq<Row>, showMoreLink: Option<string>, additionalStats: Option<seq<Row>>)

  const MoreKey: string := "connectionindicator.more"
  const LessKey: string := "connectionindicator.less"

  /** Characters of "N/A" that never occur in a rendered number. */
  lemma NumeralsAreNotNA(i: int)
    ensures 'N' !in IntToString(i)
  {
  }

  /** A rate in Kbps: shown only when truthy, so zero, null and undefined all read "N/A". */
  function RateText(v: JsValue): (r: string)
    ensures r == NotAvailable <==> !Truthy(v)
    ensures Truthy(v) ==> |r| > 5 && r[|r| - 5..] == " Kbps" && r[..|r| - 5] == IntToString(v.n)
  {
    if Truthy(v) then
      var r := IntToString(v.n) + " Kbps";
      assert r[0] != 'N' by { NumeralsAreNotNA(v.n); assert r[0] == IntToString(v.n)[0]; }
      r
    else NotAvailable
  }

  /** The download and upload parts of a rate row; an absent statistic reads as `{}`. */
  function RatesCell(stat: Option<Directional>): (c: Cell)
    ensures c.UpDown?
    ensures stat.None? ==> c == UpDown(NotAvailable, NotAvailable)
    ensures stat.Some? ==> c == UpDown(RateText(stat.value.download), RateText(stat.value.upload))
  {
    var d := if stat.Some? then stat.value else Directional(Undefined, Undefined);
    UpDown(RateText(d.download), RateText(d.upload))
  }

  /**
   * A rate row (bitrate or bandwidth): each direction reads "N/A" when the
   * statistic or that direction is missing or zero.
   */
  function RateRow(labelKey: string, stat: Option<Directional>): (row: Row)
    ensures row.labelKey == labelKey && row.key.None? && row.count.None? && !row.peerToPeer && row.cell.UpDown?
    ensures row.cell.download == NotAvailable <==> stat.None? || !Truthy(stat.value.download)
    ensures row.cell.upload == NotAvailable <==> stat.None? || !Truthy(stat.value.upload)
    ensures row.cell == RatesCell(stat)
  {
    Row(None, labelKey, None, RatesCell(stat), false)
  }

  function BitrateRow(bitrate: Option<Directional>): Row {
    RateRow("connectionindicator.bitrate", bitrate)
  }

  function BandwidthRow(bandwidth: Option<Directional>): Row {
    RateRow("connectionindicator.bandwidth", bandwidth)
  }

  /**
   * Packet loss in percent: only an explicit `null` reads "N/A"; any other
   * value, `undefined` included, is printed followed by "%".
   */
  function PacketLossText(v: JsValue): (r: string)
    ensures r == NotAvailable <==> v.Null?
    ensures v.Undefined? ==> r == "undefined%"
    ensures v.Num? ==> r == IntToString(v.n) + "%"
  {
    if v.Null? then NotAvailable
    else
      var r := TemplateString(v) + "%";
      assert r[|r| - 1] == '%';
      r
  }

  /** An absent packet-loss statistic gives a single "N/A" cell, a present one a download and an upload part. */
  function PacketLossRow(packetLoss: Option<Directional>): (row: Row)
    ensures row.labelKey == "connectionindicator.packetloss"
    ensures row.key.None? && row.count.None? && !row.peerToPeer
    ensures packetLoss.None? <==> row.cell == Text(NotAvailable)
    ensures row.cell.UpDown? <==> packetLoss.Some?
    ensures packetLoss.Some? ==> (row.cell.download == NotAvailable <==> packetLoss.value.download.Null?)
    ensures packetLoss.Some? ==> (row.cell.upload == NotAvailable <==> packetLoss.value.upload.Null?)
    ensures packetLoss.Some? ==>
              row.cell == UpDown(PacketLossText(packetLoss.value.download), PacketLossText(packetLoss.value.upload))
  {
    var cell :=
      if packetLoss.Some? then
        UpDown(PacketLossText(packetLoss.value.download), PacketLossText(packetLoss.value.upload))
      else Text(NotAvailable);
    Row(None, "connectionindicator.packetloss", None, cell, false)
  }

  /**
   * The two fallbacks differ: a rate reads "N/A" for undefined and for zero,
   * a packet loss prints both, as "undefined%" and "0%".
   */
  lemma RateAndPacketLossFallbacksDiffer()
    ensures RateText(Undefined) == NotAvailable && PacketLossText(Undefined) == "undefined%"
    ensures RateText(Num(0)) == NotAvailable && PacketLossText(Num(0)) == "0%"
  {
    assert IntToString(0) == "0";
  }

  /** `join(', ') || 'N/A'`: the joined items, or "N/A" when they join to nothing. */
  function JoinOrNotAvailable(items: seq<string>): string {
    var joined := Join.Join(items);
    if joined == "" then NotAvailable else joined
  }

  /** Frame rates as `Array.prototype.join` renders them: null and undefined become empty items. */
  function FrameRateItems(entries: seq<(string, JsValue)>): seq<string>
  {
    seq(|entries|, i requires 0 <= i < |entries| => JoinElementString(entries[i].1))
  }

  /** Resolutions as "<width>x<height>". */
  function ResolutionItems(entries: seq<(string, Resolution)>): seq<string>
  {
    seq(|entries|, i requires 0 <= i < |entries| =>
      TemplateString(entries[i].1.width) + "x" + TemplateString(entries[i].1.height))
  }

  /** The entries of an optional map; absent reads as `{}`. */
  function EntriesOf<V>(m: Option<seq<(string, V)>>): (entries: seq<(string, V)>)
    ensures m.None? ==> entries == []
  {
    if m.Some? then m.value else []
  }

  function FrameRateText(framerate: Option<seq<(string, JsValue)>>): string {
    JoinOrNotAvailable(FrameRateItems(EntriesOf(framerate)))
  }

  function ResolutionText(resolution: Option<seq<(string, Resolution)>>): string {
    JoinOrNotAvailable(ResolutionItems(EntriesOf(resolution)))
  }

  function FrameRateRow(framerate: Option<seq<(string, JsValue)>>): Row {
    Row(None, "connectionindicator.framerate", None, Text(FrameRateText(framerate)), false)
  }

  function ResolutionRow(resolution: Option<seq<(string, Resolution)>>): Row {
    Row(None, "connectionindicator.resolution", None, Text(ResolutionText(resolution)), false)
  }

  /** The always-shown table, in display order. */
  function StatisticsRows(p: Props): seq<Row> {
    [BitrateRow(p.bitrate), PacketLossRow(p.packetLoss), ResolutionRow(p.resolution), FrameRateRow(p.framerate)]
  }

  /** The link appears for local video only, and offers "less" while more is shown. */
  function ShowMoreLink(isLocalVideo: bool, shouldShowMore: bool): (link: Option<string>)
    ensures link.Some? <==> isLocalVideo
    ensures link == Some(LessKey) <==> isLocalVideo && shouldShowMore
    ensures link == Some(MoreKey) <==> isLocalVideo && !shouldShowMore
  {
    if isLocalVideo then Some(if shouldShowMore then LessKey else MoreKey) else None
  }

  /** The additional table: bandwidth, then the transport rows. */
  function AdditionalRows(p: Props): seq<Row> {
    [BandwidthRow(p.bandwidth)] + Transport.TransportRows(p.transport)
  }

  /** `render`: the main table always, the link for local video, the extra table for local video showing more. */
  function Render(p: Props): (v: View)
    ensures v.showMoreLink.Some? <==> p.isLocalVideo
    ensures v.showMoreLink == Some(LessKey) <==> p.isLocalVideo && p.shouldShowMore
    ensures v.additionalStats.Some? <==> p.isLocalVideo && p.shouldShowMore
  {
    View(
      StatisticsRows(p),
      ShowMoreLink(p.isLocalVideo, p.shouldShowMore),
      if p.isLocalVideo && p.shouldShowMore then Some(AdditionalRows(p)) else None)
  }

  /** Falling back to "N/A" happens exactly when the items join to nothing, as long as no item holds an 'N'. */
  lemma JoinOrNotAvailableCases(items: seq<string>)
    requires forall i :: 0 <= i < |items| ==> 'N' !in items[i]
    ensures JoinOrNotAvailable(items) == NotAvailable <==> |items| == 0 || (|items| == 1 && items[0] == "")
    ensures JoinOrNotAvailable(items) != NotAvailable ==> JoinOrNotAvailable(items) == Join.Join(items)
  {
    Join.JoinIsEmpty(items);
    Join.JoinOmits(items, 'N');
    assert NotAvailable[0] == 'N';
  }

  /**
   * The frame-rate cell reads "N/A" exactly when there are no SSRCs, or a
   * single one whose rate is null or undefined (which joins to nothing).
   */
  lemma FrameRateNotAvailable(framerate: Option<seq<(string, JsValue)>>)
    ensures var entries := EntriesOf(framerate);
      FrameRateText(framerate) == NotAvailable <==> |entries| == 0 || (|entries| == 1 && !entries[0].1.Num?)
  {
    var entries := EntriesOf(framerate);
    var items := FrameRateItems(entries);
    forall i | 0 <= i < |items|
      ensures 'N' !in items[i]
    {
      if entries[i].1.Num? {
        NumeralsAreNotNA(entries[i].1.n);
      }
    }
    JoinOrNotAvailableCases(items);
  }

  /** When every frame rate is a number, the cell lists each rendered rate, in key order. */
  lemma FrameRateReadsBack(framerate: Option<seq<(string, JsValue)>>)
    requires var entries := EntriesOf(framerate);
      |entries| > 0 && forall i :: 0 <= i < |entries| ==> entries[i].1.Num?
    ensures var entries := EntriesOf(framerate);
      Join.Split(FrameRateText(framerate)) == seq(|entries|, i requires 0 <= i < |entries| => IntToString(entries[i].1.n))
  {
    var entries := EntriesOf(framerate);
    var items := FrameRateItems(entries);
    forall i | 0 <= i < |items|
      ensures 'N' !in items[i] && ',' !in items[i] && items[i] != ""
    {
      NumeralsAreNotNA(entries[i].1.n);
    }
    JoinOrNotAvailableCases(items);
    Join.SplitJoin(items);
  }

  /** A rendered resolution never contains 'N' or a comma. */
  lemma ResolutionItemChars(r: Resolution)
    ensures var item := TemplateString(r.width) + "x" + TemplateString(r.height);
      'N' !in item && ',' !in item
  {
    if r.width.Num? {
      NumeralsAreNotNA(r.width.n);
    }
    if r.height.Num? {
      NumeralsAreNotNA(r.height.n);
    }
  }

  /**
   * The resolution cell reads "N/A" exactly when there are no SSRCs;
   * otherwise it lists "<width>x<height>" for each SSRC, in key order.
   */
  lemma ResolutionCases(resolution: Option<seq<(string, Resolution)>>)
    ensures var entries := EntriesOf(resolution);
      ResolutionText(resolution) == NotAvailable <==> |entries| == 0
    ensures var entries := EntriesOf(resolution);
      |entries| > 0 ==> Join.Split(ResolutionText(resolution)) == ResolutionItems(entries)
  {
    var entries := EntriesOf(resolution);
    var items := ResolutionItems(entries);
    forall i | 0 <= i < |items|
      ensures 'N' !in items[i] && ',' !in items[i]
    {
      ResolutionItemChars(entries[i].1);
    }
    if |items| > 0 {
      assert items[0][|TemplateString(entries[0].1.width)|] == 'x';
      Join.SplitJoin(items);
    }
    JoinOrNotAvailableCases(items);
  }

  /**
   * The main table always shows bitrate, packet loss, resolution and frame
   * rate, in that order, each row formatted from its own property.
   */
  lemma StatisticsLayout(p: Props)
    ensures var rows := Render(p).statistics;
      && |rows| == 4
      && rows[0] == RateRow("connectionindicator.bitrate", p.bitrate)
      && rows[1] == PacketLossRow(p.packetLoss)
      && rows[2] == Row(None, "connectionindicator.resolution", None, Text(ResolutionText(p.resolution)), false)
      && rows[3] == Row(None, "connectionindicator.framerate", None, Text(FrameRateText(p.framerate)), false)
  {
  }

  /** The extra table is the bandwidth row, formatted from the bandwidth property, followed by the transport rows. */
  lemma AdditionalLayout(p: Props)
    requires p.isLocalVideo && p.shouldShowMore
    ensures Render(p).additionalStats.value
              == [RateRow("connectionindicator.bandwidth", p.bandwidth)] + Transport.TransportRows(p.transport)
  {
  }

  /** For a remote participant the show-more flag changes nothing, and no extra table is ever shown. */
  lemma RemoteIgnoresShowMore(p: Props)
    requires !p.isLocalVideo
    ensures Render(p).additionalStats.None? && Render(p).showMoreLink.None?
    ensures Render(p) == Render(p.(shouldShowMore := !p.shouldShowMore))
  {
  }

  /**
   * For local video, toggling the show-more flag keeps the main table, turns
   * the link between "more" and "less", and adds or removes the extra table.
   */
  lemma LocalToggleShowMore(p: Props)
    requires p.isLocalVideo
    ensures var hidden := Render(p.(shouldShowMore := false));
      var shown := Render(p.(shouldShowMore := true));
      && hidden.statistics == shown.statistics
      && hidden.showMoreLink == Some(MoreKey) && shown.showMoreLink == Some(LessKey)
      && hidden.additionalStats.None? && shown.additionalStats.Some?
  {
  }
}
