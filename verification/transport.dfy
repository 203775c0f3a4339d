/**
 * The transport rows of the additional statistics table (`_renderTransport`):
 * the transport candidates are folded into five de-duplicated lists, which
 * are then shown as five rows in a fixed order.
 */
module Transport {
  import opened Wrappers
  import opened Rows
  import HostPort
  import Join
  import Dedup

  /** One transport candidate: remote and local "host:port" strings, the protocol, and the P2P flag. */
  datatype TransportRecord = TransportRecord(ip: string, localIp: string, kind: string, p2p: bool)

  /** The five lists `_renderTransport` collects. */
  datatype TransportData = TransportData(
    remoteIps: seq<string>,
    remotePorts: seq<string>,
    localIps: seq<string>,
    localPorts: seq<string>,
    types: seq<string>)

  // The values extracted from each record, one list per column, in record order.

  function RemoteIps(ts: seq<TransportRecord>): seq<string>
  {
    seq(|ts|, i requires 0 <= i < |ts| => HostPort.GetIP(ts[i].ip))
  }

  function RemotePorts(ts: seq<TransportRecord>): seq<string>
  {
    seq(|ts|, i requires 0 <= i < |ts| => HostPort.GetPort(ts[i].ip))
  }

  function LocalIps(ts: seq<TransportRecord>): seq<string>
  {
    seq(|ts|, i requires 0 <= i < |ts| => HostPort.GetIP(ts[i].localIp))
  }

  function LocalPorts(ts: seq<TransportRecord>): seq<string>
  {
    seq(|ts|, i requires 0 <= i < |ts| => HostPort.GetPort(ts[i].localIp))
  }

  function Types(ts: seq<TransportRecord>): seq<string>
  {
    seq(|ts|, i requires 0 <= i < |ts| => ts[i].kind)
  }

  /** The five lists by per-column first-occurrence de-duplication (see `AggregateCorrect`). */
  function Aggregate(ts: seq<TransportRecord>): TransportData
  {
    TransportData(
      Dedup.Dedup(RemoteIps(ts)),
      Dedup.Dedup(RemotePorts(ts)),
      Dedup.Dedup(LocalIps(ts)),
      Dedup.Dedup(LocalPorts(ts)),
      Dedup.Dedup(Types(ts)))
  }

  /**
   * Each aggregated list holds every extracted value once, in order of first
   * occurrence, and is no longer than the transport list.
   */
  lemma AggregateCorrect(ts: seq<TransportRecord>)
    ensures var d := Aggregate(ts);
      && Dedup.IsDedupOf(d.remoteIps, RemoteIps(ts)) && |d.remoteIps| <= |ts|
      && Dedup.IsDedupOf(d.remotePorts, RemotePorts(ts)) && |d.remotePorts| <= |ts|
      && Dedup.IsDedupOf(d.localIps, LocalIps(ts)) && |d.localIps| <= |ts|
      && Dedup.IsDedupOf(d.localPorts, LocalPorts(ts)) && |d.localPorts| <= |ts|
      && Dedup.IsDedupOf(d.types, Types(ts)) && |d.types| <= |ts|
  {
    Dedup.DedupCorrect(RemoteIps(ts));
    Dedup.DedupCorrect(RemotePorts(ts));
    Dedup.DedupCorrect(LocalIps(ts));
    Dedup.DedupCorrect(LocalPorts(ts));
    Dedup.DedupCorrect(Types(ts));
  }

  /** The five lists after the loop has visited the first `i` records. */
  function AggregatePrefix(ts: seq<TransportRecord>, i: nat): TransportData
    requires i <= |ts|
  {
    TransportData(
      Dedup.Dedup(RemoteIps(ts)[..i]),
      Dedup.Dedup(RemotePorts(ts)[..i]),
      Dedup.Dedup(LocalIps(ts)[..i]),
      Dedup.Dedup(LocalPorts(ts)[..i]),
      Dedup.Dedup(Types(ts)[..i]))
  }

  /** One record's push-if-absent step, as the body of the source's loop performs it. */
  function CollectStep(d: TransportData, t: TransportRecord): TransportData {
    TransportData(
      Dedup.PushIfAbsent(d.remoteIps, HostPort.GetIP(t.ip)),
      Dedup.PushIfAbsent(d.remotePorts, HostPort.GetPort(t.ip)),
      Dedup.PushIfAbsent(d.localIps, HostPort.GetIP(t.localIp)),
      Dedup.PushIfAbsent(d.localPorts, HostPort.GetPort(t.localIp)),
      Dedup.PushIfAbsent(d.types, t.kind))
  }

  /** Visiting record `i` extends the lists for the first `i` records to those for the first `i + 1`. */
  lemma CollectStepExtends(ts: seq<TransportRecord>, i: nat)
    requires i < |ts|
    ensures CollectStep(AggregatePrefix(ts, i), ts[i]) == AggregatePrefix(ts, i + 1)
  {
    Dedup.DedupPrefixStep(RemoteIps(ts), i);
    Dedup.DedupPrefixStep(RemotePorts(ts), i);
    Dedup.DedupPrefixStep(LocalIps(ts), i);
    Dedup.DedupPrefixStep(LocalPorts(ts), i);
    Dedup.DedupPrefixStep(Types(ts), i);
  }

  /** Once every record is visited, the lists are the aggregated ones. */
  lemma AggregatePrefixComplete(ts: seq<TransportRecord>)
    ensures AggregatePrefix(ts, |ts|) == Aggregate(ts)
  {
    assert RemoteIps(ts)[..|ts|] == RemoteIps(ts) && RemotePorts(ts)[..|ts|] == RemotePorts(ts);
    assert LocalIps(ts)[..|ts|] == LocalIps(ts) && LocalPorts(ts)[..|ts|] == LocalPorts(ts);
    assert Types(ts)[..|ts|] == Types(ts);
  }

  /** The source's loop: for each record, push each extracted value its list does not yet include. */
  method CollectTransportData(ts: seq<TransportRecord>) returns (d: TransportData)
    ensures d == Aggregate(ts)
  {
    d := TransportData([], [], [], [], []);
    var i := 0;
    while i < |ts|
      invariant 0 <= i <= |ts|
      invariant d == AggregatePrefix(ts, i)
    {
      CollectStepExtends(ts, i);
      d := CollectStep(d, ts[i]);
      i := i + 1;
    }
    AggregatePrefixComplete(ts);
  }

  /** One transport row, labelled "connectionindicator.<key>". */
  function TransportRow(key: string, count: nat, values: seq<string>, peerToPeer: bool): Row {
    Row(Some(key), "connectionindicator." + key, Some(count), Text(Join.Join(values)), peerToPeer)
  }

  /** The single row shown when there is no transport information. */
  const AddressNotAvailable: Row :=
    Row(Some("address"), "connectionindicator.address", None, Text(NotAvailable), false)

  /** The React keys of the five rows shown for a non-empty transport list, in display order. */
  const RowKeys: seq<string> := ["remoteaddress", "remoteport", "localaddress", "localport", "transport"]

  /**
   * The rows `_renderTransport` produces; an absent list is treated as empty.
   * Without transports there is one "address" row reading "N/A"; otherwise
   * five rows, remote before local before the transport type, and only the
   * remote-address row may carry the peer-to-peer marker, taken from the
   * first transport.
   */
  function TransportRows(transport: Option<seq<TransportRecord>>): (rows: seq<Row>)
    ensures transport.None? || |transport.value| == 0 ==>
              && |rows| == 1 && rows[0].key == Some("address") && rows[0].cell == Text(NotAvailable)
              && rows[0].labelKey == "connectionindicator.address" && rows[0].count.None? && !rows[0].peerToPeer
    ensures transport.Some? && |transport.value| > 0 ==>
              && |rows| == |RowKeys|
              && rows[0].key == Some(RowKeys[0]) && rows[1].key == Some(RowKeys[1])
              && rows[2].key == Some(RowKeys[2]) && rows[3].key == Some(RowKeys[3])
              && rows[4].key == Some(RowKeys[4])
              && rows[0].peerToPeer == transport.value[0].p2p
              && !rows[1].peerToPeer && !rows[2].peerToPeer && !rows[3].peerToPeer && !rows[4].peerToPeer
  {
    if transport.None? || |transport.value| == 0 then [AddressNotAvailable]
    else
      var ts := transport.value;
      // All of the transports are expected to be either P2P or relayed; the first one decides.
      LayoutRows(Aggregate(ts), |ts|, ts[0].p2p)
  }

  /**
   * The five rows for aggregated data: the address and type rows are counted
   * by their distinct values, the port rows by the number of transports.
   */
  function LayoutRows(data: TransportData, transportCount: nat, isP2P: bool): seq<Row> {
    [ TransportRow(RowKeys[0], |data.remoteIps|, data.remoteIps, isP2P),
      TransportRow(RowKeys[1], transportCount, data.remotePorts, false),
      TransportRow(RowKeys[2], |data.localIps|, data.localIps, false),
      TransportRow(RowKeys[3], transportCount, data.localPorts, false),
      TransportRow(RowKeys[4], |data.types|, data.types, false) ]
  }

  /** The label each of the five laid-out rows displays, in display order. */
  lemma LayoutLabels(data: TransportData, transportCount: nat, isP2P: bool)
    ensures var rows := LayoutRows(data, transportCount, isP2P);
      && |rows| == 5
      && rows[0].labelKey == "connectionindicator.remoteaddress"
      && rows[1].labelKey == "connectionindicator.remoteport"
      && rows[2].labelKey == "connectionindicator.localaddress"
      && rows[3].labelKey == "connectionindicator.localport"
      && rows[4].labelKey == "connectionindicator.transport"
  {
  }

  /** A non-empty transport list shows remote address, remote port, local address, local port and type labels. */
  lemma TransportRowsLabels(ts: seq<TransportRecord>)
    requires |ts| > 0
    ensures var rows := TransportRows(Some(ts));
      && |rows| == 5
      && rows[0].labelKey == "connectionindicator.remoteaddress"
      && rows[1].labelKey == "connectionindicator.remoteport"
      && rows[2].labelKey == "connectionindicator.localaddress"
      && rows[3].labelKey == "connectionindicator.localport"
      && rows[4].labelKey == "connectionindicator.transport"
  {
    assert TransportRows(Some(ts)) == LayoutRows(Aggregate(ts), |ts|, ts[0].p2p);
    LayoutLabels(Aggregate(ts), |ts|, ts[0].p2p);
  }

  /** No field of any record contains a comma, so the comma-separated cells can be read back. */
  predicate CommaFree(ts: seq<TransportRecord>) {
    forall i :: 0 <= i < |ts| ==> ',' !in ts[i].ip && ',' !in ts[i].localIp && ',' !in ts[i].kind
  }

  /** Every value a list holds is comma-free when every value it was collected from is. */
  lemma DedupCommaFree(xs: seq<string>)
    requires forall i :: 0 <= i < |xs| ==> ',' !in xs[i]
    ensures forall i :: 0 <= i < |Dedup.Dedup(xs)| ==> ',' !in Dedup.Dedup(xs)[i]
  {
    Dedup.DedupCorrect(xs);
    var d := Dedup.Dedup(xs);
    forall i | 0 <= i < |d|
      ensures ',' !in d[i]
    {
      assert d[i] in xs;
    }
  }

  /** Reads a cell back into the values it lists. */
  function CellItems(row: Row): seq<string> {
    match row.cell
    case Text(text) => Join.Split(text)
    case UpDown(_, _) => []
  }

  /** The cell and count of each of the five rows, in terms of the aggregated lists. */
  lemma TransportRowsLayout(ts: seq<TransportRecord>)
    requires |ts| > 0
    ensures var rows := TransportRows(Some(ts)); var d := Aggregate(ts);
      && rows[0].cell == Text(Join.Join(d.remoteIps)) && rows[0].count == Some(|d.remoteIps|)
      && rows[1].cell == Text(Join.Join(d.remotePorts)) && rows[1].count == Some(|ts|)
      && rows[2].cell == Text(Join.Join(d.localIps)) && rows[2].count == Some(|d.localIps|)
      && rows[3].cell == Text(Join.Join(d.localPorts)) && rows[3].count == Some(|ts|)
      && rows[4].cell == Text(Join.Join(d.types)) && rows[4].count == Some(|d.types|)
  {
    assert TransportRows(Some(ts)) == LayoutRows(Aggregate(ts), |ts|, ts[0].p2p);
  }

  /**
   * A row whose cell joins the de-duplication of non-empty, comma-free values
   * reads back as exactly that de-duplication.
   */
  lemma RowReadsBack(row: Row, xs: seq<string>)
    requires |xs| > 0
    requires forall i :: 0 <= i < |xs| ==> ',' !in xs[i]
    requires row.cell == Text(Join.Join(Dedup.Dedup(xs)))
    ensures CellItems(row) == Dedup.Dedup(xs)
    ensures Dedup.IsDedupOf(CellItems(row), xs)
  {
    Dedup.DedupCorrect(xs);
    assert xs[0] in Dedup.Dedup(xs);
    DedupCommaFree(xs);
    Join.SplitJoin(Dedup.Dedup(xs));
  }

  /** The five columns of a comma-free transport list hold no commas. */
  lemma ColumnsCommaFree(ts: seq<TransportRecord>)
    requires CommaFree(ts)
    ensures forall i :: 0 <= i < |ts| ==> ',' !in RemoteIps(ts)[i] && ',' !in RemotePorts(ts)[i]
    ensures forall i :: 0 <= i < |ts| ==> ',' !in LocalIps(ts)[i] && ',' !in LocalPorts(ts)[i]
    ensures forall i :: 0 <= i < |ts| ==> ',' !in Types(ts)[i]
  {
    forall i | 0 <= i < |ts|
      ensures ',' !in RemoteIps(ts)[i] && ',' !in RemotePorts(ts)[i]
      ensures ',' !in LocalIps(ts)[i] && ',' !in LocalPorts(ts)[i]
    {
      HostPort.SplitOmits(ts[i].ip, ',');
      HostPort.SplitOmits(ts[i].localIp, ',');
    }
  }

  /**
   * For a non-empty transport list with comma-free fields, each row's cell
   * lists every distinct value of its column exactly once, in order of first
   * occurrence; the address and type rows count those values, the port rows
   * count the transports.
   */
  lemma TransportRowsContent(ts: seq<TransportRecord>)
    requires |ts| > 0 && CommaFree(ts)
    ensures var rows := TransportRows(Some(ts));
      && |rows| == 5
      && Dedup.IsDedupOf(CellItems(rows[0]), RemoteIps(ts))
      && Dedup.IsDedupOf(CellItems(rows[1]), RemotePorts(ts))
      && Dedup.IsDedupOf(CellItems(rows[2]), LocalIps(ts))
      && Dedup.IsDedupOf(CellItems(rows[3]), LocalPorts(ts))
      && Dedup.IsDedupOf(CellItems(rows[4]), Types(ts))
      && rows[0].count == Some(|CellItems(rows[0])|)
      && rows[1].count == Some(|ts|)
      && rows[2].count == Some(|CellItems(rows[2])|)
      && rows[3].count == Some(|ts|)
      && rows[4].count == Some(|CellItems(rows[4])|)
  {
    var rows := TransportRows(Some(ts));
    TransportRowsLayout(ts);
    ColumnsCommaFree(ts);
    RowReadsBack(rows[0], RemoteIps(ts));
    RowReadsBack(rows[1], RemotePorts(ts));
    RowReadsBack(rows[2], LocalIps(ts));
    RowReadsBack(rows[3], LocalPorts(ts));
    RowReadsBack(rows[4], Types(ts));
  }

  /** The remote columns of a single transport are its host and its port. */
  lemma AggregateSingle(t: TransportRecord)
    ensures Aggregate([t]).remoteIps == [HostPort.GetIP(t.ip)]
    ensures Aggregate([t]).remotePorts == [HostPort.GetPort(t.ip)]
  {
    assert RemoteIps([t]) == [HostPort.GetIP(t.ip)];
    assert RemotePorts([t]) == [HostPort.GetPort(t.ip)];
  }

  /** A single transport "host:port" shows its host in the remote-address row and its port in the remote-port row. */
  lemma SingleTransport(host: string, port: string, local: string, kind: string, p2p: bool)
    requires HostPort.Colon !in port
    ensures var rows := TransportRows(Some([TransportRecord(host + [HostPort.Colon] + port, local, kind, p2p)]));
      && rows[0].cell == Text(host) && rows[1].cell == Text(port)
      && rows[0].count == Some(1) && rows[1].count == Some(1)
  {
    var t := TransportRecord(host + [HostPort.Colon] + port, local, kind, p2p);
    AggregateSingle(t);
    TransportRowsLayout([t]);
    HostPort.JoinRoundTrip(host, port);
  }

  /** The remote columns of two transports that share a host but not a port. */
  lemma AggregateSameHost(t1: TransportRecord, t2: TransportRecord)
    requires HostPort.GetIP(t1.ip) == HostPort.GetIP(t2.ip)
    requires HostPort.GetPort(t1.ip) != HostPort.GetPort(t2.ip)
    ensures Aggregate([t1, t2]).remoteIps == [HostPort.GetIP(t1.ip)]
    ensures Aggregate([t1, t2]).remotePorts == [HostPort.GetPort(t1.ip), HostPort.GetPort(t2.ip)]
  {
    var h, p1, p2 := HostPort.GetIP(t1.ip), HostPort.GetPort(t1.ip), HostPort.GetPort(t2.ip);
    assert RemoteIps([t1, t2]) == [h, h];
    assert RemotePorts([t1, t2]) == [p1, p2];
    Dedup.DedupPair(h, h);
    Dedup.DedupPair(p1, p2);
  }

  /**
   * Two transports to the same host on different ports: the remote-address
   * row shows the host once, the remote-port row shows both ports.
   */
  lemma SameHostTwoPorts(host: string, port1: string, port2: string, t1: TransportRecord, t2: TransportRecord)
    requires HostPort.Colon !in port1 && HostPort.Colon !in port2 && port1 != port2
    requires t1.ip == host + [HostPort.Colon] + port1 && t2.ip == host + [HostPort.Colon] + port2
    ensures var rows := TransportRows(Some([t1, t2]));
      && rows[0].cell == Text(host) && rows[0].count == Some(1)
      && rows[1].cell == Text(port1 + Join.Separator + port2) && rows[1].count == Some(2)
  {
    HostPort.JoinRoundTrip(host, port1);
    HostPort.JoinRoundTrip(host, port2);
    AggregateSameHost(t1, t2);
    TransportRowsLayout([t1, t2]);
  }
}
