/**
 * Trace records: a full row of the packet trace, and the reduced entry kept for building the
 * rack-to-rack traffic matrix. Rows that leave the cluster, or miss an address, rack or pod, are
 * dropped.
 */
module TraceEntry {
  import opened Wrappers

  datatype FullEntry = FullEntry(
    timestamp: nat,
    packetlength: nat,
    srcip: string,
    dstip: string,
    srcport: string,
    dstport: string,
    ipprotocol: string,
    srchostprefix: string,
    dsthostprefix: string,
    srcrack: string,
    dstrack: string,
    srcpod: string,
    dstpod: string,
    intercluster: bool,
    interdatacenter: bool)

  datatype Entry = Entry(
    timestamp: nat,
    srcip: string,
    dstip: string,
    srcrack: string,
    dstrack: string,
    srcpod: string,
    dstpod: string)

  /** The trace's marker for a missing value: a backslash followed by `N`. */
  const MISSING: string := "\\N"

  predicate IsIntracluster(e: FullEntry) { !(e.intercluster || e.interdatacenter) }

  predicate IsValidEnough(e: FullEntry) {
    !(e.srcip == MISSING || e.dstip == MISSING || e.srcrack == MISSING
      || e.dstrack == MISSING || e.srcpod == MISSING || e.dstpod == MISSING)
  }

  /**
   * `into_entry`: the reduced entry when the row stays inside the cluster and names both
   * addresses, racks and pods; nothing otherwise.
   */
  function IntoEntry(e: FullEntry): (r: Option<Entry>)
    ensures r.Some? <==> && !e.intercluster && !e.interdatacenter
                         && e.srcip != MISSING && e.dstip != MISSING
                         && e.srcrack != MISSING && e.dstrack != MISSING
                         && e.srcpod != MISSING && e.dstpod != MISSING
    ensures r.Some? ==> r.value.timestamp == e.timestamp
                        && r.value.srcip == e.srcip && r.value.dstip == e.dstip
                        && r.value.srcrack == e.srcrack && r.value.dstrack == e.dstrack
                        && r.value.srcpod == e.srcpod && r.value.dstpod == e.dstpod
  {
    if IsIntracluster(e) && IsValidEnough(e) then
      Some(Entry(e.timestamp, e.srcip, e.dstip, e.srcrack, e.dstrack, e.srcpod, e.dstpod))
    else None
  }

  /** The fields `into_entry` keeps agree. */
  predicate SameKeptFields(e1: FullEntry, e2: FullEntry) {
    && e1.timestamp == e2.timestamp && e1.srcip == e2.srcip && e1.dstip == e2.dstip
    && e1.srcrack == e2.srcrack && e1.dstrack == e2.dstrack
    && e1.srcpod == e2.srcpod && e1.dstpod == e2.dstpod
    && e1.intercluster == e2.intercluster && e1.interdatacenter == e2.interdatacenter
  }

  /**
   * Packet length, ports, protocol and host prefixes are never inspected: two rows that differ
   * only there give the same result.
   */
  lemma IntoEntryIgnoresOtherFields(e1: FullEntry, e2: FullEntry)
    requires SameKeptFields(e1, e2)
    ensures IntoEntry(e1) == IntoEntry(e2)
  {
  }

  /** Either flag alone rejects the row, whatever its other fields. */
  lemma EitherFlagRejects(e: FullEntry)
    requires e.intercluster || e.interdatacenter
    ensures IntoEntry(e) == None
  {
  }

  /**
   * Every entry with no missing marker is what `into_entry` gives for any intra-cluster row
   * carrying its fields, whatever the dropped fields hold.
   */
  lemma IntoEntryOnto(x: Entry, packetlength: nat, srcport: string, dstport: string,
                      ipprotocol: string, srchostprefix: string, dsthostprefix: string)
    requires x.srcip != MISSING && x.dstip != MISSING && x.srcrack != MISSING
    requires x.dstrack != MISSING && x.srcpod != MISSING && x.dstpod != MISSING
    ensures IntoEntry(FullEntry(x.timestamp, packetlength, x.srcip, x.dstip, srcport, dstport,
                                ipprotocol, srchostprefix, dsthostprefix, x.srcrack, x.dstrack,
                                x.srcpod, x.dstpod, false, false)) == Some(x)
  {
  }
}
