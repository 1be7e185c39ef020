/** The two kinds of point the exporter writes to the time-series store, and
    how each is shaped from the snapshot: measurement name, tag set, the
    integer-valued part of the field set, and the timestamp. */
module LineRecords {
  import opened CInts
  import opened Decimal
  import opened Snapshot

  datatype Option<T> = None | Some(value: T)

  datatype Tag = Tag(key: string, value: string)

  datatype IntField = IntField(key: string, value: int)

  /** One line-protocol point. */
  datatype Point = Point(measurement: string, tags: seq<Tag>, intFields: seq<IntField>, timestampNs: u64)

  const SingletonMeasurement: string := "rtue_singleton_metric"
  const CarrierMeasurement: string := "rtue_carrier_metric"

  /** The value of the first tag with the given key. */
  function TagValue(tags: seq<Tag>, key: string): Option<string> {
    if tags == [] then None
    else if tags[0].key == key then Some(tags[0].value)
    else TagValue(tags[1..], key)
  }

  function TagKeys(tags: seq<Tag>): seq<string> {
    seq(|tags|, i requires 0 <= i < |tags| => tags[i].key)
  }

  /** The value of the first integer field with the given key. */
  function FieldValue(fields: seq<IntField>, key: string): Option<int> {
    if fields == [] then None
    else if fields[0].key == key then Some(fields[0].value)
    else FieldValue(fields[1..], key)
  }

  /** A lookup finds the first tag carrying the key. */
  lemma {:induction false} TagValueAt(tags: seq<Tag>, key: string, i: nat)
    requires i < |tags| && tags[i].key == key
    requires forall j :: 0 <= j < i ==> tags[j].key != key
    ensures TagValue(tags, key) == Some(tags[i].value)
    decreases i
  {
    if 0 < i {
      TagValueAt(tags[1..], key, i - 1);
    }
  }

  /** A lookup of a key no tag carries finds nothing. */
  lemma {:induction false} TagValueAbsent(tags: seq<Tag>, key: string)
    requires forall j :: 0 <= j < |tags| ==> tags[j].key != key
    ensures TagValue(tags, key) == None
    decreases |tags|
  {
    if tags != [] {
      TagValueAbsent(tags[1..], key);
    }
  }

  /** A lookup finds the first integer field carrying the key. */
  lemma {:induction false} FieldValueAt(fields: seq<IntField>, key: string, i: nat)
    requires i < |fields| && fields[i].key == key
    requires forall j :: 0 <= j < i ==> fields[j].key != key
    ensures FieldValue(fields, key) == Some(fields[i].value)
    decreases i
  {
    if 0 < i {
      FieldValueAt(fields[1..], key, i - 1);
    }
  }

  /** `SRSRAN_MAX(a, b)`. */
  function Max(a: u32, b: u32): u32 {
    if a > b then a else b
  }

  /** The tags every point carries: the testbed label and the data identifier. */
  function BaseTags(dataId: string): seq<Tag> {
    [Tag("testbed", "default"), Tag("rtue_data_id", dataId)]
  }

  /** The UE-wide point. */
  function SingletonPoint(m: UeMetrics, dataId: string, currentTimeNsec: u64): Point {
    Point(
      SingletonMeasurement,
      BaseTags(dataId),
      [ IntField("rf_o", m.rf.rfO),
        IntField("rf_u", m.rf.rfU),
        IntField("rf_l", m.rf.rfL),
        IntField("nof_active_cc", U32ToInt32(Max(m.phy.nofActiveCc, m.phyNr.nofActiveCc))),
        IntField("ul_dropped_sdus", m.stack.ulDroppedSdus),
        IntField("nof_active_eps_bearer", m.stack.nas.nofActiveEpsBearer),
        IntField("emm_state", m.stack.nas.state),
        IntField("proc_rmem", m.sys.processRealmem),
        IntField("proc_rmem_kB", m.sys.processRealmemKB),
        IntField("proc_vmem_kB", m.sys.processVirtualmemKB),
        IntField("sys_mem", m.sys.systemMem),
        IntField("system_load", m.sys.processCpuUsage) ],
      currentTimeNsec)
  }

  /** The point of one carrier: tagged with the channel index `cc`, while
      every per-carrier value is read at the radio index `r`. */
  function CarrierPoint(dataId: string, phy: PhyMetrics, mac: seq<MacMetrics>, rrc: RrcMetrics,
                        cc: u32, r: nat, currentTimeNsec: u64, carrierType: string): Point
    requires r < |phy.info| && r < |phy.sync| && r < |mac|
  {
    Point(
      CarrierMeasurement,
      BaseTags(dataId) + [Tag("carrier_channel_index", DecimalString(cc)), Tag("carrier_type", carrierType)],
      [ IntField("dl_earfcn", phy.info[r].dlEarfcn),
        IntField("pci", phy.info[r].pci),
        IntField("sfo", TruncateTowardZero(phy.sync[r].cfo)),
        IntField("rx_pkts", mac[r].rxPkts),
        IntField("rx_errors", mac[r].rxErrors),
        IntField("tx_pkts", mac[r].txPkts),
        IntField("tx_errors", mac[r].txErrors),
        IntField("rrc_state", rrc.state) ],
      currentTimeNsec)
  }

  /** The singleton carries exactly the two base tags, `testbed="default"` and
      `rtue_data_id` set to the data identifier, and the tick's timestamp. */
  lemma SingletonTagsExact(m: UeMetrics, dataId: string, t: u64)
    ensures var p := SingletonPoint(m, dataId, t);
      && p.measurement == SingletonMeasurement
      && TagKeys(p.tags) == ["testbed", "rtue_data_id"]
      && TagValue(p.tags, "testbed") == Some("default")
      && TagValue(p.tags, "rtue_data_id") == Some(dataId)
      && TagValue(p.tags, "carrier_channel_index") == None
      && p.timestampNs == t
  {
    var tags := SingletonPoint(m, dataId, t).tags;
    TagValueAt(tags, "testbed", 0);
    TagValueAt(tags, "rtue_data_id", 1);
    TagValueAbsent(tags, "carrier_channel_index");
  }

  /** The singleton's `nof_active_cc` field is the larger of the LTE and NR
      active-carrier counts, as long as that fits the `int` it is cast to. */
  lemma SingletonActiveCcIsMax(m: UeMetrics, dataId: string, t: u64)
    requires m.phy.nofActiveCc < TwoTo31 && m.phyNr.nofActiveCc < TwoTo31
    ensures var v := FieldValue(SingletonPoint(m, dataId, t).intFields, "nof_active_cc");
      && v.Some?
      && m.phy.nofActiveCc <= v.value && m.phyNr.nofActiveCc <= v.value
      && (v.value == m.phy.nofActiveCc || v.value == m.phyNr.nofActiveCc)
  {
    var fields := SingletonPoint(m, dataId, t).intFields;
    FieldValueAt(fields, "nof_active_cc", 3);
  }

  /** A carrier point carries the two base tags followed by the decimal channel
      index and the carrier type, and the given timestamp. */
  lemma CarrierTagsExact(dataId: string, phy: PhyMetrics, mac: seq<MacMetrics>, rrc: RrcMetrics,
                         cc: u32, r: nat, t: u64, carrierType: string)
    requires r < |phy.info| && r < |phy.sync| && r < |mac|
    ensures var p := CarrierPoint(dataId, phy, mac, rrc, cc, r, t, carrierType);
      && p.measurement == CarrierMeasurement
      && TagKeys(p.tags) == ["testbed", "rtue_data_id", "carrier_channel_index", "carrier_type"]
      && TagValue(p.tags, "testbed") == Some("default")
      && TagValue(p.tags, "rtue_data_id") == Some(dataId)
      && TagValue(p.tags, "carrier_channel_index") == Some(DecimalString(cc))
      && TagValue(p.tags, "carrier_type") == Some(carrierType)
      && p.timestampNs == t
  {
    var tags := CarrierPoint(dataId, phy, mac, rrc, cc, r, t, carrierType).tags;
    TagValueAt(tags, "testbed", 0);
    TagValueAt(tags, "rtue_data_id", 1);
    TagValueAt(tags, "carrier_channel_index", 2);
    TagValueAt(tags, "carrier_type", 3);
  }

  /** Every per-carrier field of a carrier point is read at the radio index
      `r`, whatever the channel index `cc`; `sfo` is the truncated `cfo` of the
      synchronisation entry. */
  lemma CarrierFieldsAtRadioIndex(dataId: string, phy: PhyMetrics, mac: seq<MacMetrics>, rrc: RrcMetrics,
                                  cc: u32, r: nat, t: u64, carrierType: string)
    requires r < |phy.info| && r < |phy.sync| && r < |mac|
    ensures var f := CarrierPoint(dataId, phy, mac, rrc, cc, r, t, carrierType).intFields;
      && FieldValue(f, "dl_earfcn") == Some(phy.info[r].dlEarfcn)
      && FieldValue(f, "pci") == Some(phy.info[r].pci)
      && FieldValue(f, "sfo") == Some(TruncateTowardZero(phy.sync[r].cfo))
      && FieldValue(f, "rx_pkts") == Some(mac[r].rxPkts)
      && FieldValue(f, "rx_errors") == Some(mac[r].rxErrors)
      && FieldValue(f, "tx_pkts") == Some(mac[r].txPkts)
      && FieldValue(f, "tx_errors") == Some(mac[r].txErrors)
      && FieldValue(f, "rrc_state") == Some(rrc.state)
  {
    var f := CarrierPoint(dataId, phy, mac, rrc, cc, r, t, carrierType).intFields;
    FieldValueAt(f, "dl_earfcn", 0);
    FieldValueAt(f, "pci", 1);
    FieldValueAt(f, "sfo", 2);
    FieldValueAt(f, "rx_pkts", 3);
    FieldValueAt(f, "rx_errors", 4);
    FieldValueAt(f, "tx_pkts", 5);
    FieldValueAt(f, "tx_errors", 6);
    FieldValueAt(f, "rrc_state", 7);
  }
}
