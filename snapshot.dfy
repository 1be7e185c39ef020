/** The part of the UE metrics snapshot (`ue_metrics_t`) that the exporter
    turns into integer fields. Each integral member stands for the integer the
    exporter's cast yields from it; the carrier-frequency offset is kept as a
    real because the exporter truncates it to make the `sfo` field. */
module Snapshot {
  import opened CInts

  /** `SRSRAN_MAX_CARRIERS`: the fixed length of every per-carrier array. */
  const MaxCarriers: nat := 5

  datatype RfMetrics = RfMetrics(rfO: int, rfU: int, rfL: int)

  datatype SysMetrics = SysMetrics(
    processRealmem: int,
    processRealmemKB: int,
    processVirtualmemKB: int,
    systemMem: int,
    processCpuUsage: int)

  /** One entry of `phy.info`. */
  datatype CarrierInfo = CarrierInfo(dlEarfcn: int, pci: int)

  /** One entry of `phy.sync`. */
  datatype SyncMetrics = SyncMetrics(cfo: real)

  /** `phy_metrics_t`, used for both the LTE and the NR physical layer. */
  datatype PhyMetrics = PhyMetrics(nofActiveCc: u32, info: seq<CarrierInfo>, sync: seq<SyncMetrics>)

  /** One entry of the per-carrier `mac` / `mac_nr` arrays. */
  datatype MacMetrics = MacMetrics(rxPkts: int, rxErrors: int, txPkts: int, txErrors: int)

  datatype RrcMetrics = RrcMetrics(state: int)

  datatype NasMetrics = NasMetrics(state: int, nofActiveEpsBearer: int)

  datatype StackMetrics = StackMetrics(
    mac: seq<MacMetrics>,
    macNr: seq<MacMetrics>,
    rrc: RrcMetrics,
    nas: NasMetrics,
    ulDroppedSdus: int)

  datatype UeMetrics = UeMetrics(rf: RfMetrics, sys: SysMetrics, phy: PhyMetrics, phyNr: PhyMetrics, stack: StackMetrics)

  /** Every per-carrier array has its fixed length, and only a prefix of it
      (at most all of it) is active. */
  predicate PhyWellFormed(phy: PhyMetrics) {
    |phy.info| == MaxCarriers && |phy.sync| == MaxCarriers && phy.nofActiveCc <= MaxCarriers
  }

  predicate WellFormed(m: UeMetrics) {
    PhyWellFormed(m.phy) && PhyWellFormed(m.phyNr)
    && |m.stack.mac| == MaxCarriers && |m.stack.macNr| == MaxCarriers
  }
}
