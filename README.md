# InfluxDB metrics exporter of the rtue UE — a Dafny model

This project models the tick driver and the record shaping of the UE's InfluxDB
metrics exporter (`srsue::metrics_influxdb`). The exporter is built once from
connection parameters and a UE data identifier. Construction decides, once and
for good, whether reporting is enabled (`init_success`). Each `set_metrics`
call is one tick:

- it reads the clock once;
- it writes one UE-wide "singleton" point, and stops the tick if that write fails;
- otherwise it writes one point per active LTE carrier, then one per active NR
  carrier, carrying on past carrier writes that fail.

NR channel indices continue after the LTE ones. Per-carrier values are read at
the carrier's radio index `r`.

Files and modules:

- `c_ints.dfy` (`CInts`): the fixed-width C integer types, plus the
  conversions the exporter applies to them. These are `uint32_t` addition,
  `(int)` of a `uint32_t`, and `(int)` of a floating value (truncation toward
  zero).
- `decimal.dfy` (`Decimal`): `std::to_string` of an unsigned value, its
  inverse, and the proof that it is a bijection onto canonical numerals.
- `snapshot.dfy` (`Snapshot`): the members of `ue_metrics_t` the exporter
  turns into integer fields. The per-carrier arrays have length
  `SRSRAN_MAX_CARRIERS`.
- `epoch_time.dfy` (`EpochTime`): `get_epoch_time_nsec` as 64-bit unsigned
  arithmetic on one `timespec` reading.
- `line_records.dfy` (`LineRecords`): the singleton and carrier points. Each
  has a measurement name, a tag set, an integer field set and a timestamp.
- `tick.dfy` (`Tick`): `TickAttempts`, the exact sequence of points one tick
  attempts to write, and the lemmas about it.
- `exporter.dfy` (`Exporter`): the class `MetricsInfluxdb`. Its constant
  fields are `influxServerInfo`, `dataId` and `initSuccess`. A ghost log
  `attempts` records every attempted write. `SetMetrics` is proved to extend
  the log by exactly `TickAttempts(...)`, using two `for` loops.

The store is represented by `reply: Point -> string`, the response text it
gives for a point. A write succeeds exactly when that text is empty.
`TickPointsDistinct` proves that the points of one tick are pairwise distinct.
So a function of the point can express any mix of per-write outcomes within a
tick.

## Model

| member | source | states |
|---|---|---|
| `Exporter.MetricsInfluxdb.constructor` | rtue/src/metrics_influxdb.cc:36-46 | keeps the connection parameters and data identifier; `initSuccess` holds iff the server-info status `resp_` is 0; it is a `const`, so no later operation changes it; nothing has been posted yet |
| `Exporter.MetricsInfluxdb.SetMetrics` | rtue/src/metrics_influxdb.cc:60-88 | one tick appends to the log exactly the attempts `TickAttempts` describes; the timestamp comes from the one clock reading it is given; nothing else changes |
| `Exporter.MetricsInfluxdb.PostSingletonMetrics` | rtue/src/metrics_influxdb.cc:90-125 | appends exactly the singleton point to the log; reports failure iff the store's response text is non-empty |
| `Exporter.MetricsInfluxdb.PostCarrierMetrics` | rtue/src/metrics_influxdb.cc:127-188 | appends exactly the carrier point for channel index `cc` and radio index `r`; reports failure iff the response text is non-empty |
| `Tick.DisabledTickPostsNothing` | rtue/src/metrics_influxdb.cc:62-63 | when initialisation failed, a tick attempts no post at all |
| `Tick.SingletonFailureAbortsTick` | rtue/src/metrics_influxdb.cc:66-69 | when the singleton write fails, the singleton is the tick's only attempt |
| `Tick.TickAttemptOrder` | rtue/src/metrics_influxdb.cc:71-87 | after a successful singleton: the singleton first; LTE carriers `r` ascending with channel index `r`, radio index `r`, type "lte"; then NR carriers `r` ascending with channel index `phy.nof_active_cc + r`, radio index `r`, type "nr"; `1 + lte + nr` attempts in all |
| `Tick.CarrierOutcomesIrrelevant` | rtue/src/metrics_influxdb.cc:71-87 | two stores that agree on the singleton's outcome see the same attempts, so a failing carrier write never stops the loops |
| `Tick.TickAttemptCount` | rtue/src/metrics_influxdb.cc:62-87 | the number of attempts is 0, 1 or `1 + phy.nof_active_cc + phy_nr.nof_active_cc`, decided only by `init_success` and the singleton's outcome |
| `Tick.TickSharedTimestamp` | rtue/src/metrics_influxdb.cc:64-86 | every point attempted in a tick carries that tick's one timestamp |
| `Tick.ChannelIndicesEnumerate` | rtue/src/metrics_influxdb.cc:71-87 | the carrier at attempt position `i` has `carrier_channel_index` equal to the decimal of `i - 1`, so the indices are exactly `0 .. lte + nr - 1` in ascending order; the singleton has no such tag |
| `Tick.ChannelIndicesDistinct` | rtue/src/metrics_influxdb.cc:83 | no two carrier points of a tick share a `carrier_channel_index` tag value, so NR indices never collide with LTE ones |
| `Tick.TickPointsDistinct` | rtue/src/metrics_influxdb.cc:140-145 | the points attempted in one tick are pairwise distinct |
| `Tick.TickCarriersReadRadioIndex` | rtue/src/metrics_influxdb.cc:147-168 | every carrier point of a tick reads `phy.info` and `mac` at its radio index, not at its channel index: entry `i - 1` for LTE, entry `i - 1 - phy.nof_active_cc` of the NR arrays for NR |
| `LineRecords.SingletonTagsExact` | rtue/src/metrics_influxdb.cc:94-97 | the singleton is measurement `rtue_singleton_metric` with exactly the tags `testbed="default"` and `rtue_data_id=data_id`, carries no channel index, and is stamped with the tick's time |
| `LineRecords.SingletonActiveCcIsMax` | rtue/src/metrics_influxdb.cc:103 | the `nof_active_cc` field is the larger of the LTE and NR active-carrier counts, when that fits an `int` |
| `LineRecords.CarrierTagsExact` | rtue/src/metrics_influxdb.cc:140-145 | a carrier point is measurement `rtue_carrier_metric`; its tag keys are, in order, `testbed`, `rtue_data_id`, `carrier_channel_index`, `carrier_type`; the values are "default", the data identifier, the decimal of `cc` and the carrier type |
| `LineRecords.CarrierFieldsAtRadioIndex` | rtue/src/metrics_influxdb.cc:147-178 | `dl_earfcn`, `pci`, `rx_pkts`, `rx_errors`, `tx_pkts` and `tx_errors` come from entry `r` of `phy.info` and `mac`; `sfo` is the truncated `cfo` from `phy.sync[r]`; `rrc_state` is the RRC state |
| `EpochTime.EpochTimeWraps` | rtue/src/metrics_influxdb.cc:194 | the unsigned 64-bit composition equals `tv_sec * 1000000000 + tv_nsec` reduced modulo 2^64, for any reading |
| `EpochTime.EpochTimeExact` | rtue/src/metrics_influxdb.cc:190-196 | for a normalised reading that fits in 64 bits, the timestamp is exactly `tv_sec * 10^9 + tv_nsec`; dividing by 10^9 gives back `tv_sec`, and the remainder is `tv_nsec` |
| `EpochTime.EpochTimeMonotonic` | rtue/src/metrics_influxdb.cc:190-196 | a later normalised reading never yields a smaller timestamp |
| `Decimal.DecimalString` | rtue/src/metrics_influxdb.cc:144 | `std::to_string` of the channel index yields a canonical numeral: at least one digit, with no leading zero |
| `Decimal.DecimalRoundTrip` | rtue/src/metrics_influxdb.cc:144 | reading the rendered channel index back gives the index |
| `Decimal.DecimalStringInjective` | rtue/src/metrics_influxdb.cc:144 | two channel indices render to the same tag value iff they are equal |
| `Decimal.CanonicalRoundTrip` | rtue/src/metrics_influxdb.cc:144 | every canonical numeral is the rendering of its own value |
| `CInts.U32Add` | rtue/src/metrics_influxdb.cc:83 | the NR channel offset `phy.nof_active_cc + r` is `uint32_t` addition: the exact sum below 2^32, and the sum less 2^32 above it |
| `CInts.U32ToInt32` | rtue/src/metrics_influxdb.cc:103 | the `(int)` cast keeps the value below 2^31 and otherwise gives the two's-complement reading, congruent to it modulo 2^32 |
| `CInts.TruncateTowardZero` | rtue/src/metrics_influxdb.cc:157 | the `(int)` cast of `cfo` drops the fraction toward zero |

## Left out

- The line-protocol builder and `post_http` (rtue/src/metrics_influxdb.cc:94-119, 140-181). Serialisation, escaping and the HTTP exchange are library code in `rtue/hdr/influxdb.hpp`, which is not part of this model. A write is modelled by the store's response text, `reply(point)`.
- The server-info construction (rtue/src/metrics_influxdb.cc:42). It is library code; its status `resp_` is a constructor parameter `resp`.
- `clock_gettime` (rtue/src/metrics_influxdb.cc:192-193). It is an OS call; the tick takes the `timespec` reading as its parameter `clock`.
- Every floating-point field, because real-number arithmetic does not model IEEE floats. These are the singleton's `dl_tput_mbps` and `ul_tput_mbps`. For carriers they are `rsrp`, `rsrq`, `rssi`, `ri`, `sync_err`, `pathloss`, `cfo`, `ul_mcs`, `ul_power`, `dl_mcs`, `dl_evm`, `sinr` (with its infinity clamp), `fec_iters`, `rx_brate`, `tx_brate`, `ta_us`, `distance_km`, `speed_kmph` and `ul_buffer`. The rate fields divide by `nof_tti` behind a guard of `rx_brate > 0` / `tx_brate > 0`. The code does not test `nof_tti`, so nothing here claims a zero-TTI guard.
- `TruncateTowardZero`: the overflow of a float-to-`int` cast is not modelled. The source does not guard it.
- Integer widths of the snapshot's own members (`uint32_t`, enums, `long`) are not modelled, because their declarations are in headers outside this model. Each integer field holds the integer the source's cast yields. `SRSRAN_MAX_CARRIERS` is taken as 5, srsRAN's value.
- `SetMetrics` requires a well-formed snapshot: every per-carrier array holds `SRSRAN_MAX_CARRIERS` entries and both active counts are at most that. The source indexes those arrays at `r < nof_active_cc` and never checks this bound.
- `post_carrier_metrics` receives `rf` and `sys` but reads neither. `CarrierPoint` and `PostCarrierMetrics` leave them out.
- The `cout` diagnostics (rtue/src/metrics_influxdb.cc:67, 121, 184). They are output only.
- `stop` and the destructor (rtue/src/metrics_influxdb.cc:48-53). They have no behaviour.
- `period_usec` (rtue/src/metrics_influxdb.cc:60). It is accepted as `periodUsec` and unused, as in the source.
- The `<mutex>` and `<pthread.h>` includes (rtue/hdr/metrics_influxdb.h:32-33). Nothing in the exporter is concurrent.
