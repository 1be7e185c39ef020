/** The exporter object: its connection and data identifier are fixed at
    construction, and each `set_metrics` call is one tick that posts points to
    the store. Writing a point is modelled by `reply`, the response text the
    store gives for it; `attempts` records every point whose write was
    attempted, in order. */
module Exporter {
  import opened CInts
  import opened Snapshot
  import opened EpochTime
  import opened LineRecords
  import opened Tick

  /** `influxdb_cpp::server_info`: where points go, and `resp_`, the status its
      own construction produced. */
  datatype ServerInfo = ServerInfo(host: string, port: u32, org: string, token: string, bucket: string, resp: int)

  class MetricsInfluxdb {
    const influxServerInfo: ServerInfo
    const dataId: string
    /** Decided once at construction; no operation changes it. */
    const initSuccess: bool
    ghost var attempts: seq<Point>

    /** `resp` is the status the server-info construction reported for the
        given connection parameters. */
    constructor (influxdbUrl: string, influxdbPort: u32, influxdbOrg: string, influxdbToken: string,
                 influxdbBucket: string, ueDataIdentifier: string, resp: int)
      ensures influxServerInfo == ServerInfo(influxdbUrl, influxdbPort, influxdbOrg, influxdbToken, influxdbBucket, resp)
      ensures dataId == ueDataIdentifier
      ensures initSuccess <==> resp == 0
      ensures attempts == []
    {
      influxServerInfo := ServerInfo(influxdbUrl, influxdbPort, influxdbOrg, influxdbToken, influxdbBucket, resp);
      dataId := ueDataIdentifier;
      initSuccess := resp == 0;
      attempts := [];
    }

    /** One tick: `clock` is the single reading of the real-time clock, and
        `periodUsec` is accepted but not used. */
    method SetMetrics(metrics: UeMetrics, periodUsec: u32, clock: Timespec, reply: Point -> string)
      requires WellFormed(metrics)
      modifies this`attempts
      ensures attempts == old(attempts) + TickAttempts(dataId, initSuccess, metrics, EpochTimeNsec(clock), reply)
    {
      if !initSuccess {
        return;
      }
      var currentTimeNsec := EpochTimeNsec(clock);

      var singletonOk := PostSingletonMetrics(metrics, currentTimeNsec, reply);
      if !singletonOk {
        return;
      }

      ghost var beforeLte := attempts;
      ghost var lte := LteCarrierPoints(metrics, dataId, currentTimeNsec);
      for r := 0 to metrics.phy.nofActiveCc
        invariant attempts == beforeLte + lte[..r]
      {
        var _ := PostCarrierMetrics(metrics.phy, metrics.stack.mac, metrics.stack.rrc, r, r,
                                    currentTimeNsec, "lte", reply);
        assert lte[..r + 1] == lte[..r] + [lte[r]];
      }
      assert lte[..metrics.phy.nofActiveCc] == lte;

      // NR carriers: channel indices continue after the LTE ones
      ghost var beforeNr := attempts;
      ghost var nr := NrCarrierPoints(metrics, dataId, currentTimeNsec);
      for r := 0 to metrics.phyNr.nofActiveCc
        invariant attempts == beforeNr + nr[..r]
      {
        var _ := PostCarrierMetrics(metrics.phyNr, metrics.stack.macNr, metrics.stack.rrc,
                                    U32Add(metrics.phy.nofActiveCc, r), r, currentTimeNsec, "nr", reply);
        assert nr[..r + 1] == nr[..r] + [nr[r]];
      }
      assert nr[..metrics.phyNr.nofActiveCc] == nr;
    }

    /** Writes the singleton point; reports failure exactly when the store's
        response text is non-empty. */
    method PostSingletonMetrics(metrics: UeMetrics, currentTimeNsec: u64, reply: Point -> string) returns (ok: bool)
      modifies this`attempts
      ensures attempts == old(attempts) + [SingletonPoint(metrics, dataId, currentTimeNsec)]
      ensures ok <==> reply(SingletonPoint(metrics, dataId, currentTimeNsec)) == []
    {
      var point := SingletonPoint(metrics, dataId, currentTimeNsec);
      var responseText := reply(point);
      attempts := attempts + [point];
      if |responseText| > 0 {
        return false;
      }
      return true;
    }

    /** Writes the point of the carrier with channel index `cc` and radio index
        `r`; reports failure exactly when the store's response text is
        non-empty. */
    method PostCarrierMetrics(phy: PhyMetrics, mac: seq<MacMetrics>, rrc: RrcMetrics, cc: u32, r: nat,
                              currentTimeNsec: u64, carrierType: string, reply: Point -> string) returns (ok: bool)
      requires r < |phy.info| && r < |phy.sync| && r < |mac|
      modifies this`attempts
      ensures attempts == old(attempts) + [CarrierPoint(dataId, phy, mac, rrc, cc, r, currentTimeNsec, carrierType)]
      ensures ok <==> reply(CarrierPoint(dataId, phy, mac, rrc, cc, r, currentTimeNsec, carrierType)) == []
    {
      var point := CarrierPoint(dataId, phy, mac, rrc, cc, r, currentTimeNsec, carrierType);
      var responseText := reply(point);
      attempts := attempts + [point];
      if |responseText| > 0 {
        return false;
      }
      return true;
    }
  }
}
