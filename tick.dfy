/** What one call of `set_metrics` attempts to post, as a function of the
    exporter's two constant fields, the snapshot, the tick's timestamp and the
    store's reply to each point; and what that sequence of attempts promises. */
module Tick {
  import opened CInts
  import opened Decimal
  import opened Snapshot
  import opened LineRecords

  /** A write reports success exactly when the store's response text is empty. */
  predicate PostSucceeded(responseText: string) {
    !(|responseText| > 0)
  }

  /** The LTE carrier points, radio index `r` ascending, each tagged with
      channel index `r` and type "lte". */
  function LteCarrierPoints(m: UeMetrics, dataId: string, t: u64): seq<Point>
    requires WellFormed(m)
  {
    seq(m.phy.nofActiveCc, r requires 0 <= r < m.phy.nofActiveCc =>
      CarrierPoint(dataId, m.phy, m.stack.mac, m.stack.rrc, r, r, t, "lte"))
  }

  /** The NR carrier points, radio index `r` ascending, each tagged with channel
      index `phy.nof_active_cc + r` (in `uint32_t` arithmetic) and type "nr". */
  function NrCarrierPoints(m: UeMetrics, dataId: string, t: u64): seq<Point>
    requires WellFormed(m)
  {
    seq(m.phyNr.nofActiveCc, r requires 0 <= r < m.phyNr.nofActiveCc =>
      CarrierPoint(dataId, m.phyNr, m.stack.macNr, m.stack.rrc, U32Add(m.phy.nofActiveCc, r), r, t, "nr"))
  }

  /** The points one tick attempts to post, in the order it posts them. */
  function TickAttempts(dataId: string, initSuccess: bool, m: UeMetrics, t: u64, reply: Point -> string): seq<Point>
    requires WellFormed(m)
  {
    var singleton := SingletonPoint(m, dataId, t);
    if !initSuccess then []
    else if !PostSucceeded(reply(singleton)) then [singleton]
    else [singleton] + LteCarrierPoints(m, dataId, t) + NrCarrierPoints(m, dataId, t)
  }

  /** An exporter whose construction failed posts nothing. */
  lemma DisabledTickPostsNothing(dataId: string, m: UeMetrics, t: u64, reply: Point -> string)
    requires WellFormed(m)
    ensures TickAttempts(dataId, false, m, t, reply) == []
  {
  }

  /** A failed singleton write ends the tick: it was the only attempt. */
  lemma SingletonFailureAbortsTick(dataId: string, m: UeMetrics, t: u64, reply: Point -> string)
    requires WellFormed(m)
    requires !PostSucceeded(reply(SingletonPoint(m, dataId, t)))
    ensures TickAttempts(dataId, true, m, t, reply) == [SingletonPoint(m, dataId, t)]
  {
  }

  /** After a successful singleton write the attempts are, in this order: the
      singleton; the LTE carriers `r = 0 .. phy.nof_active_cc - 1`, each with
      channel index `r`, radio index `r` and type "lte"; then the NR carriers
      `r = 0 .. phy_nr.nof_active_cc - 1`, each with channel index
      `phy.nof_active_cc + r`, radio index `r` and type "nr". */
  lemma TickAttemptOrder(dataId: string, m: UeMetrics, t: u64, reply: Point -> string)
    requires WellFormed(m)
    requires PostSucceeded(reply(SingletonPoint(m, dataId, t)))
    ensures var a := TickAttempts(dataId, true, m, t, reply);
      && |a| == 1 + m.phy.nofActiveCc + m.phyNr.nofActiveCc
      && a[0] == SingletonPoint(m, dataId, t)
      && (forall r :: 0 <= r < m.phy.nofActiveCc ==>
            a[1 + r] == CarrierPoint(dataId, m.phy, m.stack.mac, m.stack.rrc, r, r, t, "lte"))
      // the NR carrier of radio index r = i - 1 - phy.nof_active_cc sits at position i
      && (forall i :: 1 + m.phy.nofActiveCc <= i < |a| ==>
            a[i] == CarrierPoint(dataId, m.phyNr, m.stack.macNr, m.stack.rrc,
                                 i - 1, i - 1 - m.phy.nofActiveCc, t, "nr"))
  {
  }

  /** Whether a carrier write fails never changes what is attempted: two stores
      that agree on the singleton's outcome see the same attempts. */
  lemma CarrierOutcomesIrrelevant(dataId: string, initSuccess: bool, m: UeMetrics, t: u64,
                                  reply1: Point -> string, reply2: Point -> string)
    requires WellFormed(m)
    requires PostSucceeded(reply1(SingletonPoint(m, dataId, t))) == PostSucceeded(reply2(SingletonPoint(m, dataId, t)))
    ensures TickAttempts(dataId, initSuccess, m, t, reply1) == TickAttempts(dataId, initSuccess, m, t, reply2)
  {
  }

  /** The number of attempts as a function of the two active-carrier counts
      and the singleton's outcome alone. */
  lemma TickAttemptCount(dataId: string, initSuccess: bool, m: UeMetrics, t: u64, reply: Point -> string)
    requires WellFormed(m)
    ensures |TickAttempts(dataId, initSuccess, m, t, reply)|
            == if !initSuccess then 0
               else if !PostSucceeded(reply(SingletonPoint(m, dataId, t))) then 1
               else 1 + m.phy.nofActiveCc + m.phyNr.nofActiveCc
  {
  }

  /** Every point attempted in one tick carries the tick's single timestamp. */
  lemma TickSharedTimestamp(dataId: string, initSuccess: bool, m: UeMetrics, t: u64, reply: Point -> string)
    requires WellFormed(m)
    ensures forall p :: p in TickAttempts(dataId, initSuccess, m, t, reply) ==> p.timestampNs == t
  {
  }

  /** The carrier at attempt position `i` is tagged with channel index `i - 1`:
      within a tick the channel indices run exactly over
      `0 .. phy.nof_active_cc + phy_nr.nof_active_cc - 1`, in ascending order,
      and the singleton carries none. */
  lemma ChannelIndicesEnumerate(dataId: string, initSuccess: bool, m: UeMetrics, t: u64, reply: Point -> string)
    requires WellFormed(m)
    ensures var a := TickAttempts(dataId, initSuccess, m, t, reply);
      && (0 < |a| ==> TagValue(a[0].tags, "carrier_channel_index") == None)
      && (forall i :: 1 <= i < |a| ==> TagValue(a[i].tags, "carrier_channel_index") == Some(DecimalString(i - 1)))
  {
    var a := TickAttempts(dataId, initSuccess, m, t, reply);
    if 0 < |a| {
      SingletonTagsExact(m, dataId, t);
    }
    if 1 < |a| {
      TickAttemptOrder(dataId, m, t, reply);
      forall i | 1 <= i < |a|
        ensures TagValue(a[i].tags, "carrier_channel_index") == Some(DecimalString(i - 1))
      {
        if i <= m.phy.nofActiveCc {
          CarrierTagsExact(dataId, m.phy, m.stack.mac, m.stack.rrc, i - 1, i - 1, t, "lte");
        } else {
          CarrierTagsExact(dataId, m.phyNr, m.stack.macNr, m.stack.rrc, i - 1, i - 1 - m.phy.nofActiveCc, t, "nr");
        }
      }
    }
  }

  /** No two carrier points of one tick share a channel index tag. */
  lemma ChannelIndicesDistinct(dataId: string, initSuccess: bool, m: UeMetrics, t: u64, reply: Point -> string)
    requires WellFormed(m)
    ensures var a := TickAttempts(dataId, initSuccess, m, t, reply);
      forall i, j :: 1 <= i < j < |a| ==>
        TagValue(a[i].tags, "carrier_channel_index") != TagValue(a[j].tags, "carrier_channel_index")
  {
    var a := TickAttempts(dataId, initSuccess, m, t, reply);
    ChannelIndicesEnumerate(dataId, initSuccess, m, t, reply);
    forall i, j | 1 <= i < j < |a|
      ensures TagValue(a[i].tags, "carrier_channel_index") != TagValue(a[j].tags, "carrier_channel_index")
    {
      DecimalStringInjective(i - 1, j - 1);
    }
  }

  /** The points of one tick are pairwise distinct, so a store that answers each
      point by a function of the point can produce any pattern of per-write
      outcomes within a tick. */
  lemma TickPointsDistinct(dataId: string, initSuccess: bool, m: UeMetrics, t: u64, reply: Point -> string)
    requires WellFormed(m)
    ensures var a := TickAttempts(dataId, initSuccess, m, t, reply);
      forall i, j :: 0 <= i < j < |a| ==> a[i] != a[j]
  {
    var a := TickAttempts(dataId, initSuccess, m, t, reply);
    ChannelIndicesEnumerate(dataId, initSuccess, m, t, reply);
    ChannelIndicesDistinct(dataId, initSuccess, m, t, reply);
    forall i, j | 0 <= i < j < |a|
      ensures a[i] != a[j]
    {
      if i == 0 {
        assert TagValue(a[i].tags, "carrier_channel_index") != TagValue(a[j].tags, "carrier_channel_index");
      }
    }
  }

  /** Within a tick, every carrier point reads the per-carrier arrays at its
      radio index, not at its channel index: the LTE carrier at position `i`
      reads entry `i - 1`, the NR carrier at position `i` reads entry
      `i - 1 - phy.nof_active_cc` of the NR arrays. */
  lemma TickCarriersReadRadioIndex(dataId: string, m: UeMetrics, t: u64, reply: Point -> string)
    requires WellFormed(m)
    requires PostSucceeded(reply(SingletonPoint(m, dataId, t)))
    ensures var a := TickAttempts(dataId, true, m, t, reply);
      && (forall i :: 1 <= i <= m.phy.nofActiveCc ==>
            && FieldValue(a[i].intFields, "dl_earfcn") == Some(m.phy.info[i - 1].dlEarfcn)
            && FieldValue(a[i].intFields, "rx_pkts") == Some(m.stack.mac[i - 1].rxPkts))
      && (forall i :: 1 + m.phy.nofActiveCc <= i < |a| ==>
            && FieldValue(a[i].intFields, "dl_earfcn") == Some(m.phyNr.info[i - 1 - m.phy.nofActiveCc].dlEarfcn)
            && FieldValue(a[i].intFields, "rx_pkts") == Some(m.stack.macNr[i - 1 - m.phy.nofActiveCc].rxPkts))
  {
    var a := TickAttempts(dataId, true, m, t, reply);
    TickAttemptOrder(dataId, m, t, reply);
    forall i | 1 <= i < |a|
      ensures i <= m.phy.nofActiveCc ==>
            && FieldValue(a[i].intFields, "dl_earfcn") == Some(m.phy.info[i - 1].dlEarfcn)
            && FieldValue(a[i].intFields, "rx_pkts") == Some(m.stack.mac[i - 1].rxPkts)
      ensures m.phy.nofActiveCc < i ==>
            && FieldValue(a[i].intFields, "dl_earfcn") == Some(m.phyNr.info[i - 1 - m.phy.nofActiveCc].dlEarfcn)
            && FieldValue(a[i].intFields, "rx_pkts") == Some(m.stack.macNr[i - 1 - m.phy.nofActiveCc].rxPkts)
    {
      if i <= m.phy.nofActiveCc {
        CarrierFieldsAtRadioIndex(dataId, m.phy, m.stack.mac, m.stack.rrc, i - 1, i - 1, t, "lte");
      } else {
        CarrierFieldsAtRadioIndex(dataId, m.phyNr, m.stack.macNr, m.stack.rrc,
                                  i - 1, i - 1 - m.phy.nofActiveCc, t, "nr");
      }
    }
  }
}
