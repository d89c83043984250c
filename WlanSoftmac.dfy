/** `fuchsia_wlan_softmac`: the MAC-layer bridge a WiFi driver offers the
    networking stack. The bridge is a small state machine: it is started and
    stopped, tuned to a channel, joined to and detached from a BSS, and holds
    the installed keys by key index. The receive callback is a closure the
    model cannot call; it is kept as "a callback is installed", and
    `NotifyRx` says which packet it would be handed. */
module WlanSoftmac {
  import opened Common
  import Zx

  /** `MacAddress`, six bytes. */
  type MacAddress = s: seq<u8> | |s| == 6 witness [0, 0, 0, 0, 0, 0]

  /** `ZxResult<T>`: a value, or the failing status. */
  datatype ZxResult<T> = Success(value: T) | Failure(err: Zx.Status)

  datatype WlanBand = TwoGhz | FiveGhz
  datatype WlanPhyType = Dsss | Hr | Ofdm | Erp | Ht | Dmg | Vht | Tvht | S1g | He
  datatype WlanMacRole = Client | Ap | Mesh
  datatype ChannelBandwidth = Cbw20 | Cbw40 | Cbw40Below | Cbw80 | Cbw160 | Cbw80P80
  datatype GuardInterval = LongGi | ShortGi

  /** `WlanChannel`. */
  datatype WlanChannel = WlanChannel(primary: u8, cbw: ChannelBandwidth, secondary80: u8)

  /** `WlanChannel::new`: a 20 MHz channel with no secondary. */
  function NewChannel(primary: u8): (c: WlanChannel)
    ensures c.primary == primary && c.cbw == Cbw20 && c.secondary80 == 0
  {
    WlanChannel(primary, Cbw20, 0)
  }

  /** `WlanChannel::with_bandwidth`. */
  function ChannelWithBandwidth(primary: u8, cbw: ChannelBandwidth): (c: WlanChannel)
    ensures c.primary == primary && c.cbw == cbw && c.secondary80 == 0
  {
    WlanChannel(primary, cbw, 0)
  }

  datatype WlanTxVector = WlanTxVector(phy: WlanPhyType, cbw: ChannelBandwidth, mcsIdx: u8, nss: u8, gi: GuardInterval)

  datatype WlanTxInfo = WlanTxInfo(txFlags: u32, validFields: u32, txVector: Option<WlanTxVector>,
                                   phy: WlanPhyType, cbw: ChannelBandwidth, mcs: u8)

  /** `WlanTxInfo::default`. */
  const DEFAULT_TX_INFO: WlanTxInfo := WlanTxInfo(0, 0, None, Ofdm, Cbw20, 0)

  datatype WlanTxPacket = WlanTxPacket(data: seq<u8>, info: WlanTxInfo)

  /** `WlanRxInfo`; `rssi_dbm` is an `i8` and `snr_dbh` an `i16`. */
  datatype WlanRxInfo = WlanRxInfo(rxFlags: u32, validFields: u32, phy: WlanPhyType, dataRate: u32,
                                   channel: WlanChannel, mcs: u8, rssiDbm: int, snrDbh: int)

  /** `WlanRxInfo::default`: OFDM on channel 1, -50 dBm, SNR 20. */
  const DEFAULT_RX_INFO: WlanRxInfo := WlanRxInfo(0, 0, Ofdm, 0, NewChannel(1), 0, -50, 20)

  datatype WlanRxPacket = WlanRxPacket(data: seq<u8>, info: WlanRxInfo)

  datatype WlanScanType = Active | Passive

  datatype PassiveScanArgs = PassiveScanArgs(channels: seq<u8>, minChannelTimeMs: u32,
                                             maxChannelTimeMs: u32, minHomeTimeMs: u32)

  datatype WlanScanResult = WlanScanResult(bssid: MacAddress, ssid: seq<u8>, rssiDbm: int,
                                           channel: WlanChannel, capabilityInfo: u16, beaconPeriod: u16)

  datatype BssType = Infrastructure | Independent | MeshBss | Personal

  /** `WlanBssConfig`. */
  datatype WlanBssConfig = WlanBssConfig(bssid: MacAddress, bssType: BssType, remote: bool)

  datatype KeyProtection = NoProtection | Rx | Tx | RxTx
  datatype CipherSuiteType =
    | NoCipher | Wep40 | Tkip | Reserved | Ccmp128 | Wep104 | BipCmac128
    | Gcmp128 | Gcmp256 | Ccmp256 | BipGmac128 | BipGmac256 | BipCmac256
  datatype KeyType = Pairwise | Group | Igtk | PeerKey

  /** `WlanKeyConfig`; `key_idx` is the slot the bridge files it under. */
  datatype WlanKeyConfig = WlanKeyConfig(protection: KeyProtection, cipherType: CipherSuiteType,
                                         keyType: KeyType, peerAddr: MacAddress, keyIdx: u8,
                                         key: seq<u8>, rsc: u64)

  datatype HtCapabilities = HtCapabilities(htCapabilityInfo: u16, ampduParams: u8, supportedMcsSet: seq<u8>,
                                           htExtCapabilities: u16, txBeamformingCapabilities: u32,
                                           aselCapabilities: u8)

  datatype VhtCapabilities = VhtCapabilities(vhtCapabilityInfo: u32, supportedVhtMcsAndNssSet: u64)

  /** `WlanBandCapability`. */
  datatype WlanBandCapability = WlanBandCapability(band: WlanBand, basicRates: seq<u8>,
                                                   operatingChannels: seq<u8>, htSupported: bool,
                                                   htCaps: Option<HtCapabilities>, vhtSupported: bool,
                                                   vhtCaps: Option<VhtCapabilities>)

  /** `WlanSoftmacInfo`. */
  datatype WlanSoftmacInfo = WlanSoftmacInfo(staAddr: MacAddress, macRole: WlanMacRole,
                                             supportedPhys: seq<WlanPhyType>, hardwareCapability: u32,
                                             bandCaps: seq<WlanBandCapability>)

  datatype DataPlaneType = Ethernet | Generic

  /** `MacSublayerSupport`, flattened: rate-selection offload, data plane
      type, and the two device flags. */
  datatype MacSublayerSupport = MacSublayerSupport(rateSelectionOffload: bool, dataPlaneType: DataPlaneType,
                                                   isSynthetic: bool, txStatusReportSupported: bool)

  datatype AssociationContext = AssociationContext(peerAddr: MacAddress, aid: u16, htCaps: Option<HtCapabilities>,
                                                   vhtCaps: Option<VhtCapabilities>, rates: seq<u8>)

  datatype WmmAcParams = WmmAcParams(ecwMin: u8, ecwMax: u8, aifsn: u8, txopLimit: u16, acm: bool)

  datatype WmmParameters = WmmParameters(apWmmPs: bool, acBe: WmmAcParams, acBk: WmmAcParams,
                                         acVi: WmmAcParams, acVo: WmmAcParams)

  /** The 2.4 GHz operating channels the bridge advertises, `1..=13`. */
  const CHANNELS_1_TO_13: seq<u8> := [1, 2, 3, 4, 5, 6, 7, 8, 9, 10, 11, 12, 13]

  /** The single 2.4 GHz band capability `WlanSoftmacBridge::new` builds. */
  const DEFAULT_BAND_CAP: WlanBandCapability :=
    WlanBandCapability(
      TwoGhz, [2, 4, 11, 22, 12, 18, 24, 36, 48, 72, 96, 108], CHANNELS_1_TO_13, true,
      Some(HtCapabilities(0x016e, 0x17, [0xff, 0, 0, 0, 0, 0, 0, 0, 0, 0, 0, 0, 0, 0, 0, 0], 0, 0, 0)),
      false, None)

  /** The device information `WlanSoftmacBridge::new` records: a client
      supporting OFDM and HT on the one 2.4 GHz band. */
  function DefaultInfo(staAddr: MacAddress): (info: WlanSoftmacInfo)
    ensures info.staAddr == staAddr && info.macRole == Client
    ensures info.supportedPhys == [Ofdm, Ht] && info.hardwareCapability == 0
    ensures info.bandCaps == [DEFAULT_BAND_CAP]
  {
    WlanSoftmacInfo(staAddr, Client, [Ofdm, Ht], 0, [DEFAULT_BAND_CAP])
  }

  /** The channels `set_channel` accepts: every band's operating channels,
      concatenated in band order. */
  function ValidChannels(caps: seq<WlanBandCapability>): (cs: seq<u8>)
    ensures forall c :: c in cs <==> exists i :: 0 <= i < |caps| && c in caps[i].operatingChannels
  {
    if caps == [] then []
    else
      var rest := ValidChannels(caps[1..]);
      assert forall i :: 1 <= i < |caps| ==> caps[i] == caps[1..][i - 1];
      caps[0].operatingChannels + rest
  }

  /** A bridge built by `new` accepts exactly the channels 1 to 13. */
  lemma DefaultChannels(staAddr: MacAddress, c: u8)
    ensures c in ValidChannels(DefaultInfo(staAddr).bandCaps) <==> 1 <= c <= 13
  {
    var caps := DefaultInfo(staAddr).bandCaps;
    assert caps[0].operatingChannels == CHANNELS_1_TO_13;
    if 1 <= c <= 13 {
      assert CHANNELS_1_TO_13[c - 1] == c;
    }
  }

  /** `query_mac_sublayer_support`: no rate-selection offload, an Ethernet
      data plane, a real (not synthetic) device reporting TX status. */
  function QueryMacSublayerSupport(): (s: MacSublayerSupport)
    ensures !s.rateSelectionOffload && s.dataPlaneType == Ethernet
    ensures !s.isSynthetic && s.txStatusReportSupported
  {
    MacSublayerSupport(false, Ethernet, false, true)
  }

  /** `WlanSoftmacBridge`. */
  class Bridge {
    /** `info`: fixed when the bridge is built. */
    const info: WlanSoftmacInfo
    var started: bool
    var currentChannel: Option<WlanChannel>
    var currentBss: Option<WlanBssConfig>
    var installedKeys: map<u8, WlanKeyConfig>
    var scanResults: seq<WlanScanResult>
    /** Whether `rx_callback` holds a closure. */
    var hasRxCallback: bool

    /** The bridge's invariant: a callback is installed exactly while the
        bridge is started, a started bridge has a channel, and any channel
        it holds is one of the advertised operating channels. */
    ghost predicate Valid()
      reads this
    {
      && 1 in ValidChannels(info.bandCaps)
      && (hasRxCallback <==> started)
      && (started ==> currentChannel.Some?)
      && (currentChannel.Some? ==> currentChannel.value.primary in ValidChannels(info.bandCaps))
    }

    /** `WlanSoftmacBridge::new`: stopped, with no channel, BSS, keys, scan
        results or callback. */
    constructor (staAddr: MacAddress)
      ensures Valid()
      ensures info == DefaultInfo(staAddr)
      ensures !started && currentChannel == None && currentBss == None
      ensures installedKeys == map[] && scanResults == [] && !hasRxCallback
    {
      info := DefaultInfo(staAddr);
      started := false;
      currentChannel := None;
      currentBss := None;
      installedKeys := map[];
      scanResults := [];
      hasRxCallback := false;
      new;
      DefaultChannels(staAddr, 1);
    }

    /** `query`: always succeeds with the device information. */
    function Query(): (r: ZxResult<WlanSoftmacInfo>)
      reads this
      ensures r.Success? && r.value == info
    {
      Success(info)
    }

    /** `get_channel`. */
    function GetChannel(): (c: Option<WlanChannel>)
      reads this
      ensures Valid() && started ==> c.Some?
    {
      currentChannel
    }

    /** `is_started`. */
    function IsStarted(): (b: bool)
      reads this
      ensures Valid() ==> (b <==> hasRxCallback)
    {
      started
    }

    /** `start`: BAD_STATE, changing nothing, if already started; otherwise
        installs the callback, starts, and tunes to channel 1 (20 MHz),
        which it returns. */
    method Start() returns (r: ZxResult<WlanChannel>)
      requires Valid()
      modifies this
      ensures Valid()
      ensures old(started) ==> r == Failure(Zx.BadState) && unchanged(this)
      ensures !old(started) ==>
        && r == Success(NewChannel(1)) && started && hasRxCallback
        && currentChannel == Some(NewChannel(1))
        && currentBss == old(currentBss) && installedKeys == old(installedKeys)
        && scanResults == old(scanResults)
    {
      if started {
        return Failure(Zx.BadState);
      }
      hasRxCallback := true;
      started := true;
      var channel := NewChannel(1);
      currentChannel := Some(channel);
      r := Success(channel);
    }

    /** `stop`: BAD_STATE unless started; otherwise stops and drops the
        callback. The channel, BSS and keys are kept. */
    method Stop() returns (r: ZxResult<()>)
      requires Valid()
      modifies this
      ensures Valid()
      ensures !old(started) ==> r == Failure(Zx.BadState) && unchanged(this)
      ensures old(started) ==>
        && r == Success(()) && !started && !hasRxCallback
        && currentChannel == old(currentChannel) && currentBss == old(currentBss)
        && installedKeys == old(installedKeys) && scanResults == old(scanResults)
    {
      if !started {
        return Failure(Zx.BadState);
      }
      started := false;
      hasRxCallback := false;
      r := Success(());
    }

    /** `set_channel`: BAD_STATE unless started, INVALID_ARGS unless the
        primary channel is one some band operates on; only success changes
        the channel, and nothing else changes. */
    method SetChannel(channel: WlanChannel) returns (r: ZxResult<()>)
      requires Valid()
      modifies this
      ensures Valid()
      ensures !old(started) ==> r == Failure(Zx.BadState)
      ensures old(started) && channel.primary !in ValidChannels(info.bandCaps) ==> r == Failure(Zx.InvalidArgs)
      ensures r.Success? <==> old(started) && channel.primary in ValidChannels(info.bandCaps)
      ensures r.Success? ==> currentChannel == Some(channel)
      ensures r.Failure? ==> currentChannel == old(currentChannel)
      ensures started == old(started) && hasRxCallback == old(hasRxCallback)
      ensures currentBss == old(currentBss) && installedKeys == old(installedKeys)
      ensures scanResults == old(scanResults)
    {
      if !started {
        return Failure(Zx.BadState);
      }
      var validChannels := ValidChannels(info.bandCaps);
      if channel.primary !in validChannels {
        return Failure(Zx.InvalidArgs);
      }
      currentChannel := Some(channel);
      r := Success(());
    }

    /** `join_bss`: BAD_STATE unless started; otherwise records the BSS
        (replacing any earlier one). */
    method JoinBss(config: WlanBssConfig) returns (r: ZxResult<()>)
      requires Valid()
      modifies this
      ensures Valid()
      ensures !old(started) ==> r == Failure(Zx.BadState) && unchanged(this)
      ensures old(started) ==> r == Success(()) && currentBss == Some(config)
      ensures old(started) ==>
        && started && hasRxCallback == old(hasRxCallback) && currentChannel == old(currentChannel)
        && installedKeys == old(installedKeys) && scanResults == old(scanResults)
    {
      if !started {
        return Failure(Zx.BadState);
      }
      currentBss := Some(config);
      r := Success(());
    }

    /** `leave_bss`: BAD_STATE when no BSS is recorded (whether or not the
        bridge is started); otherwise forgets the BSS and every installed
        key. */
    method LeaveBss() returns (r: ZxResult<()>)
      requires Valid()
      modifies this
      ensures Valid()
      ensures old(currentBss).None? ==> r == Failure(Zx.BadState) && unchanged(this)
      ensures old(currentBss).Some? ==>
        && r == Success(()) && currentBss == None && installedKeys == map[]
        && started == old(started) && hasRxCallback == old(hasRxCallback)
        && currentChannel == old(currentChannel) && scanResults == old(scanResults)
    {
      if currentBss.None? {
        return Failure(Zx.BadState);
      }
      currentBss := None;
      installedKeys := map[];
      r := Success(());
    }

    /** `install_key`: BAD_STATE unless started; otherwise files the key
        under its `key_idx`, replacing a key already there and leaving the
        other slots alone. */
    method InstallKey(key: WlanKeyConfig) returns (r: ZxResult<()>)
      requires Valid()
      modifies this
      ensures Valid()
      ensures !old(started) ==> r == Failure(Zx.BadState) && unchanged(this)
      ensures old(started) ==>
        && r == Success(())
        && key.keyIdx in installedKeys && installedKeys[key.keyIdx] == key
        && installedKeys.Keys == old(installedKeys).Keys + {key.keyIdx}
        && (forall k :: k in old(installedKeys) && k != key.keyIdx ==> installedKeys[k] == old(installedKeys)[k])
      ensures old(started) ==>
        && started && hasRxCallback == old(hasRxCallback) && currentChannel == old(currentChannel)
        && currentBss == old(currentBss) && scanResults == old(scanResults)
    {
      if !started {
        return Failure(Zx.BadState);
      }
      installedKeys := installedKeys[key.keyIdx := key];
      r := Success(());
    }

    /** `start_passive_scan`: BAD_STATE unless started; otherwise clears the
        previous scan results and returns scan id 1. */
    method StartPassiveScan(args: PassiveScanArgs) returns (r: ZxResult<u64>)
      requires Valid()
      modifies this
      ensures Valid()
      ensures !old(started) ==> r == Failure(Zx.BadState) && unchanged(this)
      ensures old(started) ==>
        && r == Success(1) && scanResults == []
        && started && hasRxCallback == old(hasRxCallback) && currentChannel == old(currentChannel)
        && currentBss == old(currentBss) && installedKeys == old(installedKeys)
    {
      if !started {
        return Failure(Zx.BadState);
      }
      scanResults := [];
      r := Success(1);
    }

    /** `cancel_scan`, `queue_tx`, `configure_association`: BAD_STATE unless
        started, otherwise accepted; none changes the bridge. */
    function StartedGate(): (r: ZxResult<()>)
      reads this
      ensures r.Success? <==> started
      ensures r.Failure? ==> r.err == Zx.BadState
    {
      if !started then Failure(Zx.BadState) else Success(())
    }

    /** `cancel_scan`. */
    function CancelScan(scanId: u64): (r: ZxResult<()>)
      reads this
      ensures r.Success? <==> started
      ensures r.Failure? ==> r.err == Zx.BadState
    {
      StartedGate()
    }

    /** `queue_tx`: the packet is accepted but not transmitted. */
    function QueueTx(packet: WlanTxPacket): (r: ZxResult<()>)
      reads this
      ensures r.Success? <==> started
      ensures r.Failure? ==> r.err == Zx.BadState
    {
      StartedGate()
    }

    /** `configure_association`. */
    function ConfigureAssociation(ctx: AssociationContext): (r: ZxResult<()>)
      reads this
      ensures r.Success? <==> started
      ensures r.Failure? ==> r.err == Zx.BadState
    {
      StartedGate()
    }

    /** `enable_beaconing`: NOT_SUPPORTED unless the device's role is AP,
        whether or not it is started. */
    function EnableBeaconing(beacon: WlanTxPacket): (r: ZxResult<()>)
      reads this
      ensures r.Success? <==> info.macRole == Ap
      ensures r.Failure? ==> r.err == Zx.NotSupported
    {
      if info.macRole != Ap then Failure(Zx.NotSupported) else Success(())
    }

    /** `configure_bss`: records the BSS with no check that the bridge is
        started. */
    method ConfigureBss(config: WlanBssConfig) returns (r: ZxResult<()>)
      requires Valid()
      modifies this
      ensures Valid()
      ensures r == Success(()) && currentBss == Some(config)
      ensures started == old(started) && hasRxCallback == old(hasRxCallback)
      ensures currentChannel == old(currentChannel) && installedKeys == old(installedKeys)
      ensures scanResults == old(scanResults)
    {
      currentBss := Some(config);
      r := Success(());
    }

    /** `notify_rx`: the packet the installed callback is handed, if a
        callback is installed; on a valid bridge that is exactly while it is
        started. */
    function NotifyRx(packet: WlanRxPacket): (handed: Option<WlanRxPacket>)
      reads this
      ensures handed.Some? <==> hasRxCallback
      ensures handed.Some? ==> handed.value == packet
      ensures Valid() ==> (handed.Some? <==> started)
    {
      if hasRxCallback then Some(packet) else None
    }
  }

  /** `disable_beaconing`, `clear_association` and `update_wmm_parameters`
      always succeed and change nothing. */
  function AlwaysOk(): (r: ZxResult<()>)
    ensures r.Success?
  {
    Success(())
  }

  // ---------------------------------------------------------------- scenarios

  /** A new bridge is not started; `start` starts it on channel 1, and
      `stop` stops it again. */
  method StartStopScenario(mac: MacAddress) returns (before: bool, primary: u8, during: bool, after: bool)
    ensures !before && primary == 1 && during && !after
  {
    var bridge := new Bridge(mac);
    before := bridge.IsStarted();
    var ch := bridge.Start();
    primary := ch.value.primary;
    during := bridge.IsStarted();
    var stopped := bridge.Stop();
    after := bridge.IsStarted();
  }

  /** A second `start` is refused, and so is a `stop` of a stopped bridge. */
  method DoubleStartScenario(mac: MacAddress) returns (second: ZxResult<WlanChannel>, stopAgain: ZxResult<()>)
    ensures second == Failure(Zx.BadState) && stopAgain == Failure(Zx.BadState)
  {
    var bridge := new Bridge(mac);
    var first := bridge.Start();
    second := bridge.Start();
    var stop := bridge.Stop();
    stopAgain := bridge.Stop();
  }

  /** Channel 6 is accepted; channel 50 is refused and channel 6 stays. */
  method SetChannelScenario(mac: MacAddress) returns (ok: ZxResult<()>, bad: ZxResult<()>, primary: u8)
    ensures ok.Success? && bad == Failure(Zx.InvalidArgs) && primary == 6
  {
    var bridge := new Bridge(mac);
    var ch := bridge.Start();
    DefaultChannels(mac, 6);
    DefaultChannels(mac, 50);
    ok := bridge.SetChannel(NewChannel(6));
    bad := bridge.SetChannel(NewChannel(50));
    primary := bridge.GetChannel().value.primary;
  }

  /** Joining and leaving a BSS succeeds once; the keys installed while
      joined are gone, and a second `leave_bss` is refused. */
  method JoinLeaveScenario(mac: MacAddress, bss: WlanBssConfig, key: WlanKeyConfig)
    returns (left: ZxResult<()>, keys: nat, leftAgain: ZxResult<()>)
    ensures left.Success? && keys == 0 && leftAgain == Failure(Zx.BadState)
  {
    var bridge := new Bridge(mac);
    var ch := bridge.Start();
    var joined := bridge.JoinBss(bss);
    var installed := bridge.InstallKey(key);
    left := bridge.LeaveBss();
    keys := |bridge.installedKeys|;
    leftAgain := bridge.LeaveBss();
  }

  /** Installing two keys under the same index keeps only the second; a
      stopped bridge refuses keys. */
  method InstallKeyScenario(mac: MacAddress, k1: WlanKeyConfig, k2: WlanKeyConfig)
    returns (refused: ZxResult<()>, count: nat, kept: WlanKeyConfig)
    requires k1.keyIdx == k2.keyIdx
    ensures refused == Failure(Zx.BadState) && count == 1 && kept == k2
  {
    var bridge := new Bridge(mac);
    refused := bridge.InstallKey(k1);
    var ch := bridge.Start();
    var a := bridge.InstallKey(k1);
    var b := bridge.InstallKey(k2);
    count := |bridge.installedKeys|;
    assert bridge.installedKeys.Keys == {k2.keyIdx};
    kept := bridge.installedKeys[k2.keyIdx];
  }

  /** A bridge built by `new` is a client, so beaconing is never
      supported, started or not. */
  method BeaconingScenario(mac: MacAddress, beacon: WlanTxPacket)
    returns (stopped: ZxResult<()>, running: ZxResult<()>)
    ensures stopped == Failure(Zx.NotSupported) && running == Failure(Zx.NotSupported)
  {
    var bridge := new Bridge(mac);
    stopped := bridge.EnableBeaconing(beacon);
    var ch := bridge.Start();
    running := bridge.EnableBeaconing(beacon);
  }

  /** `configure_bss` needs no start, so a stopped bridge can then
      `leave_bss` successfully. */
  method ConfigureThenLeaveScenario(mac: MacAddress, bss: WlanBssConfig) returns (left: ZxResult<()>, started: bool)
    ensures left.Success? && !started
  {
    var bridge := new Bridge(mac);
    var c := bridge.ConfigureBss(bss);
    left := bridge.LeaveBss();
    started := bridge.IsStarted();
  }
}
