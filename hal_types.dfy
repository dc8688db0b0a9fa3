/** The C types and the named constants the HAL works with. The constants
    (bandwidths, datarates, status codes, return codes) are defined in the
    HAL header, which is not part of this model: they appear here as
    constructors of datatypes, so they are pairwise distinct and carry no
    numeric value. The constructors BwOther and DrOther each stand for all
    the values of their field that are none of the named constants. */
module HalTypes {

  newtype uint8 = x: int | 0 <= x < 0x100
  newtype uint32 = x: int | 0 <= x < 0x1_0000_0000

  datatype Option<T> = None | Some(value: T)

  /** LGW_HAL_SUCCESS and LGW_HAL_ERROR. */
  datatype HalReturn = HalSuccess | HalError

  /** The LoRa modem bandwidths BW_500KHZ, BW_250KHZ and BW_125KHZ; any
      other value of the bandwidth field (BW_UNDEFINED, the narrow FSK
      bandwidths, any other byte) is BwOther. */
  datatype Bandwidth = Bw500kHz | Bw250kHz | Bw125kHz | BwOther

  /** The LoRa datarates DR_LORA_SF7 to DR_LORA_SF12; any other value of the
      datarate field (DR_UNDEFINED, a multi-SF mask, an FSK bit rate) is
      DrOther. */
  datatype Datarate =
    | DrLoraSf7 | DrLoraSf8 | DrLoraSf9 | DrLoraSf10 | DrLoraSf11 | DrLoraSf12
    | DrOther

  /** Channel bandwidth in Hz of a named LoRa bandwidth. */
  function BandwidthHz(bw: Bandwidth): (hz: Option<nat>)
    ensures hz.Some? <==> !bw.BwOther?
    ensures hz.Some? ==> hz.value in {125_000, 250_000, 500_000}
  {
    match bw
    case Bw500kHz => Some(500_000)
    case Bw250kHz => Some(250_000)
    case Bw125kHz => Some(125_000)
    case BwOther => None
  }

  /** Spreading factor of a named LoRa datarate. */
  function SpreadingFactor(dr: Datarate): (sf: Option<nat>)
    ensures sf.Some? <==> !dr.DrOther?
    ensures sf.Some? ==> 7 <= sf.value <= 12
  {
    match dr
    case DrLoraSf7 => Some(7)
    case DrLoraSf8 => Some(8)
    case DrLoraSf9 => Some(9)
    case DrLoraSf10 => Some(10)
    case DrLoraSf11 => Some(11)
    case DrLoraSf12 => Some(12)
    case DrOther => None
  }

  /** The RX and TX status codes that lgw_status can report. */
  datatype StatusCode =
    | TxStatusUnknown | TxOff | TxFree | TxScheduled | TxEmitting
    | RxStatusUnknown | RxOff | RxOn | RxSuspended

  /* The structures the public functions take. Their layouts are in the HAL
     header; since no function of the core reads a field of any of them,
     each is carried as the bytes of the C struct. */

  /** struct lgw_conf_board_s */
  datatype BoardConf = BoardConf(raw: seq<bv8>)
  /** struct lgw_conf_rxrf_s */
  datatype RxrfConf = RxrfConf(raw: seq<bv8>)
  /** struct lgw_conf_rxif_s */
  datatype RxifConf = RxifConf(raw: seq<bv8>)
  /** struct lgw_tx_gain_lut_s */
  datatype TxGainLut = TxGainLut(raw: seq<bv8>)
  /** struct lgw_pkt_rx_s */
  datatype RxPkt = RxPkt(raw: seq<bv8>)
  /** struct lgw_pkt_tx_s */
  datatype TxPkt = TxPkt(raw: seq<bv8>)
}
