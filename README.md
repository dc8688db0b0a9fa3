# Virtual LoRa concentrator HAL (loragw_hal) in Dafny

This project models the hardware abstraction layer of a virtual LoRa
concentrator, `src/loragw_hal.c`. The HAL has the public interface of a real
concentrator driver: set the board, RF-chain, IF-chain and TX-gain
configuration, start and stop, receive, send, read the status, abort a
transmission, read the trigger counter and get the version string. In this
repository every entry point is a stub: it ignores its arguments and returns
a constant. The only computations are two macros and a register formula:

- `IF_HZ_TO_REG(f)` turns an IF frequency offset in Hz into register units,
  `(f << 5) / 15625`.
- `SET_PPM_ON(bw, dr)` says when LoRa low-datarate (PPM) compensation is
  needed.
- The SX1255/SX1257 PLL frequency register is derived in a comment as
  `F_rf * 2^bits / 32 MHz`, reduced with the constant `SX125x_32MHz_FRAC`
  (15625).

The model is pure Dafny, one module per part of the file:

- `HalTypes` (hal_types.dfy): the C integer types, and the header's named
  constants as datatype constructors. Bandwidths, datarates, status codes and
  return codes are pairwise distinct and carry no numeric value. The single
  constructor `BwOther` (or `DrOther`) stands for all the values of the field
  that are none of the named constants. The configuration and packet
  structs are carried as their raw bytes, because no code reads their fields.
- `Arith` (arith.dfy): powers of two, C's truncating division, ceiling
  division, and the division laws the proofs use.
- `HalMacros` (hal_macros.dfy): `IF_HZ_TO_REG` and `SET_PPM_ON`.
  - `IF_HZ_TO_REG` has a quantisation bound, monotonicity, symmetry, a range,
    and an inverse with a round trip.
  - `SET_PPM_ON` has its exact truth table. It is also proved equal to an
    independent rule: LoRa low-datarate optimisation is needed when a symbol
    (2^SF / BW seconds) lasts more than 16 ms.
- `Sx125x` (sx125x.dfy): the PLL register. The reduced fraction is proved
  equal to the documented `F_rf * 2^19 / 32e6` (SX1257) and
  `F_rf * 2^20 / 32e6` (SX1255). The model also proves when the result fits
  the 24-bit register, gives an inverse, and proves a round trip.
- `Hal` (hal.dfy): the stub entry points and what each returns. Where the C
  function stores through an out-pointer (`lgw_status`, `lgw_get_trigcnt`), the
  stored value is part of the returned value. The version string is built
  from its build inputs: `LIBLORAGW_VERSION` and the `CFG_SPI_*` flags. The
  model proves the string can be parsed back into those parts.
- `HalSession` (hal_session.dfy): a session is a sequence of calls. The HAL
  keeps no state between calls: a step of a session returns the state it was
  given, by definition, since no entry point writes a global. The model proves
  that each reply then depends only on its own call. Because of that, reordering the calls
  reorders the replies the same way.

The file also defines constants a full HAL would use: `TX_START_DELAY`
(1500 µs), `PLL_LOCK_MAX_ATTEMPTS`, the preamble lengths and the RSSI
calibration values. No entry point reads them, so nothing validates,
schedules, retries or keeps a lifecycle.

## Model

| member | source | states |
|---|---|---|
| HalMacros.IfHzToReg | src/loragw_hal.c:45 | The register is `(f << 5) / 15625` in C semantics, on the domain where the shift does not overflow 32 bits. A non-negative offset gives the floor of 32·f/15625. A negative offset gives the value rounded toward zero. |
| HalMacros.IfHzToRegZero | src/loragw_hal.c:45 | The register of offset 0 is 0. |
| HalMacros.IfHzToRegOdd | src/loragw_hal.c:45 | Negating the offset negates the register. |
| HalMacros.IfHzToRegMonotone | src/loragw_hal.c:45 | The register never decreases as the offset grows, over the whole domain. |
| HalMacros.IfHzToRegRange | src/loragw_hal.c:45 | Every register lies within ±137438. |
| HalMacros.IfHzToRegAsClockFraction | src/loragw_hal.c:45 | For non-negative offsets the register equals f·2^16 / 32 000 000 exactly. |
| HalMacros.IfRegToHz | src/loragw_hal.c:45 | The inverse conversion gives the lowest non-negative offset that maps to register r. |
| HalMacros.IfHzRoundTrip | src/loragw_hal.c:45 | Offset → register → offset never overshoots. It loses less than one register step (15625/32 Hz). |
| HalMacros.SetPpmOn | src/loragw_hal.c:46 | SET_PPM_ON is true exactly for (125 kHz, SF11), (125 kHz, SF12) and (250 kHz, SF12). |
| HalMacros.SetPpmOnOtherBandwidths | src/loragw_hal.c:46 | For any bandwidth other than 125 kHz and 250 kHz, SET_PPM_ON is false for every datarate. |
| HalMacros.SetPpmOnIsLowDatarateRule | src/loragw_hal.c:46 | On the named LoRa bandwidths and spreading factors, SET_PPM_ON is true exactly when 2^SF/BW exceeds 16 ms. |
| Sx125x.PllFractionExact | src/loragw_hal.c:75-88 | 2^bits / 32e6 equals n / SX125x_32MHz_FRAC exactly: n = 256 for SX1257 (19 bits) and 512 for SX1255 (20 bits). |
| Sx125x.PllFractionIrreducible | src/loragw_hal.c:80-88 | The reduced fraction n/15625 is in lowest terms: no divisor above 1 divides both n and 15625. |
| Sx125x.FreqToReg | src/loragw_hal.c:75-88 | F·n/15625 equals the documented F·2^bits/32e6 exactly, and it is the floor of F/F_step. |
| Sx125x.FreqToRegFits24Bits | src/loragw_hal.c:75-88 | The register fits 24 bits exactly when F < 1 024 000 000 Hz (SX1257) or F < 512 000 000 Hz (SX1255). |
| Sx125x.FreqToRegMonotone | src/loragw_hal.c:75-88 | The register never decreases as the frequency grows. |
| Sx125x.RegToFreq | src/loragw_hal.c:75-88 | The inverse gives the lowest frequency whose register is reg. |
| Sx125x.FreqRoundTrip | src/loragw_hal.c:75-88 | Frequency → register → frequency never overshoots. It loses less than one step: 15625/n Hz. |
| Hal.BoardSetconf | src/loragw_hal.c:141-146 | lgw_board_setconf returns LGW_HAL_SUCCESS for every configuration. |
| Hal.RxrfSetconf | src/loragw_hal.c:148-153 | lgw_rxrf_setconf returns LGW_HAL_SUCCESS for every chain index and configuration. |
| Hal.RxifSetconf | src/loragw_hal.c:157-162 | lgw_rxif_setconf returns LGW_HAL_SUCCESS for every chain index and configuration. |
| Hal.TxgainSetconf | src/loragw_hal.c:166-173 | lgw_txgain_setconf returns LGW_HAL_SUCCESS for every table, including a NULL pointer. |
| Hal.Start | src/loragw_hal.c:177-183 | lgw_start returns LGW_HAL_SUCCESS. |
| Hal.Stop | src/loragw_hal.c:187-192 | lgw_stop returns LGW_HAL_SUCCESS. |
| Hal.Receive | src/loragw_hal.c:196-201 | lgw_receive returns 0 packets, which is within 0..max_pkt, for every max_pkt. It leaves the caller's buffer unchanged, and accepts a NULL buffer. |
| Hal.Send | src/loragw_hal.c:205-210 | lgw_send returns LGW_HAL_SUCCESS for every packet. |
| Hal.Status | src/loragw_hal.c:214-221 | lgw_status stores RX_STATUS_UNKNOWN and returns LGW_HAL_SUCCESS for every select, including a TX request. |
| Hal.AbortTx | src/loragw_hal.c:225-232 | lgw_abort_tx returns LGW_HAL_SUCCESS. |
| Hal.GetTrigcnt | src/loragw_hal.c:236-245 | lgw_get_trigcnt stores 0 and returns LGW_HAL_SUCCESS. |
| Hal.SpiOptionString | src/loragw_hal.c:121-127 | CFG_SPI_STR is "native" exactly when CFG_SPI_NATIVE is 1. It is "ftdi" exactly when CFG_SPI_FTDI is 1 and CFG_SPI_NATIVE is not. It is "spi?" exactly when neither flag is 1. |
| Hal.VersionString | src/loragw_hal.c:130 | lgw_version_string is "Version: ", then the library version, then "; Options: ", then CFG_SPI_STR, then ";". |
| Hal.VersionInfo | src/loragw_hal.c:249-251 | lgw_version_info returns lgw_version_string unchanged. If the library version holds no ';', the returned string parses back into the library version and CFG_SPI_STR. |
| Hal.VersionStringRoundTrip | src/loragw_hal.c:130 | If the library version holds no ';', parsing the version string gives back the library version and CFG_SPI_STR. |
| Hal.VersionStringInjective | src/loragw_hal.c:130 | Two builds with the same version string have the same library version and SPI option, whatever characters the library versions hold. |
| HalSession.RunPointwise | src/loragw_hal.c:141-251 | The i-th reply of a session is the reply to the i-th call made on its own. |
| HalSession.RunAppend | src/loragw_hal.c:141-251 | The replies to a + b are the replies to a followed by the replies to b, each run from the start. |
| HalSession.ReorderedRun | src/loragw_hal.c:141-251 | Permuting the calls of a session permutes its replies the same way. |
| HalSession.SessionReplies | src/loragw_hal.c:141-251 | At every position of every session, each call gets its constant reply. Setters, start, stop, send and abort return success. Receive returns 0 with the buffer untouched. Status reports RX_STATUS_UNKNOWN. The trigger counter reads 0. The version string is the build's. |

## Left out

- Debug and trace macros (`DEBUG_MSG`, `DEBUG_PRINTF`, `DEBUG_ARRAY`, `TRACE`, `CHECK_NULL`): they only write to stderr or are never used.
- `lgw_constant_adjust`: it takes nothing, returns nothing and does nothing.
- The unused constants: firmware sizes and versions, metadata counts, AGC commands, and the preamble minimums and defaults. Also `PLL_LOCK_MAX_ATTEMPTS`, `TX_START_DELAY` and the SX125x analog settings. No code reads them.
- `RSSI_MULTI_BIAS`, `RSSI_FSK_BIAS`, `RSSI_FSK_REF` and `RSSI_FSK_SLOPE`: unused, and three are floating point.
- The `ifmod_config` and `rf_rx_bandwidth` tables. Their contents come from macros in the HAL header, and the header is not part of this model.
- The numeric values of the header constants: they are modelled as distinct datatype constructors.
- The contents of `LIBLORAGW_VERSION`: it is an input of the version string, fixed at build time.
- `inc/virtual_pkt_fwd.h`: it holds a macOS `clock_gettime` declaration (OS clock access) and `difftimespec`, which returns a `double` and whose body is not part of this model.
- HalMacros.IfHzToReg: it is modelled only for -2^26 <= f < 2^26, where `f << 5` fits a 32-bit int. A negative f is shifted as two's-complement hardware does (multiplied by 32), although ISO C leaves that shift undefined.
- Hal.Status: the pointer `code` is taken to be valid. Storing through a NULL `code`, which the C code would also do, is not modelled.
- Hal.GetTrigcnt: the pointer `trig_cnt_us` is taken to be valid, for the same reason.
- The macro-hygiene hazards of the two macros: `IF_HZ_TO_REG` parenthesises neither its argument nor its expansion, and `SET_PPM_ON` parenthesises its expansion but uses `bw` and `dr` bare. Nothing in the core expands either macro, so both are modelled as the functions they are meant to be.
