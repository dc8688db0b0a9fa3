/** The public entry points of the HAL. Every one of them is a stub that
    ignores its arguments and returns a constant; lgw_status and
    lgw_get_trigcnt also store a constant through their out-pointer, which
    is returned here beside the return code. */
module Hal {
  import opened HalTypes

  /** lgw_board_setconf: accepts any board configuration. */
  function BoardSetconf(conf: BoardConf): (ret: HalReturn)
    ensures ret == HalSuccess
  {
    HalSuccess
  }

  /** lgw_rxrf_setconf: accepts any RF chain index and configuration. */
  function RxrfSetconf(rfChain: uint8, conf: RxrfConf): (ret: HalReturn)
    ensures ret == HalSuccess
  {
    HalSuccess
  }

  /** lgw_rxif_setconf: accepts any IF chain index and configuration. */
  function RxifSetconf(ifChain: uint8, conf: RxifConf): (ret: HalReturn)
    ensures ret == HalSuccess
  {
    HalSuccess
  }

  /** lgw_txgain_setconf: accepts any gain table, a NULL pointer (None)
      included. */
  function TxgainSetconf(conf: Option<TxGainLut>): (ret: HalReturn)
    ensures ret == HalSuccess
  {
    HalSuccess
  }

  /** lgw_start */
  function Start(): (ret: HalReturn)
    ensures ret == HalSuccess
  {
    HalSuccess
  }

  /** lgw_stop */
  function Stop(): (ret: HalReturn)
    ensures ret == HalSuccess
  {
    HalSuccess
  }

  /** What lgw_receive gives back: the number of packets written (the return
      value) and the caller's packet buffer afterwards. */
  datatype ReceiveReply = ReceiveReply(nbPkt: int, pktData: Option<seq<RxPkt>>)

  /** lgw_receive: never fails (the count is not negative), never delivers
      more than max_pkt packets, and in fact delivers none: the count is 0
      and the caller's buffer is left as it was. The buffer is never
      dereferenced, so a NULL pointer (None) is accepted too. */
  function Receive(maxPkt: uint8, pktData: Option<seq<RxPkt>>): (r: ReceiveReply)
    ensures 0 <= r.nbPkt <= maxPkt as int
    ensures r.nbPkt == 0
    ensures r.pktData == pktData
  {
    ReceiveReply(0, pktData)
  }

  /** lgw_send: accepts any packet. */
  function Send(pkt: TxPkt): (ret: HalReturn)
    ensures ret == HalSuccess
  {
    HalSuccess
  }

  /** What lgw_status gives back: the return code and the value stored
      through `code`. */
  datatype StatusReply = StatusReply(ret: HalReturn, code: StatusCode)

  /** lgw_status: succeeds and stores RX_STATUS_UNKNOWN for every `select`,
      a request for the TX status included. */
  function Status(select: uint8): (r: StatusReply)
    ensures r.ret == HalSuccess
    ensures r.code == RxStatusUnknown
  {
    StatusReply(HalSuccess, RxStatusUnknown)
  }

  /** lgw_abort_tx */
  function AbortTx(): (ret: HalReturn)
    ensures ret == HalSuccess
  {
    HalSuccess
  }

  /** What lgw_get_trigcnt gives back: the return code and the value stored
      through `trig_cnt_us`. */
  datatype TrigcntReply = TrigcntReply(ret: HalReturn, trigCntUs: uint32)

  /** lgw_get_trigcnt: succeeds and stores a counter of 0. */
  function GetTrigcnt(): (r: TrigcntReply)
    ensures r.ret == HalSuccess
    ensures r.trigCntUs == 0
  {
    TrigcntReply(HalSuccess, 0)
  }

  /** The build settings the version string is made from: the library
      version LIBLORAGW_VERSION and whether CFG_SPI_NATIVE and CFG_SPI_FTDI
      are defined as 1. */
  datatype BuildOptions = BuildOptions(libVersion: string, cfgSpiNative: bool, cfgSpiFtdi: bool)

  /** CFG_SPI_STR: "native" when CFG_SPI_NATIVE is 1, otherwise "ftdi" when
      CFG_SPI_FTDI is 1, otherwise "spi?". */
  function SpiOptionString(build: BuildOptions): (s: string)
    ensures s == "native" <==> build.cfgSpiNative
    ensures s == "ftdi" <==> !build.cfgSpiNative && build.cfgSpiFtdi
    ensures s == "spi?" <==> !build.cfgSpiNative && !build.cfgSpiFtdi
  {
    if build.cfgSpiNative then "native"
    else if build.cfgSpiFtdi then "ftdi"
    else "spi?"
  }

  const VersionPrefix: string := "Version: "
  const OptionsInfix: string := "; Options: "

  /** lgw_version_string, fixed when the library is compiled: "Version: ",
      the library version, "; Options: ", CFG_SPI_STR and a closing ';'. */
  function VersionString(build: BuildOptions): (s: string)
    ensures |s| == |VersionPrefix| + |build.libVersion| + |OptionsInfix| + |SpiOptionString(build)| + 1
    ensures s[..|VersionPrefix|] == VersionPrefix
    ensures s[|VersionPrefix|..|VersionPrefix| + |build.libVersion|] == build.libVersion
    ensures s[|VersionPrefix| + |build.libVersion|..|s| - 1] == OptionsInfix + SpiOptionString(build)
    ensures s[|s| - 1] == ';'
  {
    VersionPrefix + build.libVersion + OptionsInfix + SpiOptionString(build) + ";"
  }

  /** lgw_version_info: the version string of the build, unchanged. When
      the library version holds no ';' the string parses back into the
      library version and CFG_SPI_STR. */
  function VersionInfo(build: BuildOptions): (s: string)
    ensures s == VersionString(build)
    ensures ';' !in build.libVersion ==> ParseVersionString(s) == Some((build.libVersion, SpiOptionString(build)))
  {
    if ';' !in build.libVersion then
      VersionStringRoundTrip(build);
      VersionString(build)
    else
      VersionString(build)
  }

  /** Index of the first `c` in `s`, |s| when there is none. */
  function FirstIndexOf(s: string, c: char): (i: nat)
    ensures i <= |s|
    ensures i < |s| ==> s[i] == c
    ensures forall j :: 0 <= j < i ==> s[j] != c
  {
    if s == [] then 0
    else if s[0] == c then 0
    else 1 + FirstIndexOf(s[1..], c)
  }

  /** The first ';' of a version string ends the library version, so the
      string gives back the library version and the SPI option string of
      the build, provided the library version holds no ';'. */
  function ParseVersionString(s: string): (parts: Option<(string, string)>) {
    var i := FirstIndexOf(s, ';');
    if |VersionPrefix| <= i && i + |OptionsInfix| < |s|
       && s[..|VersionPrefix|] == VersionPrefix
       && s[i..i + |OptionsInfix|] == OptionsInfix
       && s[|s| - 1] == ';'
    then Some((s[|VersionPrefix|..i], s[i + |OptionsInfix|..|s| - 1]))
    else None
  }

  /** Parsing a version string recovers the library version and the SPI
      option of its build. */
  lemma {:induction false} VersionStringRoundTrip(build: BuildOptions)
    requires ';' !in build.libVersion
    ensures ParseVersionString(VersionString(build)) == Some((build.libVersion, SpiOptionString(build)))
  {
    var v := build.libVersion;
    var s := VersionString(build);
    var i := |VersionPrefix| + |v|;
    assert s[i] == ';';
    assert forall j :: 0 <= j < i ==> s[j] != ';' by {
      forall j | 0 <= j < i ensures s[j] != ';' {
        if j < |VersionPrefix| {
          assert s[j] == VersionPrefix[j];
        } else {
          assert s[j] == v[j - |VersionPrefix|];
        }
      }
    }
    assert FirstIndexOf(s, ';') == i;
    assert s[i..i + |OptionsInfix|] == OptionsInfix;
    assert s[|VersionPrefix|..i] == v;
    assert s[i + |OptionsInfix|..|s| - 1] == SpiOptionString(build);
  }

  /** Two builds with the same version string have the same library version
      and the same SPI option. The next-to-last character tells the three
      SPI option strings apart ('e', 'i', '?'); once they agree, the lengths
      place the library version at the same slice of both strings. */
  lemma VersionStringInjective(b1: BuildOptions, b2: BuildOptions)
    requires VersionString(b1) == VersionString(b2)
    ensures b1.libVersion == b2.libVersion
    ensures SpiOptionString(b1) == SpiOptionString(b2)
  {
    var s := VersionString(b1);
    var o1, o2 := SpiOptionString(b1), SpiOptionString(b2);
    var m1 := |VersionPrefix| + |b1.libVersion|;
    var m2 := |VersionPrefix| + |b2.libVersion|;
    assert s[|s| - 2] == (OptionsInfix + o1)[|s| - 2 - m1] == o1[|o1| - 1];
    assert s[|s| - 2] == (OptionsInfix + o2)[|s| - 2 - m2] == o2[|o2| - 1];
    assert o1 == o2;
  }
}
