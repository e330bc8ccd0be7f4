/** The set of capabilities an agent starts with, as bit flags. */
module Capabilities {
  import opened Proto

  datatype AgentCapability =
    | Unspecified
    | ReportsStatus
    | AcceptsRemoteConfig
    | ReportsEffectiveConfig
    | AcceptsPackages
    | ReportsPackageStatuses
    | ReportsOwnTraces
    | ReportsOwnMetrics
    | ReportsOwnLogs
    | AcceptsOpAmpConnectionSettings
    | AcceptsOtherConnectionSettings
    | AcceptsRestartCommand
    | ReportsHealth
    | ReportsRemoteConfig
  {
    function Bit(): bv32 {
      match this
      case Unspecified => 0
      case ReportsStatus => 1
      case AcceptsRemoteConfig => 2
      case ReportsEffectiveConfig => 4
      case AcceptsPackages => 8
      case ReportsPackageStatuses => 16
      case ReportsOwnTraces => 32
      case ReportsOwnMetrics => 64
      case ReportsOwnLogs => 128
      case AcceptsOpAmpConnectionSettings => 256
      case AcceptsOtherConnectionSettings => 512
      case AcceptsRestartCommand => 1024
      case ReportsHealth => 2048
      case ReportsRemoteConfig => 4096
    }
  }

  /** A signed 32-bit integer, as its bits. */
  datatype Capabilities = Capabilities(bits: bv32) {

    predicate Has(c: AgentCapability) {
      bits & c.Bit() != 0
    }

    /** The cast from a signed 32-bit to an unsigned 64-bit integer, which
        copies the sign bit upwards. */
    function ToU64(): bv64 {
      if bits & 0x8000_0000 == 0 then bits as bv64 else (bits as bv64) | 0xFFFF_FFFF_0000_0000
    }
  }

  /** The bits of a list of capabilities, folded from the left. */
  function Fold(caps: seq<AgentCapability>): bv32
    decreases |caps|
  {
    if caps == [] then 0 else Fold(caps[..|caps| - 1]) | caps[|caps| - 1].Bit()
  }

  function New(caps: seq<AgentCapability>): Capabilities {
    Capabilities(Fold(caps))
  }

  const DEFINED_BITS: bv32 := 0x1FFF

  lemma BitsAreDistinct(c: AgentCapability, d: AgentCapability)
    ensures c.Bit() & d.Bit() != 0 <==> c == d && c != Unspecified
    ensures c.Bit() & DEFINED_BITS == c.Bit()
  {
  }

  lemma OrThenAnd(x: bv32, y: bv32, mask: bv32)
    ensures (x | y) & mask == (x & mask) | (y & mask)
    ensures (x | y) & mask != 0 <==> x & mask != 0 || y & mask != 0
  {
  }

  lemma OneMoreFlag(folded: bv32, before: bv32, bit: bv32, flag: bv32, same: bool, inBefore: bool)
    requires folded == before | bit
    requires bit & flag != 0 <==> same
    requires before & flag != 0 <==> inBefore
    ensures folded & flag != 0 <==> same || inBefore
  {
    OrThenAnd(before, bit, flag);
  }

  lemma OneMoreBit(folded: bv32, before: bv32, d: AgentCapability, c: AgentCapability)
    requires folded == before | d.Bit()
    ensures folded & c.Bit() != 0 <==> before & c.Bit() != 0 || (d == c && c != Unspecified)
  {
    BitsAreDistinct(d, c);
    OneMoreFlag(folded, before, d.Bit(), c.Bit(), c == d && c != Unspecified, before & c.Bit() != 0);
  }

  predicate Listed(caps: seq<AgentCapability>, c: AgentCapability)
    decreases |caps|
  {
    caps != [] && (caps[|caps| - 1] == c || Listed(caps[..|caps| - 1], c))
  }

  lemma {:induction false} ListedIffIn(caps: seq<AgentCapability>, c: AgentCapability)
    ensures Listed(caps, c) <==> c in caps
    decreases |caps|
  {
    if caps != [] {
      ListedIffIn(caps[..|caps| - 1], c);
      assert caps == caps[..|caps| - 1] + [caps[|caps| - 1]];
    }
  }

  lemma {:induction false} FoldSetsListedBits(caps: seq<AgentCapability>, c: AgentCapability)
    ensures Fold(caps) & c.Bit() != 0 <==> Listed(caps, c) && c != Unspecified
    decreases |caps|
  {
    if caps != [] {
      FoldSetsListedBits(caps[..|caps| - 1], c);
      OneMoreBit(Fold(caps), Fold(caps[..|caps| - 1]), caps[|caps| - 1], c);
    }
  }

  lemma {:induction false} FoldSetsDefinedBits(caps: seq<AgentCapability>)
    ensures Fold(caps) & DEFINED_BITS == Fold(caps)
    decreases |caps|
  {
    if caps != [] {
      FoldSetsDefinedBits(caps[..|caps| - 1]);
      BitsAreDistinct(caps[|caps| - 1], caps[|caps| - 1]);
      OrThenAnd(Fold(caps[..|caps| - 1]), caps[|caps| - 1].Bit(), DEFINED_BITS);
    }
  }

  /** A capability is present exactly when it was listed, whatever the order and
      the repetitions of the list. */
  lemma HasIffListed(caps: seq<AgentCapability>, c: AgentCapability)
    ensures New(caps).Has(c) <==> c in caps && c != Unspecified
  {
    FoldSetsListedBits(caps, c);
    ListedIffIn(caps, c);
  }

  /** What a reader of the 64-bit field sees of one 32-bit flag. */
  predicate Carries(sent: bv64, flag: bv32) {
    sent & (flag as bv64) != 0
  }

  predicate OnlyDefinedBits(sent: bv64) {
    sent & !(DEFINED_BITS as bv64) == 0
  }

  lemma WideningKeepsBits(caps: Capabilities, flag: bv32)
    requires caps.bits & DEFINED_BITS == caps.bits
    ensures Carries(caps.ToU64(), flag) <==> caps.bits & flag != 0
    ensures OnlyDefinedBits(caps.ToU64())
  {
    assert caps.bits & 0x8000_0000 == 0;
  }

  lemma CarriesIffHas(caps: Capabilities, c: AgentCapability)
    requires caps.bits & DEFINED_BITS == caps.bits
    ensures Carries(caps.ToU64(), c.Bit()) <==> caps.Has(c)
  {
    WideningKeepsBits(caps, c.Bit());
  }

  /** The number sent to the server has exactly the bits of the listed
      capabilities and no bit that the protocol does not define. */
  lemma SentBitsAreListedBits(caps: seq<AgentCapability>, c: AgentCapability)
    ensures Carries(New(caps).ToU64(), c.Bit()) <==> c in caps && c != Unspecified
    ensures OnlyDefinedBits(New(caps).ToU64())
  {
    var k := New(caps);
    assert k.bits & DEFINED_BITS == k.bits by { FoldSetsDefinedBits(caps); }
    assert OnlyDefinedBits(k.ToU64()) by { WideningKeepsBits(k, 0); }
    assert Carries(k.ToU64(), c.Bit()) <==> c in caps && c != Unspecified by {
      assert k.Has(c) <==> c in caps && c != Unspecified by { HasIffListed(caps, c); }
      CarriesIffHas(k, c);
    }
  }

  // ----- The number on the wire -----

  const WIRE_BITS := 13

  /** The capabilities of the protocol, from the lowest bit on. */
  function OnTheWire(k: nat): AgentCapability {
    match k
    case 0 => ReportsStatus
    case 1 => AcceptsRemoteConfig
    case 2 => ReportsEffectiveConfig
    case 3 => AcceptsPackages
    case 4 => ReportsPackageStatuses
    case 5 => ReportsOwnTraces
    case 6 => ReportsOwnMetrics
    case 7 => ReportsOwnLogs
    case 8 => AcceptsOpAmpConnectionSettings
    case 9 => AcceptsOtherConnectionSettings
    case 10 => AcceptsRestartCommand
    case 11 => ReportsHealth
    case _ => ReportsRemoteConfig
  }

  /** The k-th binary digit of a number, from the lowest on. */
  function Digit(n: nat, k: nat): nat
    decreases k
  {
    if k == 0 then n % 2 else Digit(n / 2, k - 1)
  }

  function PowerOfTwo(k: nat): (p: nat)
    ensures p > 0
  {
    if k == 0 then 1 else 2 * PowerOfTwo(k - 1)
  }

  lemma QuotientIsUnique(n: int, d: nat, q: int, r: int)
    requires d > 0 && n == q * d + r && 0 <= r < d
    ensures n / d == q
  {
    var e := n / d - q;
    assert n == (n / d) * d + n % d;
    assert e * d == r - n % d;
    assert 0 - d < e * d < d;
    assert e >= 1 ==> e * d >= d;
    assert e <= -1 ==> e * d <= 0 - d;
  }

  lemma HalfFirst(n: nat, p: nat)
    requires p > 0
    ensures n / (2 * p) == (n / 2) / p
  {
    var q, r, s := (n / 2) / p, (n / 2) % p, n % 2;
    assert n / 2 == q * p + r;
    assert n == (q * p + r) * 2 + s;
    assert n == q * (2 * p) + (2 * r + s);
    QuotientIsUnique(n, 2 * p, q, 2 * r + s);
  }

  lemma {:induction false} DigitIsQuotient(n: nat, k: nat)
    ensures Digit(n, k) == n / PowerOfTwo(k) % 2
    decreases k
  {
    if k > 0 {
      DigitIsQuotient(n / 2, k - 1);
      HalfFirst(n, PowerOfTwo(k - 1));
    }
  }

  lemma PowersOfTwo()
    ensures PowerOfTwo(0) == 1 && PowerOfTwo(1) == 2 && PowerOfTwo(2) == 4 && PowerOfTwo(3) == 8
    ensures PowerOfTwo(4) == 16 && PowerOfTwo(5) == 32 && PowerOfTwo(6) == 64 && PowerOfTwo(7) == 128
    ensures PowerOfTwo(8) == 256 && PowerOfTwo(9) == 512 && PowerOfTwo(10) == 1024
    ensures PowerOfTwo(11) == 2048 && PowerOfTwo(12) == 4096 && PowerOfTwo(13) == 8192
  {
    assert PowerOfTwo(4) == 16;
    assert PowerOfTwo(8) == 256;
    assert PowerOfTwo(12) == 4096;
  }

  // Testing a bit of a 64-bit number is looking at a digit, bit by bit.

  lemma {:induction false} Digit0(n: u64)
    ensures Carries(n as bv64, ReportsStatus.Bit()) <==> Digit(n, 0) == 1
  {
    DigitIsQuotient(n, 0);
    PowersOfTwo();
  }

  lemma {:induction false} Digit1(n: u64)
    ensures Carries(n as bv64, AcceptsRemoteConfig.Bit()) <==> Digit(n, 1) == 1
  {
    DigitIsQuotient(n, 1);
    PowersOfTwo();
  }

  lemma {:induction false} Digit2(n: u64)
    ensures Carries(n as bv64, ReportsEffectiveConfig.Bit()) <==> Digit(n, 2) == 1
  {
    DigitIsQuotient(n, 2);
    PowersOfTwo();
  }

  lemma {:induction false} Digit3(n: u64)
    ensures Carries(n as bv64, AcceptsPackages.Bit()) <==> Digit(n, 3) == 1
  {
    DigitIsQuotient(n, 3);
    PowersOfTwo();
  }

  lemma {:induction false} Digit4(n: u64)
    ensures Carries(n as bv64, ReportsPackageStatuses.Bit()) <==> Digit(n, 4) == 1
  {
    DigitIsQuotient(n, 4);
    PowersOfTwo();
  }

  lemma {:induction false} Digit5(n: u64)
    ensures Carries(n as bv64, ReportsOwnTraces.Bit()) <==> Digit(n, 5) == 1
  {
    DigitIsQuotient(n, 5);
    PowersOfTwo();
  }

  lemma {:induction false} Digit6(n: u64)
    ensures Carries(n as bv64, ReportsOwnMetrics.Bit()) <==> Digit(n, 6) == 1
  {
    DigitIsQuotient(n, 6);
    PowersOfTwo();
  }

  lemma {:induction false} Digit7(n: u64)
    ensures Carries(n as bv64, ReportsOwnLogs.Bit()) <==> Digit(n, 7) == 1
  {
    DigitIsQuotient(n, 7);
    PowersOfTwo();
  }

  lemma {:induction false} Digit8(n: u64)
    ensures Carries(n as bv64, AcceptsOpAmpConnectionSettings.Bit()) <==> Digit(n, 8) == 1
  {
    DigitIsQuotient(n, 8);
    PowersOfTwo();
  }

  lemma {:induction false} Digit9(n: u64)
    ensures Carries(n as bv64, AcceptsOtherConnectionSettings.Bit()) <==> Digit(n, 9) == 1
  {
    DigitIsQuotient(n, 9);
    PowersOfTwo();
  }

  lemma {:induction false} Digit10(n: u64)
    ensures Carries(n as bv64, AcceptsRestartCommand.Bit()) <==> Digit(n, 10) == 1
  {
    DigitIsQuotient(n, 10);
    PowersOfTwo();
  }

  lemma {:induction false} Digit11(n: u64)
    ensures Carries(n as bv64, ReportsHealth.Bit()) <==> Digit(n, 11) == 1
  {
    DigitIsQuotient(n, 11);
    PowersOfTwo();
  }

  lemma {:induction false} Digit12(n: u64)
    ensures Carries(n as bv64, ReportsRemoteConfig.Bit()) <==> Digit(n, 12) == 1
  {
    DigitIsQuotient(n, 12);
    PowersOfTwo();
  }

  lemma {:induction false} NumberCarriesIffDigit(n: u64, k: nat)
    requires k < WIRE_BITS
    ensures Carries(n as bv64, OnTheWire(k).Bit()) <==> Digit(n, k) == 1
  {
    if k == 0 {
      Digit0(n);
    } else if k == 1 {
      Digit1(n);
    } else if k == 2 {
      Digit2(n);
    } else if k == 3 {
      Digit3(n);
    } else if k == 4 {
      Digit4(n);
    } else if k == 5 {
      Digit5(n);
    } else if k == 6 {
      Digit6(n);
    } else if k == 7 {
      Digit7(n);
    } else if k == 8 {
      Digit8(n);
    } else if k == 9 {
      Digit9(n);
    } else if k == 10 {
      Digit10(n);
    } else if k == 11 {
      Digit11(n);
    } else {
      Digit12(n);
    }
  }

  lemma NarrowAndBack(sent: bv64)
    requires sent < 8192
    ensures (sent as bv13) as bv64 == sent
  {
  }

  lemma WideningKeepsNumber(low: bv13)
    ensures (low as bv64) as int == low as int
  {
  }

  lemma DefinedIsSmall(sent: bv64)
    requires OnlyDefinedBits(sent)
    ensures sent as int < 8192
  {
    assert sent < 8192;
    NarrowAndBack(sent);
    WideningKeepsNumber(sent as bv13);
  }

  /** The number sent to the server, digit by digit: the k-th binary digit is one
      exactly when the k-th capability of the protocol was listed, and there are
      no digits beyond those. */
  lemma {:induction false} WireDigits(caps: seq<AgentCapability>, k: nat)
    requires k < WIRE_BITS
    ensures New(caps).ToU64() as int / PowerOfTwo(k) % 2 == 1 <==> OnTheWire(k) in caps
    ensures New(caps).ToU64() as int < 8192
  {
    var sent := New(caps).ToU64();
    SentBitsAreListedBits(caps, OnTheWire(k));
    NumberAndBack(sent);
    NumberCarriesIffDigit(sent as int, k);
    DigitIsQuotient(sent as int, k);
    DefinedIsSmall(sent);
  }
}
