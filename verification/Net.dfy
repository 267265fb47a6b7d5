/** Management addresses: the parser they go through, the synthetic loopbacks handed out for the
    ones that are not IP literals, and the router MACs derived from them. */
module Net {
  import opened Basics
  import opened Text

  type Ip = ip: seq<uint8> | |ip| == 4 || |ip| == 16 witness [0, 0, 0, 0]

  const SYNTHETIC_PREFIX := "192.168.55."

  function Synthetic(k: nat): string {
    SYNTHETIC_PREFIX + Decimal(k)
  }

  lemma SyntheticReads(k: nat) returns (digits: string)
    ensures Synthetic(k) == "192.168.55." + digits && AllDigits(digits) && Value(digits) == k
  {
    DecimalReads(k);
    digits := Decimal(k);
  }

  /** An IPv4 address in its 16-byte form, section 2.5.5.2 of RFC 4291. */
  function Mapped(a: uint8, b: uint8, c: uint8, d: uint8): Ip {
    [0, 0, 0, 0, 0, 0, 0, 0, 0, 0, 255, 255, a, b, c, d]
  }

  /** net.ParseIP is a library function: all that is used of it is how it treats the dotted quads
      the synchronizer prints itself. The last field of a dotted quad is at most 255. */
  ghost predicate Conforms(p: string -> Option<Ip>) {
    forall k: nat ::
      p(Synthetic(k)) == if k <= 255 then Some(Mapped(192, 168, 55, k)) else None
  }

  /** One parser that conforms, so that statements about all of them are not empty. */
  ghost function ParseSyntheticOnly(s: string): Option<Ip> {
    if exists k: nat :: k <= 255 && s == Synthetic(k)
    then var k: nat :| k <= 255 && s == Synthetic(k); Some(Mapped(192, 168, 55, k))
    else None
  }

  lemma SyntheticInjective(j: nat, k: nat)
    requires Synthetic(j) == Synthetic(k)
    ensures j == k
  {
    var n := |SYNTHETIC_PREFIX|;
    assert Decimal(j) == Synthetic(j)[n..] == Synthetic(k)[n..] == Decimal(k);
    DecimalInjective(j, k);
  }

  lemma SomeParserConforms()
    ensures Conforms(ParseSyntheticOnly)
  {
    forall k: nat
      ensures ParseSyntheticOnly(Synthetic(k)) ==
              if k <= 255 then Some(Mapped(192, 168, 55, k)) else None
    {
      forall j: nat | Synthetic(k) == Synthetic(j)
        ensures j == k
      {
        SyntheticInjective(k, j);
      }
    }
  }

  function HexDigit(d: nat): char
    requires d < 16
  {
    "0123456789ABCDEF"[d]
  }

  /** fmt's %02X. */
  function Hex(b: uint8): string {
    [HexDigit(b / 16), HexDigit(b % 16)]
  }

  function LastFour(ip: Ip): (four: seq<uint8>)
    ensures |four| == 4
  {
    ip[|ip| - 4..]
  }

  function MacOf(four: seq<uint8>): string
    requires |four| == 4
  {
    "00:00:" + Hex(four[0]) + ":" + Hex(four[1]) + ":" + Hex(four[2]) + ":" + Hex(four[3])
  }

  function HexValue(c: char): int {
    if '0' <= c <= '9' then c as int - '0' as int else c as int - 'A' as int + 10
  }

  /** A MAC is two zeros and the four bytes, read as pairs of upper-case hexadecimal digits. */
  lemma MacReads(four: seq<uint8>)
    requires |four| == 4
    ensures var mac := MacOf(four);
            && |mac| == 17 && mac[..6] == "00:00:" && mac[8] == mac[11] == mac[14] == ':'
            && forall i | 0 <= i < 4 ::
                 && HexCharacter(mac[6 + 3 * i]) && HexCharacter(mac[7 + 3 * i])
                 && 16 * HexValue(mac[6 + 3 * i]) + HexValue(mac[7 + 3 * i]) == four[i]
  {
    hide MacOf, HexDigit, HexValue, HexCharacter;
    Separators(four);
    var mac := MacOf(four);
    forall i | 0 <= i < 4
      ensures HexCharacter(mac[6 + 3 * i]) && HexCharacter(mac[7 + 3 * i])
      ensures 16 * HexValue(mac[6 + 3 * i]) + HexValue(mac[7 + 3 * i]) == four[i]
    {
      HexDigitReads(four[i] / 16);
      HexDigitReads(four[i] % 16);
      HexAt(four, i);
    }
  }

  lemma HexAt(four: seq<uint8>, i: nat)
    requires |four| == 4 && i < 4
    ensures |MacOf(four)| == 17
    ensures MacOf(four)[6 + 3 * i] == HexDigit(four[i] / 16)
    ensures MacOf(four)[7 + 3 * i] == HexDigit(four[i] % 16)
  {
    if i == 0 {} else if i == 1 {} else if i == 2 {} else { assert i == 3; }
  }

  lemma Separators(four: seq<uint8>)
    requires |four| == 4
    ensures var mac := MacOf(four);
            |mac| == 17 && mac[..6] == "00:00:" && mac[8] == mac[11] == mac[14] == ':'
  {
    assert MacOf(four)[..6] == "00:00:";
  }

  predicate HexCharacter(c: char) {
    '0' <= c <= '9' || 'A' <= c <= 'F'
  }

  lemma HexDigitReads(d: nat)
    requires d < 16
    ensures HexCharacter(HexDigit(d)) && HexValue(HexDigit(d)) == d
  {
    assert forall i | 0 <= i < 16 :: HexDigit(i) as int == if i < 10 then 48 + i else 55 + i;
  }

  /** So two routers get the same MAC only when their loopbacks end in the same four bytes. */
  lemma MacInjective(a: seq<uint8>, b: seq<uint8>)
    requires |a| == 4 && |b| == 4
    requires MacOf(a) == MacOf(b)
    ensures a == b
  {
    hide MacOf;
    MacReads(a);
    MacReads(b);
    forall i | 0 <= i < 4
      ensures a[i] == b[i]
    {
      assert MacOf(a)[6 + 3 * i] == MacOf(b)[6 + 3 * i];
    }
  }

  /** What one pass over a switch draws from the counter: `uses` values, of which `issued`, if any,
      becomes the loopback of a device. */
  datatype Draw = Draw(uses: nat, issued: Option<nat>)

  /** `literal` says that the management address is an IP literal, `pipeconf` that the switch has a
      pipeconf attribute. The first value drawn for any other address is only used for a MAC that
      is overwritten, and the second becomes the loopback. */
  function DrawFor(next: uint32, literal: bool, pipeconf: bool): Draw {
    if literal then Draw(0, None)
    else if next > 255 then Draw(1, None)
    else if !pipeconf then Draw(1, None)
    else if next + 1 > 255 then Draw(3, None)
    else Draw(2, Some(next + 1))
  }

  function Advance(next: uint32, uses: nat): uint32 {
    (next + uses) % TWO_32
  }

  datatype Visit = Visit(literal: bool, pipeconf: bool)

  /** The counter after a sequence of visits, and the loopback numbers issued on the way. */
  function NextAfter(next: uint32, visits: seq<Visit>): uint32
    decreases visits
  {
    if visits == [] then next
    else
      var d := DrawFor(next, visits[0].literal, visits[0].pipeconf);
      NextAfter(Advance(next, d.uses), visits[1..])
  }

  function Issued(next: uint32, visits: seq<Visit>): seq<nat>
    decreases visits
  {
    if visits == [] then []
    else
      var d := DrawFor(next, visits[0].literal, visits[0].pipeconf);
      (if d.issued.Some? then [d.issued.value] else []) + Issued(Advance(next, d.uses), visits[1..])
  }

  function TotalUses(next: uint32, visits: seq<Visit>): nat
    decreases visits
  {
    if visits == [] then 0
    else
      var d := DrawFor(next, visits[0].literal, visits[0].pipeconf);
      d.uses + TotalUses(Advance(next, d.uses), visits[1..])
  }

  lemma {:induction false} OneMoreVisit(next: uint32, visits: seq<Visit>, v: Visit)
    ensures var at := NextAfter(next, visits);
            var d := DrawFor(at, v.literal, v.pipeconf);
            && NextAfter(next, visits + [v]) == Advance(at, d.uses)
            && Issued(next, visits + [v]) == Issued(next, visits) + (if d.issued.Some? then [d.issued.value] else [])
            && TotalUses(next, visits + [v]) == TotalUses(next, visits) + d.uses
    decreases visits
  {
    hide Advance, DrawFor;
    if visits == [] {
      assert visits + [v] == [v] && [v][1..] == [];
    } else {
      assert (visits + [v])[1..] == visits[1..] + [v];
      var d := DrawFor(next, visits[0].literal, visits[0].pipeconf);
      OneMoreVisit(Advance(next, d.uses), visits[1..], v);
    }
  }

  function Remaining(next: nat): nat {
    if next >= 256 then 0 else (256 - next) / 2
  }

  lemma NoWrap(next: uint32, uses: nat)
    requires next + uses < TWO_32
    ensures Advance(next, uses) == next + uses
  {
  }

  /** Until the counter wraps, the loopbacks issued are pairwise distinct dotted quads and there
      are at most 128 of them, whatever the switches looked like. */
  lemma {:induction false} LoopbacksRunOut(next: uint32, visits: seq<Visit>)
    requires next + TotalUses(next, visits) < TWO_32
    ensures Increasing(Issued(next, visits))
    ensures forall k | k in Issued(next, visits) :: next < k <= 255
    ensures |Issued(next, visits)| <= Remaining(next) <= 128
    ensures NextAfter(next, visits) == next + TotalUses(next, visits)
    decreases visits
  {
    hide Advance;
    if visits != [] {
      var d := DrawFor(next, visits[0].literal, visits[0].pipeconf);
      NoWrap(next, d.uses);
      LoopbacksRunOut(next + d.uses, visits[1..]);
      var later := Issued(next + d.uses, visits[1..]);
      assert forall i | 0 <= i < |later| :: later[i] in later;
      OneMore(next, d);
      assert Issued(next, visits) == (if d.issued.Some? then [d.issued.value] else []) + later;
    }
  }

  lemma OneMore(next: uint32, d: Draw)
    requires exists literal, pipeconf :: d == DrawFor(next, literal, pipeconf)
    ensures (if d.issued.Some? then 1 else 0) + Remaining(next + d.uses) <= Remaining(next)
    ensures d.issued.Some? ==> next < d.issued.value < next + d.uses && d.issued.value <= 255
    ensures d.uses <= 3
  {
  }

  /** The bound is reached: complete switches whose addresses are host names get 128 loopbacks
      from a fresh counter, and the later ones get none. */
  lemma {:induction false} ExactlySoMany(next: uint32, visits: seq<Visit>)
    requires next % 2 == 0 || next >= 256
    requires next + TotalUses(next, visits) < TWO_32
    requires forall i | 0 <= i < |visits| :: visits[i] == Visit(false, true)
    ensures |Issued(next, visits)| == if |visits| <= Remaining(next) then |visits| else Remaining(next)
    decreases visits
  {
    if visits != [] {
      var d := DrawFor(next, visits[0].literal, visits[0].pipeconf);
      ExactlySoMany(Advance(next, d.uses), visits[1..]);
    }
  }

  /** The package-level counter of synthetic addresses. */
  class LoopbackPool {
    var nextIP: uint32

    /** How many addresses have been drawn; the counter is what is left of that in 32 bits. */
    ghost var drawn: nat

    ghost predicate Valid()
      reads this
    {
      nextIP == drawn % TWO_32
    }

    constructor ()
      ensures Valid() && nextIP == 0 && drawn == 0
    {
      nextIP, drawn := 0, 0;
    }

    method ManagementAddressToIP(ip: string -> Option<Ip>, address: string) returns (r: string)
      requires Valid()
      modifies this
      ensures Valid()
      ensures ip(address).Some? ==> r == address && nextIP == old(nextIP) && drawn == old(drawn)
      ensures ip(address).None? ==>
                r == Synthetic(old(nextIP)) && nextIP == Advance(old(nextIP), 1) && drawn == old(drawn) + 1
    {
      if ip(address).Some? {
        return address;
      }
      r := Synthetic(nextIP);
      nextIP := (nextIP + 1) % TWO_32;
      drawn := drawn + 1;
    }

    /** The MAC of an address that is not a literal is that of the synthetic address drawn for it,
        as long as that is a dotted quad. */
    method AddressToMac(ip: string -> Option<Ip>, address: string) returns (mac: Option<string>)
      requires Conforms(ip) && Valid()
      modifies this
      ensures Valid()
      ensures ip(address).Some? ==>
                mac == Some(MacOf(LastFour(ip(address).value))) && nextIP == old(nextIP) && drawn == old(drawn)
      ensures ip(address).None? ==>
                nextIP == Advance(old(nextIP), 1) && drawn == old(drawn) + 1
                && mac == if old(nextIP) <= 255 then Some(MacOf([192, 168, 55, old(nextIP)])) else None
    {
      var text := ManagementAddressToIP(ip, address);
      var parsed := ip(text);
      if parsed.None? {
        return None;
      }
      var b := parsed.value;
      if |b| == 16 {
        mac := Some(MacOf([b[12], b[13], b[14], b[15]]));
      } else {
        mac := Some(MacOf([b[0], b[1], b[2], b[3]]));
      }
      assert LastFour(b) == if |b| == 16 then [b[12], b[13], b[14], b[15]] else [b[0], b[1], b[2], b[3]];
    }
  }
}
