/** The UDP address value of the generic (non-Linux) transport: an IPv4
    address held as a big-endian `uint32` and a `uint16` port. A Go
    `*udpAddr`, which may be nil, is an `Option<UdpAddr>`. */
module UdpGeneric {
  import opened Wrappers

  datatype UdpAddr = UdpAddr(ip: uint32, port: uint16)

  /** `NewUDPAddr`: a non-nil address holding exactly the given parts. */
  function NewUDPAddr(ip: uint32, port: uint16): (a: Option<UdpAddr>)
    ensures a.Some?
  {
    Some(UdpAddr(ip, port))
  }

  /** `udp2ipInt`: the numeric IP of a non-nil address (a nil one would be
      dereferenced by the source). */
  function Udp2IpInt(addr: Option<UdpAddr>): uint32
    requires addr.Some?
  {
    addr.value.ip
  }

  /** `Equals`: nil equals only nil; two non-nil addresses are equal when
      both the IP and the port agree. Because those are the only fields,
      the method coincides with value equality. */
  function Equals(ua: Option<UdpAddr>, t: Option<UdpAddr>): (r: bool)
    ensures r <==> ua == t
  {
    if t.None? || ua.None? then t.None? && ua.None?
    else ua.value.ip == t.value.ip && ua.value.port == t.value.port
  }

  /** `Copy` dereferences the receiver, so it needs a non-nil one. */
  function Copy(ua: Option<UdpAddr>): (c: UdpAddr)
    requires ua.Some?
    ensures Equals(ua, Some(c))
  {
    ua.value
  }

  /** `hostDidRoam`: the host moved exactly when the two addresses differ. */
  function HostDidRoam(addr: Option<UdpAddr>, newaddr: Option<UdpAddr>): (r: bool)
    ensures r <==> addr != newaddr
  {
    !Equals(addr, newaddr)
  }

  lemma NewUDPAddrRoundTrip(ip: uint32, port: uint16)
    ensures Udp2IpInt(NewUDPAddr(ip, port)) == ip
    ensures NewUDPAddr(ip, port).value.port == port
    ensures Equals(NewUDPAddr(ip, port), Some(UdpAddr(ip, port)))
  {
  }

  lemma EqualsIsEquivalence(a: Option<UdpAddr>, b: Option<UdpAddr>, c: Option<UdpAddr>)
    ensures Equals(a, a)
    ensures Equals(a, b) == Equals(b, a)
    ensures Equals(a, b) && Equals(b, c) ==> Equals(a, c)
    ensures Equals(a, None) <==> a.None?
  {
  }

  lemma NoRoamAfterCopy(a: Option<UdpAddr>)
    requires a.Some?
    ensures !HostDidRoam(a, Some(Copy(a)))
  {
  }

  // ---------------------------------------------------------------------
  // strings.Split(s, ":")

  /** The pieces of `s` around every `:`, as Go's `strings.Split` with a
      one-character separator gives them: always at least one piece, and
      one more piece than there are separators. */
  function Split(s: string): (parts: seq<string>)
    ensures |parts| >= 1
  {
    if s == [] then [[]]
    else
      var rest := Split(s[1..]);
      if s[0] == ':' then [[]] + rest
      else [[s[0]] + rest[0]] + rest[1..]
  }

  function CountColons(s: string): nat {
    if s == [] then 0 else (if s[0] == ':' then 1 else 0) + CountColons(s[1..])
  }

  lemma {:induction false} SplitLength(s: string)
    ensures |Split(s)| == CountColons(s) + 1
    ensures CountColons(s) == 0 <==> ':' !in s
  {
    if s != [] {
      SplitLength(s[1..]);
      assert ':' in s <==> s[0] == ':' || ':' in s[1..];
    }
  }

  /** A piece free of `:` followed by a `:` splits off as the first part. */
  lemma {:induction false} SplitFirst(a: string, rest: string)
    requires ':' !in a
    ensures Split(a + [':'] + rest) == [a] + Split(rest)
  {
    if a == [] {
      assert a + [':'] + rest == [':'] + rest;
      assert ([':'] + rest)[1..] == rest;
    } else {
      SplitFirst(a[1..], rest);
      assert (a + [':'] + rest)[1..] == a[1..] + [':'] + rest;
      assert [a[0]] + a[1..] == a;
    }
  }

  lemma {:induction false} SplitNoColon(a: string)
    requires ':' !in a
    ensures Split(a) == [a]
  {
    if a != [] {
      SplitNoColon(a[1..]);
      assert [a[0]] + a[1..] == a;
    }
  }

  // ---------------------------------------------------------------------
  // strconv.Atoi

  /** The width of Go's `int` on the target. The file builds for every
      platform but Linux (and for Android), 32-bit ones among them. */
  type IntSize = b: nat | b == 32 || b == 64 witness 64

  function MaxInt(bits: IntSize): int {
    if bits == 32 then 0x7fff_ffff else 0x7fff_ffff_ffff_ffff
  }

  function MinInt(bits: IntSize): int {
    -MaxInt(bits) - 1
  }

  /** The largest value `ParseUint` accepts for an `int`-sized result. */
  function MaxUint(bits: IntSize): nat {
    if bits == 32 then 0xffff_ffff else 0xffff_ffff_ffff_ffff
  }

  predicate IsDigit(c: char) { '0' <= c <= '9' }

  predicate AllDigits(s: string) { forall i :: 0 <= i < |s| ==> IsDigit(s[i]) }

  function Digit(c: char): nat
    requires IsDigit(c)
  {
    c as int - '0' as int
  }

  /** The number `acc` followed by the decimal digits of `s`, read left to
      right as Go's loops read them. */
  function Accumulate(s: string, acc: nat): nat
    requires AllDigits(s)
  {
    if s == [] then acc else Accumulate(s[1..], acc * 10 + Digit(s[0]))
  }

  function DigitsValue(s: string): nat
    requires AllDigits(s)
  {
    Accumulate(s, 0)
  }

  /** The longest prefix of `s` made of digits. */
  function LeadingDigits(s: string): (p: string)
    ensures AllDigits(p) && p <= s
    ensures p == s || !IsDigit(s[|p|])
  {
    if s == [] || !IsDigit(s[0]) then []
    else
      var rest := LeadingDigits(s[1..]);
      assert s == [s[0]] + s[1..];
      [s[0]] + rest
  }

  /** `s` without the one leading sign `Atoi` and `ParseInt` accept. */
  function Unsigned(s: string): string {
    if |s| > 0 && (s[0] == '+' || s[0] == '-') then s[1..] else s
  }

  function Negative(s: string): bool {
    |s| > 0 && s[0] == '-'
  }

  /** What `strconv.Atoi` accepts: an optional sign and at least one digit. */
  predicate IsDecimal(s: string) {
    |Unsigned(s)| > 0 && AllDigits(Unsigned(s))
  }

  /** The outcome of `ParseUint`'s loop over the bytes. */
  datatype Scan = SyntaxError | RangeError | Parsed(value: nat)

  /** `ParseUint(s, 10, bits)`'s loop, with `acc` read so far. Every byte must
      be a digit; the first digit that takes the number past `maxVal` ends the
      loop with a range error before any later byte is looked at. (The source
      tests this as "`n >= cutoff`, or `n*10 + d` wraps or exceeds `maxVal`",
      which, with `maxVal` at most 2^64-1, is the same as the unbounded
      `n*10 + d > maxVal`.) */
  function ScanDigits(s: string, acc: nat, maxVal: nat): Scan {
    if s == [] then Parsed(acc)
    else if !IsDigit(s[0]) then SyntaxError
    else
      var next := acc * 10 + Digit(s[0]);
      if next > maxVal then RangeError else ScanDigits(s[1..], next, maxVal)
  }

  /** `ParseInt(s, 10, 0)`: strip one sign, scan the rest, and bring a result
      that does not fit a signed `int` to the bound on its side. */
  function ParseInt(s: string, bits: IntSize): int {
    var u := Unsigned(s);
    if u == [] then 0
    else match ScanDigits(u, 0, MaxUint(bits))
      case SyntaxError => 0
      case RangeError => if Negative(s) then MinInt(bits) else MaxInt(bits)
      case Parsed(n) =>
        if !Negative(s) && n > MaxInt(bits) then MaxInt(bits)
        else if Negative(s) && n > -MinInt(bits) then MinInt(bits)
        else if Negative(s) then -(n as int) else n
  }

  /** The length below which `Atoi` takes its fast path: short enough that the
      number always fits an `int`. */
  function FastLimit(bits: IntSize): nat {
    if bits == 32 then 10 else 19
  }

  /** The value `strconv.Atoi` returns beside its error (the caller discards
      the error). Short inputs go through the fast path: 0 unless all digits
      after an optional sign, the number otherwise. Longer ones go through
      `ParseInt`. */
  function Atoi(s: string, bits: IntSize): (n: int)
    ensures MinInt(bits) <= n <= MaxInt(bits)
    ensures IsDecimal(s) && !Negative(s) ==> n >= 0
  {
    if 0 < |s| < FastLimit(bits) then
      var u := Unsigned(s);
      if u == [] || !AllDigits(u) then 0
      else
        FastPathFits(u, bits);
        if Negative(s) then -(DigitsValue(u) as int) else DigitsValue(u)
    else ParseInt(s, bits)
  }

  function Pow10(n: nat): (p: nat)
    ensures p >= 1
  {
    if n == 0 then 1 else 10 * Pow10(n - 1)
  }

  /** Appending digits never makes the number smaller. */
  lemma {:induction false} AccumulateGrows(s: string, acc: nat)
    requires AllDigits(s)
    ensures Accumulate(s, acc) >= acc
  {
    if s != [] {
      AccumulateGrows(s[1..], acc * 10 + Digit(s[0]));
    }
  }

  /** Appending `|s|` digits to `acc` gives less than `acc + 1` followed by
      `|s|` zeros. */
  lemma {:induction false} AccumulateBound(s: string, acc: nat)
    requires AllDigits(s)
    ensures Accumulate(s, acc) < (acc + 1) * Pow10(|s|)
  {
    if s != [] {
      var d := Digit(s[0]);
      AccumulateBound(s[1..], acc * 10 + d);
      OneMoreDigit(acc, d, Pow10(|s| - 1));
    }
  }

  lemma OneMoreDigit(acc: nat, d: nat, p: nat)
    requires d <= 9
    ensures (acc * 10 + d + 1) * p <= (acc + 1) * (10 * p)
  {
    assert (acc * 10 + d + 1) * p == (acc * 10) * p + (d + 1) * p;
    assert (acc + 1) * (10 * p) == (acc * 10) * p + 10 * p;
  }

  lemma {:induction false} Pow10Monotone(k: nat, m: nat)
    requires k <= m
    ensures Pow10(k) <= Pow10(m)
  {
    if k < m {
      Pow10Monotone(k, m - 1);
    }
  }

  /** A number of fewer digits than the fast-path limit fits an `int`. */
  lemma FastPathFits(u: string, bits: IntSize)
    requires AllDigits(u) && |u| < FastLimit(bits)
    ensures DigitsValue(u) <= MaxInt(bits)
  {
    AccumulateBound(u, 0);
    Pow10Monotone(|u|, FastLimit(bits) - 1);
    Pow10Limits();
  }

  lemma Pow10Limits()
    ensures Pow10(9) == 1_000_000_000 && Pow10(18) == 1_000_000_000_000_000_000
  {
    assert Pow10(3) == 1000;
    assert Pow10(6) == 1000 * Pow10(3) by { Pow10Split(3, 3); }
    assert Pow10(9) == 1000 * Pow10(6) by { Pow10Split(3, 6); }
    Pow10Split(9, 9);
  }

  lemma {:induction false} Pow10Split(k: nat, m: nat)
    ensures Pow10(k + m) == Pow10(k) * Pow10(m)
  {
    if k > 0 {
      Pow10Split(k - 1, m);
    }
  }

  /** Over a digit string, the scan gives the number read, or a range error
      when that number is past `maxVal`. */
  lemma {:induction false} ScanAllDigits(s: string, acc: nat, maxVal: nat)
    requires AllDigits(s) && acc <= maxVal
    ensures ScanDigits(s, acc, maxVal)
         == if Accumulate(s, acc) <= maxVal then Parsed(Accumulate(s, acc)) else RangeError
  {
    if s != [] {
      var next := acc * 10 + Digit(s[0]);
      AccumulateGrows(s[1..], next);
      if next <= maxVal {
        ScanAllDigits(s[1..], next, maxVal);
      }
    }
  }

  /** When the leading digits fit, a later non-digit makes a syntax error. */
  lemma {:induction false} ScanStopsAtNonDigit(s: string, acc: nat, maxVal: nat)
    requires !AllDigits(s) && acc <= maxVal
    requires Accumulate(LeadingDigits(s), acc) <= maxVal
    ensures ScanDigits(s, acc, maxVal) == SyntaxError
  {
    if IsDigit(s[0]) {
      var next := acc * 10 + Digit(s[0]);
      assert LeadingDigits(s) == [s[0]] + LeadingDigits(s[1..]);
      assert !AllDigits(s[1..]) by {
        var i :| 0 <= i < |s| && !IsDigit(s[i]);
        assert s[1..][i - 1] == s[i];
      }
      AccumulateGrows(LeadingDigits(s[1..]), next);
      ScanStopsAtNonDigit(s[1..], next, maxVal);
    }
  }

  /** When the leading digits do not fit, the scan stops with a range error,
      whatever follows them. */
  lemma {:induction false} ScanOverflows(s: string, acc: nat, maxVal: nat)
    requires acc <= maxVal
    requires Accumulate(LeadingDigits(s), acc) > maxVal
    ensures ScanDigits(s, acc, maxVal) == RangeError
  {
    assert s != [] && IsDigit(s[0]);
    var next := acc * 10 + Digit(s[0]);
    assert LeadingDigits(s) == [s[0]] + LeadingDigits(s[1..]);
    if next <= maxVal {
      ScanOverflows(s[1..], next, maxVal);
    }
  }

  /** A number too long for the fast path when its digits do not fit. */
  lemma LongWhenOverflowing(u: string, bits: IntSize)
    requires AllDigits(u) && DigitsValue(u) > MaxUint(bits)
    ensures |u| >= FastLimit(bits)
  {
    if |u| < FastLimit(bits) {
      FastPathFits(u, bits);
    }
  }

  function ClampInt(x: int, bits: IntSize): int {
    if x < MinInt(bits) then MinInt(bits) else if x > MaxInt(bits) then MaxInt(bits) else x
  }

  /** A well-formed decimal gives its signed value, brought to the nearest
      `int` bound when it does not fit, on either path. */
  lemma AtoiOfDecimal(s: string, bits: IntSize)
    requires IsDecimal(s)
    ensures Atoi(s, bits)
         == ClampInt(if Negative(s) then -(DigitsValue(Unsigned(s)) as int) else DigitsValue(Unsigned(s)), bits)
  {
    var u := Unsigned(s);
    if !(0 < |s| < FastLimit(bits)) {
      ScanAllDigits(u, 0, MaxUint(bits));
    } else {
      FastPathFits(u, bits);
    }
  }

  /** Anything else gives 0, provided its leading digits fit `ParseUint`'s
      range. */
  lemma AtoiOfMalformed(s: string, bits: IntSize)
    requires !IsDecimal(s)
    requires DigitsValue(LeadingDigits(Unsigned(s))) <= MaxUint(bits)
    ensures Atoi(s, bits) == 0
  {
    var u := Unsigned(s);
    if u != [] && !(0 < |s| < FastLimit(bits)) {
      ScanStopsAtNonDigit(u, 0, MaxUint(bits));
    }
  }

  /** Leading digits past `ParseUint`'s range give the `int` bound on the
      side of the sign, even when junk follows them. */
  lemma AtoiOfOverflowing(s: string, bits: IntSize)
    requires DigitsValue(LeadingDigits(Unsigned(s))) > MaxUint(bits)
    ensures Atoi(s, bits) == if Negative(s) then MinInt(bits) else MaxInt(bits)
  {
    var u := Unsigned(s);
    var lead := LeadingDigits(u);
    LongWhenOverflowing(lead, bits);
    assert |u| >= |lead|;
    ScanOverflows(u, 0, MaxUint(bits));
  }

  // ---------------------------------------------------------------------
  // NewUDPAddrFromString

  /** `NewUDPAddrFromString`: split on `:`; nil with fewer than two parts;
      otherwise the IP parsed from the first part and the second part read as
      a number, its error ignored and the value cut to 16 bits. Parsing the IP
      (`net.ParseIP` then `ip2int`) is given as `parseIp`; `bits` is the width
      of `int` on the target. */
  function NewUDPAddrFromString(s: string, parseIp: string -> uint32, bits: IntSize): (r: Option<UdpAddr>)
    ensures r.None? <==> ':' !in s
    ensures r.Some? ==> r.value.ip == parseIp(Split(s)[0])
  {
    var p := Split(s);
    SplitLength(s);
    if |p| < 2 then None
    else Some(UdpAddr(parseIp(p[0]), ToUint16(Atoi(p[1], bits))))
  }

  /** Only the first two `:`-separated fields matter: whatever follows a
      second `:` is ignored. */
  lemma FieldsOfAddress(host: string, port: string, tail: string, parseIp: string -> uint32, bits: IntSize)
    requires ':' !in host && ':' !in port
    requires tail == [] || tail[0] == ':'
    ensures NewUDPAddrFromString(host + [':'] + port + tail, parseIp, bits)
         == Some(UdpAddr(parseIp(host), ToUint16(Atoi(port, bits))))
  {
    assert host + [':'] + port + tail == host + [':'] + (port + tail);
    SplitFirst(host, port + tail);
    if tail == [] {
      assert port + tail == port;
      SplitNoColon(port);
    } else {
      assert port + tail == port + [':'] + tail[1..];
      SplitFirst(port, tail[1..]);
    }
  }

  /** A port that is not a decimal number does not fail the parse: it becomes
      port 0, as long as its leading digits fit `ParseUint`'s range. */
  lemma UnparsablePortIsZero(host: string, port: string, parseIp: string -> uint32, bits: IntSize)
    requires ':' !in host && ':' !in port && !IsDecimal(port)
    requires DigitsValue(LeadingDigits(Unsigned(port))) <= MaxUint(bits)
    ensures NewUDPAddrFromString(host + [':'] + port, parseIp, bits)
         == Some(UdpAddr(parseIp(host), 0))
  {
    FieldsOfAddress(host, port, [], parseIp, bits);
    assert host + [':'] + port + [] == host + [':'] + port;
    AtoiOfMalformed(port, bits);
  }

  /** A port whose leading digits overflow becomes 65535, or 0 when negative,
      whatever follows the digits. */
  lemma OverflowingPortIsBound(host: string, port: string, parseIp: string -> uint32, bits: IntSize)
    requires ':' !in host && ':' !in port
    requires DigitsValue(LeadingDigits(Unsigned(port))) > MaxUint(bits)
    ensures NewUDPAddrFromString(host + [':'] + port, parseIp, bits)
         == Some(UdpAddr(parseIp(host), if Negative(port) then 0 else 65535))
  {
    FieldsOfAddress(host, port, [], parseIp, bits);
    assert host + [':'] + port + [] == host + [':'] + port;
    AtoiOfOverflowing(port, bits);
  }

  /** On a 32-bit target, port "4294967296x" is 65535: the scan overflows at
      its last digit, before it meets the `x`. */
  lemma OverflowBeforeJunk(host: string, port: string, parseIp: string -> uint32)
    requires ':' !in host && port == "4294967296x"
    ensures NewUDPAddrFromString(host + [':'] + port, parseIp, 32) == Some(UdpAddr(parseIp(host), 65535))
  {
    assert port == "4294967296" + "x";
    LeadingDigitsBeforeJunk("4294967296", "x");
    ValueOfExample();
    assert Unsigned(port) == port && !Negative(port);
    OverflowingPortIsBound(host, port, parseIp, 32);
  }

  /** The leading digits of a digit string followed by a non-digit are that
      string. */
  lemma {:induction false} LeadingDigitsBeforeJunk(a: string, b: string)
    requires AllDigits(a) && b != [] && !IsDigit(b[0])
    ensures LeadingDigits(a + b) == a
  {
    if a == [] {
      assert a + b == b;
    } else {
      assert (a + b)[0] == a[0] && (a + b)[1..] == a[1..] + b;
      LeadingDigitsBeforeJunk(a[1..], b);
      assert [a[0]] + a[1..] == a;
    }
  }

  lemma AccumulateCons(c: char, t: string, acc: nat)
    requires IsDigit(c) && AllDigits(t)
    ensures Accumulate([c] + t, acc) == Accumulate(t, acc * 10 + Digit(c))
  {
    assert ([c] + t)[1..] == t;
  }

  lemma {:induction false} AccumulateAppend(a: string, b: string, acc: nat)
    requires AllDigits(a) && AllDigits(b)
    ensures AllDigits(a + b)
    ensures Accumulate(a + b, acc) == Accumulate(b, Accumulate(a, acc))
  {
    if a == [] {
      assert a + b == b;
    } else {
      assert (a + b)[0] == a[0] && (a + b)[1..] == a[1..] + b;
      AccumulateAppend(a[1..], b, acc * 10 + Digit(a[0]));
    }
  }

  lemma ValueOfExample()
    ensures DigitsValue("4294967296") == 4294967296
  {
    assert "4294967296" == "42949" + "67296";
    HighDigitsOfExample();
    LowDigitsOfExample();
    AccumulateAppend("42949", "67296", 0);
  }

  lemma HighDigitsOfExample()
    ensures Accumulate("42949", 0) == 42949
  {
    AccumulateCons('4', "2949", 0);
    AccumulateCons('2', "949", 4);
    AccumulateCons('9', "49", 42);
    AccumulateCons('4', "9", 429);
    AccumulateCons('9', "", 4294);
  }

  lemma LowDigitsOfExample()
    ensures Accumulate("67296", 42949) == 4294967296
  {
    AccumulateCons('6', "7296", 42949);
    AccumulateCons('7', "296", 429496);
    AccumulateCons('2', "96", 4294967);
    AccumulateCons('9', "6", 42949672);
    AccumulateCons('6', "", 429496729);
  }

  /** The port is truncated to 16 bits: "65537" gives port 1. */
  lemma PortTruncated(host: string, port: string, parseIp: string -> uint32, bits: IntSize)
    requires ':' !in host && port == "65537"
    ensures NewUDPAddrFromString(host + [':'] + port, parseIp, bits) == Some(UdpAddr(parseIp(host), 1))
  {
    FieldsOfAddress(host, port, [], parseIp, bits);
    assert host + [':'] + port + [] == host + [':'] + port;
    ValueOf65537(port);
    AtoiOfDecimal(port, bits);
  }

  lemma ValueOf65537(port: string)
    requires port == "65537"
    ensures IsDecimal(port) && !Negative(port) && Unsigned(port) == port
    ensures DigitsValue(port) == 65537
  {
    AccumulateCons('6', "5537", 0);
    AccumulateCons('5', "537", 6);
    AccumulateCons('5', "37", 65);
    AccumulateCons('3', "7", 655);
    AccumulateCons('7', "", 6553);
    assert "65537" == ['6'] + "5537";
  }

  /** A negative port wraps as a two's-complement conversion: "-1" gives
      port 65535. */
  lemma NegativePortWraps(host: string, port: string, parseIp: string -> uint32, bits: IntSize)
    requires ':' !in host && port == "-1"
    ensures NewUDPAddrFromString(host + [':'] + port, parseIp, bits) == Some(UdpAddr(parseIp(host), 65535))
  {
    FieldsOfAddress(host, port, [], parseIp, bits);
    assert host + [':'] + port + [] == host + [':'] + port;
    assert Unsigned(port) == "1";
    AccumulateCons('1', "", 0);
    assert "1" == ['1'] + "";
  }
}
