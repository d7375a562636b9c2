/** Gateway discovery, the part that is not network I/O: which address
    of a resolved mDNS service is used, and the URL formed from it.

    An address's text is the one Rust's standard library writes:
    dotted decimal for IPv4; for IPv6 lower-case hexadecimal segments
    without leading zeros, the first longest run of two or more zero
    segments written "::", and IPv4-mapped addresses as
    "::ffff:a.b.c.d". */
module Discover {
  import opened Basics
  import opened Text

  /** `IpAddr`: four octets, or eight 16-bit segments. */
  datatype IpAddr =
    | V4(a: bv8, b: bv8, c: bv8, d: bv8)
    | V6(segments: seq<bv16>)

  predicate WellFormed(addr: IpAddr) {
    addr.V6? ==> |addr.segments| == 8
  }

  /** `IpAddr::is_loopback`: 127.0.0.0/8, or exactly ::1. */
  predicate IsLoopback(addr: IpAddr) {
    match addr
    case V4(a, _, _, _) => a == 127
    case V6(s) => s == [0, 0, 0, 0, 0, 0, 0, 1]
  }

  /** `is_link_local`: 169.254.0.0/16, or an IPv6 address whose first
      segment masked with 0xffc0 is 0xfe80. */
  predicate IsLinkLocal(addr: IpAddr) {
    match addr
    case V4(a, b, _, _) => a == 169 && b == 254
    case V6(s) => |s| > 0 && s[0] & 0xffc0 == 0xfe80
  }

  /** An IPv4 address as the 32-bit number it stands for. */
  function V4Number(a: bv8, b: bv8, c: bv8, d: bv8): nat {
    a as nat * 0x100_0000 + b as nat * 0x1_0000 + c as nat * 0x100 + d as nat
  }

  /** The octet test is the block 169.254.0.0/16: the numbers 0xa9fe0000
      to 0xa9feffff. */
  lemma {:induction false} LinkLocalV4Range(a: bv8, b: bv8, c: bv8, d: bv8)
    ensures IsLinkLocal(V4(a, b, c, d)) <==> 0xa9fe_0000 <= V4Number(a, b, c, d) <= 0xa9fe_ffff
  {
    assert (a == 169 && b == 254) <==> (a as nat == 169 && b as nat == 254);
    OctetsInBlock(a as nat, b as nat, c as nat * 0x100 + d as nat);
  }

  /** The 16-bit block whose top octets are 169 and 254. */
  lemma {:induction false} OctetsInBlock(a: nat, b: nat, low: nat)
    requires a < 0x100 && b < 0x100 && low < 0x1_0000
    ensures (a == 169 && b == 254) <==> 0xa9fe_0000 <= a * 0x100_0000 + b * 0x1_0000 + low <= 0xa9fe_ffff
  {
    var top := a * 0x100 + b;
    assert a * 0x100_0000 + b * 0x1_0000 + low == top * 0x1_0000 + low;
    assert (a == 169 && b == 254) <==> top == 0xa9fe;
    if top < 0xa9fe {
      assert top * 0x1_0000 <= 0xa9fd * 0x1_0000;
    } else if top > 0xa9fe {
      assert top * 0x1_0000 >= 0xa9ff * 0x1_0000;
    }
  }

  /** The mask test is the prefix fe80::/10: first segment 0xfe80 to 0xfebf. */
  lemma {:induction false} LinkLocalV6Range(s: seq<bv16>)
    requires |s| == 8
    ensures IsLinkLocal(V6(s)) <==> 0xfe80 <= s[0] <= 0xfebf
  {
  }

  // ---------------------------------------------------------------------
  // Choosing an address

  /** The index of the first element of `s` that `p` holds for. */
  function FindFirst(s: seq<IpAddr>, p: IpAddr -> bool): (r: Option<nat>)
    ensures r.Some? ==> r.value < |s| && p(s[r.value])
    ensures forall i :: 0 <= i < |s| && (r.None? || i < r.value) ==> !p(s[i])
  {
    if s == [] then None
    else if p(s[0]) then Some(0)
    else match FindFirst(s[1..], p)
      case Some(i) => Some(i + 1)
      case None => None
  }

  predicate Routable4(addr: IpAddr) {
    addr.V4? && !IsLoopback(addr) && !IsLinkLocal(addr)
  }

  /** The address a resolution's addresses give, in the order listed: the
      first IPv4 address that is neither loopback nor link-local, else the
      first non-loopback one, else the first; none if there are none. */
  function ChooseAddress(addrs: seq<IpAddr>): (r: Option<IpAddr>)
    ensures r.None? <==> addrs == []
    ensures r.Some? ==> r.value in addrs
  {
    match FindFirst(addrs, Routable4)
    case Some(i) => Some(addrs[i])
    case None =>
      match FindFirst(addrs, a => !IsLoopback(a))
      case Some(i) => Some(addrs[i])
      case None => if addrs == [] then None else Some(addrs[0])
  }

  /** The three tiers of preference, each stated through the position of
      the chosen address. */
  lemma {:induction false} ChooseAddressTiers(addrs: seq<IpAddr>)
    ensures forall k :: 0 <= k < |addrs| && Routable4(addrs[k]) ==>
      exists i :: (0 <= i <= k && ChooseAddress(addrs) == Some(addrs[i]) && Routable4(addrs[i])
        && forall j :: 0 <= j < i ==> !Routable4(addrs[j]))
    ensures (forall k :: 0 <= k < |addrs| ==> !Routable4(addrs[k])) ==>
      forall k :: 0 <= k < |addrs| && !IsLoopback(addrs[k]) ==>
        exists i :: (0 <= i <= k && ChooseAddress(addrs) == Some(addrs[i]) && !IsLoopback(addrs[i])
          && forall j :: 0 <= j < i ==> IsLoopback(addrs[j]))
    ensures (forall k :: 0 <= k < |addrs| ==> IsLoopback(addrs[k])) && addrs != [] ==>
      ChooseAddress(addrs) == Some(addrs[0])
  {
    var first := FindFirst(addrs, Routable4);
    var second := FindFirst(addrs, a => !IsLoopback(a));
    if first.Some? {
      forall k | 0 <= k < |addrs| && Routable4(addrs[k])
        ensures exists i :: (0 <= i <= k && ChooseAddress(addrs) == Some(addrs[i]) && Routable4(addrs[i])
          && forall j :: 0 <= j < i ==> !Routable4(addrs[j]))
      {
        assert first.value <= k;
      }
    }
    if first.None? && second.Some? {
      forall k | 0 <= k < |addrs| && !IsLoopback(addrs[k])
        ensures exists i :: (0 <= i <= k && ChooseAddress(addrs) == Some(addrs[i]) && !IsLoopback(addrs[i])
          && forall j :: 0 <= j < i ==> IsLoopback(addrs[j]))
      {
        assert second.value <= k;
        assert forall j :: 0 <= j < second.value ==> IsLoopback(addrs[j]) by {
          forall j | 0 <= j < second.value ensures IsLoopback(addrs[j]) {
            assert !(a => !IsLoopback(a))(addrs[j]);
          }
        }
      }
    }
  }

  // ---------------------------------------------------------------------
  // Address text

  function HexDigit(n: nat): (r: char)
    requires n < 16
    ensures ('0' <= r <= '9') || ('a' <= r <= 'f')
  {
    if n < 10 then '0' + n as char else 'a' + (n - 10) as char
  }

  /** `{:x}`: lower-case hexadecimal without leading zeros. */
  function Hex(n: nat): (r: string)
    ensures r != [] && ':' !in r && '[' !in r && ']' !in r
  {
    if n < 16 then [HexDigit(n)] else Hex(n / 16) + [HexDigit(n % 16)]
  }

  /** The segments in hexadecimal, separated by ':'. */
  function JoinHex(segs: seq<bv16>): (r: string)
    ensures |segs| > 1 ==> ':' in r
    ensures segs != [] ==> r != [] && r[0] != '['
    ensures ']' !in r
  {
    if segs == [] then []
    else
      var head := Hex(segs[0] as nat);
      if |segs| == 1 then head
      else
        var r := head + ":" + JoinHex(segs[1..]);
        assert r[|head|] == ':';
        r
  }

  /** The length of the run of zero segments that starts at `i`. */
  function ZeroRunAt(segs: seq<bv16>, i: nat): (r: nat)
    requires i <= |segs|
    ensures i + r <= |segs|
    ensures forall k :: i <= k < i + r ==> segs[k] == 0
    ensures i + r < |segs| ==> segs[i + r] != 0
    decreases |segs| - i
  {
    if i == |segs| || segs[i] != 0 then 0 else 1 + ZeroRunAt(segs, i + 1)
  }

  /** The first longest run of zero segments among positions `from` and
      on, given the best among the earlier ones: start and length. */
  function LongestZeroRun(segs: seq<bv16>, from: nat, start: nat, len: nat): (r: (nat, nat))
    requires from <= |segs| && start + len <= |segs|
    requires forall k :: start <= k < start + len ==> segs[k] == 0
    ensures r.0 + r.1 <= |segs|
    ensures forall k :: r.0 <= k < r.0 + r.1 ==> segs[k] == 0
    ensures r.1 >= len
    ensures forall i :: from <= i < |segs| ==> ZeroRunAt(segs, i) <= r.1
    decreases |segs| - from
  {
    if from == |segs| then (start, len)
    else
      var run := ZeroRunAt(segs, from);
      if run > len then LongestZeroRun(segs, from + 1, from, run)
      else LongestZeroRun(segs, from + 1, start, len)
  }

  /** The address `::ffff:a.b.c.d`, if the segments are IPv4-mapped. */
  predicate IsV4Mapped(segs: seq<bv16>) {
    |segs| == 8 && segs[..6] == [0, 0, 0, 0, 0, 0xffff]
  }

  function V4Text(a: bv8, b: bv8, c: bv8, d: bv8): (r: string)
    ensures ':' !in r && ']' !in r && r != [] && r[0] != '['
  {
    var (w, x, y, z) := (DecimalText(a as nat), DecimalText(b as nat), DecimalText(c as nat), DecimalText(d as nat));
    DottedDigits(w, x);
    DottedDigits(w + "." + x, y);
    DottedDigits(w + "." + x + "." + y, z);
    w + "." + x + "." + y + "." + z
  }

  /** Only digits and dots. */
  predicate DigitsAndDots(s: string) {
    forall i :: 0 <= i < |s| ==> IsAsciiDigit(s[i]) || s[i] == '.'
  }

  /** Joining two runs of digits and dots with a dot gives another, which
      holds neither ':' nor brackets. */
  lemma {:induction false} DottedDigits(u: string, v: string)
    requires DigitsAndDots(u) || AllAsciiDigits(u)
    requires AllAsciiDigits(v)
    ensures var r := u + "." + v;
      DigitsAndDots(r) && ':' !in r && ']' !in r && '[' !in r
  {
    var r := u + "." + v;
    forall i | 0 <= i < |r| ensures IsAsciiDigit(r[i]) || r[i] == '.' {
      if i < |u| {
        assert r[i] == u[i];
      } else if i > |u| {
        assert r[i] == v[i - |u| - 1];
      }
    }
    assert forall i :: 0 <= i < |r| ==> r[i] != ':' && r[i] != ']' && r[i] != '[';
  }

  /** `Ipv6Addr`'s `Display`. */
  function V6Text(segs: seq<bv16>): (r: string)
    requires |segs| == 8
    ensures ':' in r && ']' !in r && r[0] != '['
  {
    if IsV4Mapped(segs) then
      "::ffff:" + V4Text((segs[6] >> 8) as bv8, (segs[6] & 0xff) as bv8,
                         (segs[7] >> 8) as bv8, (segs[7] & 0xff) as bv8)
    else
      var (start, len) := LongestZeroRun(segs, 0, 0, 0);
      if len > 1 then
        var r := JoinHex(segs[..start]) + "::" + JoinHex(segs[start + len..]);
        assert r[|JoinHex(segs[..start])|] == ':';
        assert start == 0 ==> r[0] == ':';
        r
      else JoinHex(segs)
  }

  /** `IpAddr::to_string`. */
  function AddrText(addr: IpAddr): (r: string)
    requires WellFormed(addr)
    ensures r != [] && r[0] != '[' && ']' !in r
    ensures ':' in r <==> addr.V6?
  {
    match addr
    case V4(a, b, c, d) => V4Text(a, b, c, d)
    case V6(s) => V6Text(s)
  }

  // ---------------------------------------------------------------------
  // The URL, and how a client reads it back

  /** `DiscoveredGateway` */
  datatype DiscoveredGateway = DiscoveredGateway(url: string, host: string, port: u16)

  /** The authority of a URL as section 3.2.2 of RFC 3986 splits it: an
      IP literal runs to its closing ']', any other host (which cannot
      hold a ':') up to the first ':'; the port follows that ':'. */
  function SplitAuthority(authority: string): (r: (string, Option<string>)) {
    var host :=
      if authority != [] && authority[0] == '[' then
        var inner := BeforeChar(authority, ']');
        if |inner| < |authority| then inner + "]" else authority
      else BeforeChar(authority, ':');
    var rest := authority[|host|..];
    if rest != [] && rest[0] == ':' then (host, Some(rest[1..])) else (host, None)
  }

  /** `format!("http://{}:{}", host, port)`, as the source writes it. */
  function GatewayUrlAsWritten(addr: IpAddr, port: u16): (r: string)
    requires WellFormed(addr)
    ensures StartsWith(r, "http://")
    ensures addr.V4? ==> SplitAuthority(r[7..]) == (AddrText(addr), Some(DecimalText(port as nat)))
  {
    var host := AddrText(addr);
    var digits := DecimalText(port as nat);
    GatewayUrlParts(host, digits);
    var url := "http://" + host + ":" + digits;
    if addr.V4? then AuthorityRoundTrip(host, digits); url else url
  }

  /** For an IPv6 address the URL's host, read back, is not the address:
      the reader stops at the first ':' of the address text. */
  lemma {:induction false} AsWrittenLosesV6Host(segs: seq<bv16>, port: u16)
    requires |segs| == 8
    ensures var url := GatewayUrlAsWritten(V6(segs), port);
      StartsWith(url, "http://") && SplitAuthority(url[7..]).0 != AddrText(V6(segs))
  {
    var text := AddrText(V6(segs));
    var url := GatewayUrlAsWritten(V6(segs), port);
    var authority := text + ":" + DecimalText(port as nat);
    GatewayUrlParts(text, DecimalText(port as nat));
    assert authority[0] == text[0] != '[';
    var host := BeforeChar(authority, ':');
    var k :| 0 <= k < |text| && text[k] == ':';
    assert authority[k] == ':';
    assert |host| <= k;
  }

  /** The host as it goes into a URL: an IPv6 address in brackets. */
  function UrlHost(addr: IpAddr): (r: string)
    requires WellFormed(addr)
    ensures r != []
    ensures (r[0] != '[' && ':' !in r) || (r[0] == '[' && r[|r| - 1] == ']' && ']' !in r[..|r| - 1])
    ensures ':' in r <==> addr.V6?
  {
    if addr.V6? then
      var r := "[" + AddrText(addr) + "]";
      assert r[..|r| - 1] == "[" + AddrText(addr);
      r
    else AddrText(addr)
  }

  /** The URL with the host written as RFC 3986 asks. */
  function GatewayUrl(addr: IpAddr, port: u16): (r: string)
    requires WellFormed(addr)
    ensures StartsWith(r, "http://")
    ensures SplitAuthority(r[7..]) == (UrlHost(addr), Some(DecimalText(port as nat)))
  {
    var host := UrlHost(addr);
    var digits := DecimalText(port as nat);
    GatewayUrlParts(host, digits);
    AuthorityRoundTrip(host, digits);
    "http://" + host + ":" + digits
  }

  /** The corrected URL gives back the address and the port it was made
      of: the host read back is the address text, in brackets for IPv6,
      and the port text reads as the port. For IPv4 it is the URL the
      source writes. */
  lemma {:induction false} GatewayUrlRoundTrip(addr: IpAddr, port: u16)
    requires WellFormed(addr)
    ensures var (host, digits) := SplitAuthority(GatewayUrl(addr, port)[7..]);
      && digits.Some? && DigitsValue(digits.value) == port as nat
      && (addr.V4? ==> host == AddrText(addr))
      && (addr.V6? ==> |host| >= 2 && host[1..|host| - 1] == AddrText(addr))
    ensures addr.V4? ==> GatewayUrl(addr, port) == GatewayUrlAsWritten(addr, port)
  {
    var host := UrlHost(addr);
    if addr.V6? {
      assert host == "[" + AddrText(addr) + "]";
      assert host[1..|host| - 1] == AddrText(addr);
    }
  }

  lemma {:induction false} GatewayUrlParts(host: string, digits: string)
    ensures var url := "http://" + host + ":" + digits;
      StartsWith(url, "http://") && url[7..] == host + ":" + digits
  {
    var url := "http://" + host + ":" + digits;
    assert url == "http://" + (host + ":" + digits);
  }

  /** A host as `UrlHost` writes it, a ':' and a port split back apart. */
  lemma {:induction false} AuthorityRoundTrip(host: string, digits: string)
    requires host != []
    requires (host[0] != '[' && ':' !in host) || (host[0] == '[' && host[|host| - 1] == ']' && ']' !in host[..|host| - 1])
    ensures SplitAuthority(host + ":" + digits) == (host, Some(digits))
  {
    var authority := host + ":" + digits;
    assert authority[..|host|] == host;
    if host[0] == '[' {
      assert authority[..|host| - 1] == host[..|host| - 1];
      BeforeCharAt(authority, ']', |host| - 1);
      assert authority[..|host| - 1] + "]" == host;
    } else {
      assert authority[0] == host[0];
      BeforeCharAt(authority, ':', |host|);
    }
    assert authority[|host|..] == ":" + digits;
    assert (":" + digits)[1..] == digits;
  }

  // ---------------------------------------------------------------------
  // The resolved service

  /** What a resolved service yields, as the source builds it: the chosen
      address, its text as the host, its port, and the URL written with
      that text. */
  function GatewayFromResolution(addrs: seq<IpAddr>, port: u16): (r: Option<DiscoveredGateway>)
    requires forall a :: a in addrs ==> WellFormed(a)
    ensures r.None? <==> addrs == []
    ensures r.Some? ==> exists a :: (a in addrs && ChooseAddress(addrs) == Some(a)
      && r.value == DiscoveredGateway(GatewayUrlAsWritten(a, port), AddrText(a), port))
  {
    match ChooseAddress(addrs)
    case None => None
    case Some(a) => Some(DiscoveredGateway(GatewayUrlAsWritten(a, port), AddrText(a), port))
  }

  /** The same, with the URL's host written as RFC 3986 asks. */
  function GatewayFromResolutionFixed(addrs: seq<IpAddr>, port: u16): (r: Option<DiscoveredGateway>)
    requires forall a :: a in addrs ==> WellFormed(a)
    ensures r.None? <==> addrs == []
    ensures r.Some? ==> exists a :: (a in addrs && ChooseAddress(addrs) == Some(a)
      && r.value == DiscoveredGateway(GatewayUrl(a, port), AddrText(a), port))
  {
    match ChooseAddress(addrs)
    case None => None
    case Some(a) => Some(DiscoveredGateway(GatewayUrl(a, port), AddrText(a), port))
  }

  /** The correction keeps the host and the port and changes the URL
      exactly when the chosen address is IPv6 (its text holds a ':'). */
  lemma {:induction false} FixChangesOnlyV6Urls(addrs: seq<IpAddr>, port: u16)
    requires forall a :: a in addrs ==> WellFormed(a)
    ensures var w := GatewayFromResolution(addrs, port);
      var f := GatewayFromResolutionFixed(addrs, port);
      && (w.None? <==> f.None?)
      && (w.Some? && f.Some? ==>
            f.value.host == w.value.host && f.value.port == w.value.port
            && (f.value.url == w.value.url <==> ':' !in w.value.host))
  {
    match ChooseAddress(addrs)
    case None =>
    case Some(a) =>
      GatewayUrlRoundTrip(a, port);
      if a.V6? {
        var fixed := GatewayUrl(a, port);
        var written := GatewayUrlAsWritten(a, port);
        GatewayUrlParts(UrlHost(a), DecimalText(port as nat));
        GatewayUrlParts(AddrText(a), DecimalText(port as nat));
        assert fixed[7] == '[';
        assert written[7] == AddrText(a)[0] != '[';
      }
  }
}
