/**
 * The outbound-request guard of the server functions (supabase/functions/_shared/net.ts):
 * the ordered chain of checks `validateOutboundUrl` applies to a feed URL, the
 * byte-capped body reader and the redirect-following fetch loop.
 *
 * WHATWG URL parsing and relative resolution, the network, the stream reader and
 * UTF-8 decoding are parameters: `parse`, `resolve`, `net` and `decode`.
 */
module Net {
  import opened JsText
  import opened JsNumber

  const DefaultTimeoutMs: int := 10000
  const DefaultMaxBytes: int := 2000000
  const DefaultMaxRedirects: int := 3
  const DefaultAllowedPorts: seq<int> := [443]

  /** The fields of a parsed URL the guard looks at; `port` is empty when the URL has none. */
  datatype Url = Url(href: string, protocol: string, username: string, password: string,
                     hostname: string, port: string)

  /** `UrlValidationOptions`: both fields may be absent. */
  datatype UrlOptions = UrlOptions(allowHttp: Option<bool>, allowedPorts: Option<seq<int>>)

  datatype Settings = Settings(allowHttp: bool, allowedPorts: seq<int>)

  /** `normalizeOptions`: http only when asked for, and port 443 unless a non-empty list is given. */
  function NormalizeOptions(o: UrlOptions): (r: Settings)
    ensures r.allowHttp <==> o.allowHttp == Some(true)
    ensures r.allowedPorts != []
    ensures o.allowedPorts.Some? && o.allowedPorts.value != [] ==> r.allowedPorts == o.allowedPorts.value
    ensures o.allowedPorts.None? || o.allowedPorts.value == [] ==> r.allowedPorts == DefaultAllowedPorts
  {
    Settings(o.allowHttp == Some(true),
             if o.allowedPorts.Some? && o.allowedPorts.value != [] then o.allowedPorts.value else DefaultAllowedPorts)
  }

  // ---------------------------------------------------------------- host name predicates

  /** `isLocalHostname`. */
  predicate IsLocalHostname(hostname: string)
  {
    var host := Lower(hostname);
    host == "localhost" || EndsWith(host, ".localhost") || EndsWith(host, ".local")
    || EndsWith(host, ".internal") || EndsWith(host, ".lan")
  }

  /** A dot-separated part that `Number` reads as an integer from 0 to 255. */
  predicate IsOctet(part: string)
  {
    var n := StrToNumber(part);
    IsInteger(n) && 0.0 <= n.v <= 255.0
  }

  /** `parseIpv4`: exactly four dot-separated parts, each an integer from 0 to 255. */
  function ParseIpv4(hostname: string): (r: Option<seq<int>>)
    ensures r.Some? ==> |r.value| == 4 && forall i :: 0 <= i < 4 ==> 0 <= r.value[i] <= 255
    ensures r.Some? <==> AllOctets(Split(hostname, '.'))
  {
    var parts := Split(hostname, '.');
    if !AllOctets(parts) then None
    else
      var a, b, c, d := OctetValue(parts[0]), OctetValue(parts[1]), OctetValue(parts[2]), OctetValue(parts[3]);
      FourOctets(a, b, c, d);
      Some([a, b, c, d])
  }

  /** Exactly four parts, each a valid octet. */
  predicate AllOctets(parts: seq<string>)
  {
    |parts| == 4 && IsOctet(parts[0]) && IsOctet(parts[1]) && IsOctet(parts[2]) && IsOctet(parts[3])
  }

  lemma FourOctets(a: int, b: int, c: int, d: int)
    requires 0 <= a <= 255 && 0 <= b <= 255 && 0 <= c <= 255 && 0 <= d <= 255
    ensures forall i :: 0 <= i < 4 ==> 0 <= [a, b, c, d][i] <= 255
  {
  }

  function OctetValue(part: string): (r: int)
    requires IsOctet(part)
    ensures 0 <= r <= 255 && r as real == StrToNumber(part).v
  {
    StrToNumber(part).v.Floor
  }

  /** `isPrivateIpv4`, on the first two octets. */
  predicate IsPrivateIpv4(hostname: string)
  {
    var parts := ParseIpv4(hostname);
    parts.Some? &&
    var a, b := parts.value[0], parts.value[1];
    a == 0 || a == 10 || a == 127 || (a == 169 && b == 254) || (a == 172 && 16 <= b <= 31)
    || (a == 192 && b == 168) || (a == 100 && 64 <= b <= 127) || a >= 224
  }

  // ---------------------------------------------------------------- IPv4 ranges

  function Pow2(n: nat): (r: nat)
    ensures r >= 1
  {
    if n == 0 then 1 else 2 * Pow2(n - 1)
  }

  /** The 32-bit address of four octets. */
  function Address(a: int, b: int, c: int, d: int): int
  {
    ((a * 256 + b) * 256 + c) * 256 + d
  }

  /** An address block: a base address, as four octets, and a prefix length. */
  datatype Cidr = Cidr(a: int, b: int, c: int, d: int, prefix: nat)

  /** `x` lies in the block: it agrees with the base address on the first `prefix` bits. */
  predicate InCidr(x: int, k: Cidr)
    requires k.prefix <= 32
  {
    x / Pow2(32 - k.prefix) == Address(k.a, k.b, k.c, k.d) / Pow2(32 - k.prefix)
  }

  const ThisNetwork := Cidr(0, 0, 0, 0, 8)
  const Private10 := Cidr(10, 0, 0, 0, 8)
  const Loopback := Cidr(127, 0, 0, 0, 8)
  const LinkLocal := Cidr(169, 254, 0, 0, 16)
  const Private172 := Cidr(172, 16, 0, 0, 12)
  const Private192 := Cidr(192, 168, 0, 0, 16)
  const SharedSpace := Cidr(100, 64, 0, 0, 10)
  const MulticastAndAbove := Cidr(224, 0, 0, 0, 3)

  /**
   * The blocks the guard refuses: "this network" 0/8, the RFC 1918 blocks 10/8,
   * 172.16/12 and 192.168/16, loopback 127/8, link-local 169.254/16 (RFC 3927),
   * shared address space 100.64/10 (RFC 6598), and everything from 224/3 up
   * (multicast and reserved).
   */
  predicate InBlockedIpv4(x: int)
  {
    InCidr(x, ThisNetwork) || InCidr(x, Private10) || InCidr(x, Loopback) || InCidr(x, LinkLocal)
    || InCidr(x, Private172) || InCidr(x, Private192) || InCidr(x, SharedSpace) || InCidr(x, MulticastAndAbove)
  }

  lemma DivUnique(x: int, d: int, q: int, r: int)
    requires d > 0 && x == q * d + r && 0 <= r < d
    ensures x / d == q
  {
    var q', r' := x / d, x % d;
    assert x == q' * d + r' && 0 <= r' < d;
    assert (q - q') * d == r' - r;
    if q > q' {
      MulMonotone(1, q - q', d);
    } else if q < q' {
      MulMonotone(1, q' - q, d);
    }
  }

  /** For a block no longer than 16 bits, only the first two octets decide membership. */
  lemma HighBits(a: int, b: int, c: int, d: int, m: nat)
    requires 0 <= c <= 255 && 0 <= d <= 255 && m >= 1
    ensures Address(a, b, c, d) / (m * 65536) == (a * 256 + b) / m
  {
    var hi, lo := a * 256 + b, c * 256 + d;
    assert Address(a, b, c, d) == hi * 65536 + lo;
    var q, r := hi / m, hi % m;
    assert hi == q * m + r;
    assert hi * 65536 + lo == q * (m * 65536) + (r * 65536 + lo);
    DivUnique(hi * 65536 + lo, m * 65536, q, r * 65536 + lo);
  }

  /** Membership in a block of at most 16 bits whose base ends in two zero octets. */
  lemma InCidrByHigh(a: int, b: int, c: int, d: int, k: Cidr, m: nat)
    requires 0 <= c <= 255 && 0 <= d <= 255 && m >= 1 && k.prefix <= 32 && k.c == 0 && k.d == 0
    requires Pow2(32 - k.prefix) == m * 65536
    ensures InCidr(Address(a, b, c, d), k) <==> (a * 256 + b) / m == (k.a * 256 + k.b) / m
  {
    HighBits(a, b, c, d, m);
    HighBits(k.a, k.b, 0, 0, m);
  }

  lemma {:induction false} Pow2Add(m: nat, n: nat)
    ensures Pow2(m + n) == Pow2(m) * Pow2(n)
    decreases m
  {
    if m > 0 {
      Pow2Add(m - 1, n);
    }
  }

  lemma BlockedPowers()
    ensures Pow2(24) == 256 * 65536 && Pow2(16) == 1 * 65536 && Pow2(20) == 16 * 65536
    ensures Pow2(22) == 64 * 65536 && Pow2(29) == 8192 * 65536
  {
    assert Pow2(8) == 256 && Pow2(4) == 16 && Pow2(6) == 64 && Pow2(5) == 32;
    Pow2Add(8, 8);
    Pow2Add(8, 16);
    Pow2Add(4, 16);
    Pow2Add(6, 16);
    Pow2Add(5, 8);
    Pow2Add(13, 16);
  }

  /** The prefix comparisons of the blocked ranges, on the first two octets. */
  lemma HighConditions(a: int, b: int)
    requires 0 <= a <= 255 && 0 <= b <= 255
    ensures (a * 256 + b) / 256 == a
    ensures (a * 256 + b) / 16 == (172 * 256 + 16) / 16 <==> a == 172 && 16 <= b <= 31
    ensures (a * 256 + b) / 64 == (100 * 256 + 64) / 64 <==> a == 100 && 64 <= b <= 127
    ensures (a * 256 + b) / 8192 == (224 * 256) / 8192 <==> a >= 224
  {
    var hi := a * 256 + b;
    DivUnique(hi, 256, a, b);
    DivUnique(hi, 16, a * 16 + b / 16, b % 16);
    DivUnique(hi, 64, a * 4 + b / 64, b % 64);
    DivUnique(hi, 8192, a / 32, (a % 32) * 256 + b);
  }

  lemma WholeOctetRanges(a: int, b: int, c: int, d: int)
    requires 0 <= a <= 255 && 0 <= b <= 255 && 0 <= c <= 255 && 0 <= d <= 255
    ensures var x := Address(a, b, c, d);
      (InCidr(x, ThisNetwork) <==> a == 0) && (InCidr(x, Private10) <==> a == 10)
      && (InCidr(x, Loopback) <==> a == 127) && (InCidr(x, LinkLocal) <==> a == 169 && b == 254)
      && (InCidr(x, Private192) <==> a == 192 && b == 168)
  {
    BlockedPowers();
    HighConditions(a, b);
    InCidrByHigh(a, b, c, d, ThisNetwork, 256);
    InCidrByHigh(a, b, c, d, Private10, 256);
    InCidrByHigh(a, b, c, d, Loopback, 256);
    InCidrByHigh(a, b, c, d, LinkLocal, 1);
    InCidrByHigh(a, b, c, d, Private192, 1);
  }

  lemma PartialOctetRanges(a: int, b: int, c: int, d: int)
    requires 0 <= a <= 255 && 0 <= b <= 255 && 0 <= c <= 255 && 0 <= d <= 255
    ensures var x := Address(a, b, c, d);
      (InCidr(x, Private172) <==> a == 172 && 16 <= b <= 31)
      && (InCidr(x, SharedSpace) <==> a == 100 && 64 <= b <= 127) && (InCidr(x, MulticastAndAbove) <==> a >= 224)
  {
    BlockedPowers();
    HighConditions(a, b);
    InCidrByHigh(a, b, c, d, Private172, 16);
    InCidrByHigh(a, b, c, d, SharedSpace, 64);
    InCidrByHigh(a, b, c, d, MulticastAndAbove, 8192);
  }

  /** Membership in the blocked ranges, read off the first two octets. */
  lemma BlockedByOctets(a: int, b: int, c: int, d: int)
    requires 0 <= a <= 255 && 0 <= b <= 255 && 0 <= c <= 255 && 0 <= d <= 255
    ensures InBlockedIpv4(Address(a, b, c, d)) <==>
            a == 0 || a == 10 || a == 127 || (a == 169 && b == 254) || (a == 172 && 16 <= b <= 31)
            || (a == 192 && b == 168) || (a == 100 && 64 <= b <= 127) || a >= 224
  {
    WholeOctetRanges(a, b, c, d);
    PartialOctetRanges(a, b, c, d);
  }

  /** `isPrivateIpv4` blocks exactly the four-octet host names whose address lies in a blocked range. */
  lemma PrivateIpv4IsBlockedRange(hostname: string)
    ensures IsPrivateIpv4(hostname) <==>
            ParseIpv4(hostname).Some? &&
            var p := ParseIpv4(hostname).value; InBlockedIpv4(Address(p[0], p[1], p[2], p[3]))
  {
    var parts := ParseIpv4(hostname);
    if parts.Some? {
      var p := parts.value;
      BlockedByOctets(p[0], p[1], p[2], p[3]);
    }
  }

  /** `isIpv6`: the host name holds a colon. */
  predicate IsIpv6(hostname: string) { ':' in hostname }

  /** `isPrivateIpv6`: a raw, case-insensitive string test. */
  predicate IsPrivateIpv6(hostname: string)
  {
    var host := Lower(hostname);
    host == "::" || host == "::1" || StartsWith(host, "fc") || StartsWith(host, "fd")
    || StartsWith(host, "fe80") || StartsWith(host, "2001:db8")
  }

  /** `isNumericHostname`: `^[0-9]+$`. */
  predicate IsNumericHostname(hostname: string) { hostname != [] && AllDigits(hostname) }

  // ---------------------------------------------------------------- validation

  const InvalidUrl := "Invalid URL"
  const UserinfoNotAllowed := "Userinfo not allowed in URL"
  const OnlyHttps := "Only https URLs are allowed"
  const HostnameRequired := "Hostname required"
  const NumericHostname := "Numeric hostnames are not allowed"
  const LocalhostNotAllowed := "Localhost URLs are not allowed"
  const PrivateIpv4 := "Private IPv4 addresses are not allowed"
  const PrivateIpv6 := "Private IPv6 addresses are not allowed"
  const InvalidPort := "Invalid port"
  const PortNotAllowed := "Port not allowed"

  /** The reasons the guard gives. */
  predicate IsValidationReason(reason: string)
  {
    || reason == InvalidUrl || reason == UserinfoNotAllowed || reason == OnlyHttps || reason == HostnameRequired
    || reason == NumericHostname || reason == LocalhostNotAllowed || reason == PrivateIpv4 || reason == PrivateIpv6
    || reason == InvalidPort || reason == PortNotAllowed
  }

  datatype Validation = Accepted(url: Url) | Rejected(reason: string)

  predicate SchemeAllowed(url: Url, s: Settings)
  {
    var protocol := Lower(url.protocol);
    protocol == "https:" || (s.allowHttp && protocol == "http:")
  }

  /** `Number(url.port)` is a positive integer. */
  predicate PortNumberValid(port: string)
  {
    var n := StrToNumber(port);
    IsInteger(n) && n.v > 0.0
  }

  predicate PortListed(port: string, s: Settings)
    requires PortNumberValid(port)
  {
    StrToNumber(port).v.Floor in s.allowedPorts
  }

  /** `validateOutboundUrl(input, opts)`, with `parse` standing for `new URL(input)`. */
  function ValidateOutboundUrl(input: string, opts: UrlOptions, parse: string -> Option<Url>): (r: Validation)
    ensures r.Accepted? ==> parse(input) == Some(r.url)
    ensures r.Rejected? ==> IsValidationReason(r.reason)
  {
    match parse(input)
    case None => Rejected(InvalidUrl)
    case Some(url) =>
      var s := NormalizeOptions(opts);
      if url.username != [] || url.password != [] then Rejected(UserinfoNotAllowed)
      else if !SchemeAllowed(url, s) then Rejected(OnlyHttps)
      else if url.hostname == [] then Rejected(HostnameRequired)
      else if IsNumericHostname(url.hostname) then Rejected(NumericHostname)
      else if IsLocalHostname(url.hostname) then Rejected(LocalhostNotAllowed)
      else if IsPrivateIpv4(url.hostname) then Rejected(PrivateIpv4)
      else if IsIpv6(url.hostname) && IsPrivateIpv6(url.hostname) then Rejected(PrivateIpv6)
      else if url.port != [] && !PortNumberValid(url.port) then Rejected(InvalidPort)
      else if url.port != [] && !PortListed(url.port, s) then Rejected(PortNotAllowed)
      else Accepted(url)
  }

  /** Every check a URL the guard accepts has passed. */
  predicate Safe(url: Url, s: Settings)
  {
    url.username == [] && url.password == [] && SchemeAllowed(url, s) && url.hostname != []
    && !IsNumericHostname(url.hostname) && !IsLocalHostname(url.hostname) && !IsPrivateIpv4(url.hostname)
    && !(IsIpv6(url.hostname) && IsPrivateIpv6(url.hostname))
    && (url.port != [] ==> PortNumberValid(url.port) && PortListed(url.port, s))
  }

  /** An accepted URL passed every check: the parsed URL itself, safe under the options. */
  lemma AcceptedIsSafe(input: string, opts: UrlOptions, parse: string -> Option<Url>)
    ensures ValidateOutboundUrl(input, opts, parse).Accepted? <==>
            parse(input).Some? && Safe(parse(input).value, NormalizeOptions(opts))
  {
  }

  // ---------------------------------------------------------------- host name facts

  lemma LowerConcat(a: string, b: string)
    ensures Lower(a + b) == Lower(a) + Lower(b)
  {
  }

  /** Text with no upper-case ASCII letter and no Kelvin sign is its own lower-case form. */
  lemma LowerOfLower(s: string)
    requires forall i :: 0 <= i < |s| ==> !('A' <= s[i] <= 'Z') && s[i] != '\U{212A}'
    ensures Lower(s) == s
  {
  }

  lemma LowerIdempotent(s: string)
    ensures Lower(Lower(s)) == Lower(s)
  {
    LowerOfLower(Lower(s));
  }

  /** The local test ignores case: a host name and its lower-case form are both local or both not. */
  lemma LocalIgnoresCase(hostname: string)
    ensures IsLocalHostname(hostname) <==> IsLocalHostname(Lower(hostname))
  {
    LowerIdempotent(hostname);
  }

  predicate LowerAscii(s: string)
  {
    forall i :: 0 <= i < |s| ==> 'a' <= s[i] <= 'z' || '0' <= s[i] <= '9' || s[i] == '.' || s[i] == ':'
  }

  lemma LowerAsciiFixed(s: string)
    requires LowerAscii(s)
    ensures Lower(s) == s
  {
    LowerOfLower(s);
  }

  lemma LocalSuffixLower(suffix: string)
    requires suffix == ".localhost" || suffix == ".local" || suffix == ".internal" || suffix == ".lan"
    ensures Lower(suffix) == suffix
  {
    assert LowerAscii(suffix);
    LowerAsciiFixed(suffix);
  }

  /** Every name under one of the local suffixes is refused, whatever the name in front. */
  lemma LocalSuffixBlocked(name: string, suffix: string)
    requires suffix == ".localhost" || suffix == ".local" || suffix == ".internal" || suffix == ".lan"
    ensures IsLocalHostname(name + suffix)
  {
    LocalSuffixLower(suffix);
    LowerConcat(name, suffix);
    var host := Lower(name + suffix);
    assert host[|host| - |suffix|..] == suffix;
  }

  /** The dotted-decimal text of four octets. */
  function Dotted(a: nat, b: nat, c: nat, d: nat): string
  {
    NatToString(a) + ['.'] + (NatToString(b) + ['.'] + (NatToString(c) + ['.'] + NatToString(d)))
  }

  lemma OctetText(n: nat)
    requires n <= 255
    ensures IsOctet(NatToString(n)) && OctetValue(NatToString(n)) == n
  {
    DigitsToNumber(NatToString(n));
    assert (n as real).Floor == n;
  }

  lemma NoDot(n: nat)
    ensures '.' !in NatToString(n)
  {
    var t := NatToString(n);
    assert forall i :: 0 <= i < |t| ==> IsDigit(t[i]);
  }

  /** Four separator-free fields joined by the separator split back into those fields. */
  lemma SplitFour(w: string, x: string, y: string, z: string, sep: char)
    requires sep !in w && sep !in x && sep !in y && sep !in z
    ensures var parts := Split(w + [sep] + (x + [sep] + (y + [sep] + z)), sep);
      |parts| == 4 && parts[0] == w && parts[1] == x && parts[2] == y && parts[3] == z
  {
    SplitNone(z, sep);
    SplitConcat(y, sep, z);
    SplitConcat(x, sep, y + [sep] + z);
    SplitConcat(w, sep, x + [sep] + (y + [sep] + z));
  }

  lemma SplitDotted(a: nat, b: nat, c: nat, d: nat)
    ensures var parts := Split(Dotted(a, b, c, d), '.');
      |parts| == 4 && parts[0] == NatToString(a) && parts[1] == NatToString(b)
      && parts[2] == NatToString(c) && parts[3] == NatToString(d)
  {
    NoDot(a);
    NoDot(b);
    NoDot(c);
    NoDot(d);
    SplitFour(NatToString(a), NatToString(b), NatToString(c), NatToString(d), '.');
  }

  lemma ParseOfOctets(hostname: string, a: int, b: int, c: int, d: int)
    requires var parts := Split(hostname, '.');
      AllOctets(parts) && OctetValue(parts[0]) == a && OctetValue(parts[1]) == b
      && OctetValue(parts[2]) == c && OctetValue(parts[3]) == d
    ensures ParseIpv4(hostname) == Some([a, b, c, d])
  {
  }

  /** Dotted-decimal text of four octets parses back to those octets. */
  lemma ParseDotted(a: nat, b: nat, c: nat, d: nat)
    requires a <= 255 && b <= 255 && c <= 255 && d <= 255
    ensures ParseIpv4(Dotted(a, b, c, d)) == Some([a, b, c, d])
  {
    SplitDotted(a, b, c, d);
    OctetText(a);
    OctetText(b);
    OctetText(c);
    OctetText(d);
    ParseOfOctets(Dotted(a, b, c, d), a, b, c, d);
  }

  /** A dotted-decimal host name is refused exactly when its address lies in a blocked range. */
  lemma DottedBlockedIffInRange(a: nat, b: nat, c: nat, d: nat)
    requires a <= 255 && b <= 255 && c <= 255 && d <= 255
    ensures IsPrivateIpv4(Dotted(a, b, c, d)) <==> InBlockedIpv4(Address(a, b, c, d))
  {
    ParseDotted(a, b, c, d);
    PrivateIpv4IsBlockedRange(Dotted(a, b, c, d));
  }

  /**
   * The IPv6 test is a raw prefix test on the lower-cased text: an address of
   * fe80::/10 spelled outside the `fe80` prefix is not recognised as private.
   */
  lemma LinkLocalSpellingMissed()
    ensures IsIpv6("fe90::1") && !IsPrivateIpv6("fe90::1")
  {
    var host := "fe90::1";
    FeNinetyIsLower();
    assert host[4] == ':';
    NotPrefix("fc", host, 1);
    NotPrefix("fd", host, 1);
    NotPrefix("fe80", host, 2);
    NotPrefix("2001:db8", host, 0);
  }

  lemma FeNinetyIsLower()
    ensures Lower("fe90::1") == "fe90::1"
  {
    assert LowerAscii("fe90::1");
    LowerAsciiFixed("fe90::1");
  }

  /** A text is not a prefix of another it differs from at a position both have. */
  lemma NotPrefix(p: string, s: string, k: nat)
    requires k < |p| && k < |s| && p[k] != s[k]
    ensures !StartsWith(s, p)
  {
  }

  /** The bracketed loopback form is not stripped of its brackets, so it is not recognised either. */
  lemma BracketedLoopbackMissed()
    ensures IsIpv6("[::1]") && !IsPrivateIpv6("[::1]")
  {
    var host := "[::1]";
    LowerOfLower(host);
    assert host[1] == ':';
    assert host[0] == '[';
  }

  /** The host name without the brackets the URL parser keeps around an IPv6 literal. */
  function Unbracketed(hostname: string): (r: string)
    ensures |r| <= |hostname|
    ensures r != hostname ==> |hostname| >= 2 && hostname[0] == '[' && r == hostname[1..|hostname| - 1]
  {
    if |hostname| >= 2 && hostname[0] == '[' && hostname[|hostname| - 1] == ']' then hostname[1..|hostname| - 1]
    else hostname
  }

  /** `fe80::/10` spelled out: the first ten bits 1111 1110 10 leave `fe8`, `fe9`, `fea` or `feb` in front. */
  predicate LinkLocalPrefix(host: string)
  {
    StartsWith(host, "fe8") || StartsWith(host, "fe9") || StartsWith(host, "fea") || StartsWith(host, "feb")
  }

  /**
   * The IPv6 test the code evidently intends: the same prefixes, tested on the
   * host name without its brackets, and the whole of `fe80::/10`.
   */
  predicate IsPrivateIpv6Intended(hostname: string)
  {
    var host := Lower(Unbracketed(hostname));
    host == "::" || host == "::1" || StartsWith(host, "fc") || StartsWith(host, "fd")
    || LinkLocalPrefix(host) || StartsWith(host, "2001:db8")
  }

  /** Every host the written test refuses, the intended one refuses too. */
  lemma IntendedIpv6Stronger(hostname: string)
    ensures IsPrivateIpv6(hostname) ==> IsPrivateIpv6Intended(hostname)
  {
    var host := Lower(hostname);
    if Unbracketed(hostname) != hostname {
      assert host[0] == '[';
      assert !IsPrivateIpv6(hostname) by {
        assert host != "::" && host != "::1";
        NotPrefix("fc", host, 0);
        NotPrefix("fd", host, 0);
        NotPrefix("fe80", host, 0);
        NotPrefix("2001:db8", host, 0);
      }
    } else if StartsWith(host, "fe80") {
      assert host[..3] == "fe80"[..3];
    }
  }

  /** The intended test refuses the bracketed loopback, the bracketed unique-local range and fe90::1. */
  lemma IntendedIpv6Catches()
    ensures IsPrivateIpv6Intended("[::1]")
    ensures IsPrivateIpv6Intended("[fc00::1]")
    ensures IsPrivateIpv6Intended("fe90::1")
  {
    CatchesLoopback();
    CatchesUniqueLocal();
    CatchesFeNinety();
  }

  lemma CatchesLoopback()
    ensures IsPrivateIpv6Intended("[::1]")
  {
    assert Unbracketed("[::1]") == "::1";
    LowerOfLower("::1");
  }

  lemma CatchesUniqueLocal()
    ensures IsPrivateIpv6Intended("[fc00::1]")
  {
    assert Unbracketed("[fc00::1]") == "fc00::1";
    assert LowerAscii("fc00::1");
    LowerAsciiFixed("fc00::1");
  }

  lemma CatchesFeNinety()
    ensures IsPrivateIpv6Intended("fe90::1")
  {
    assert Unbracketed("fe90::1") == "fe90::1";
    FeNinetyIsLower();
  }

  // ---------------------------------------------------------------- body reader

  type Bytes = seq<bv8>

  /**
   * What the guard reads of a response: its status, the `location` and
   * `content-length` headers (absent or text) and its body stream, if any, as the
   * finite sequence of values the stream reader yields (an absent value is skipped).
   */
  datatype Response = Response(status: int, location: Option<string>, contentLength: Option<string>,
                               body: Option<seq<Option<Bytes>>>)

  datatype BodyResult = Body(text: string, bytes: nat) | TooLarge

  /** The chunks actually delivered, in order. */
  function Present(stream: seq<Option<Bytes>>): (r: seq<Bytes>)
    ensures |r| <= |stream|
  {
    if stream == [] then []
    else
      var init := Present(stream[..|stream| - 1]);
      match stream[|stream| - 1]
      case None => init
      case Some(chunk) => init + [chunk]
  }

  /** The number of bytes in a list of chunks. */
  function Total(chunks: seq<Bytes>): nat
  {
    if chunks == [] then 0 else Total(chunks[..|chunks| - 1]) + |chunks[|chunks| - 1]|
  }

  /** The chunks concatenated in order. */
  function Flatten(chunks: seq<Bytes>): (r: Bytes)
    ensures |r| == Total(chunks)
  {
    if chunks == [] then [] else Flatten(chunks[..|chunks| - 1]) + chunks[|chunks| - 1]
  }

  lemma {:induction false} TotalPrefix(chunks: seq<Bytes>, k: nat)
    requires k <= |chunks|
    ensures Total(chunks[..k]) <= Total(chunks)
    decreases |chunks|
  {
    if k < |chunks| {
      var init := chunks[..|chunks| - 1];
      assert chunks[..k] == init[..k];
      TotalPrefix(init, k);
    } else {
      assert chunks[..k] == chunks;
    }
  }

  /** The running total passes `max` at some delivered chunk. */
  predicate Overflows(stream: seq<Option<Bytes>>, max: int)
  {
    exists k :: 0 <= k < |stream| && stream[k].Some? && Total(Present(stream[..k + 1])) > max
  }

  /** A non-empty `content-length` that reads as a finite number above the limit. */
  predicate DeclaredTooLarge(contentLength: Option<string>, max: int)
  {
    contentLength.Some? && contentLength.value != []
    && var len := StrToNumber(contentLength.value);
    len.Finite? && len.v > max as real
  }

  /** What `readBodyWithLimit` produces, `decode` standing for UTF-8 decoding. */
  function BodySpec(resp: Response, max: int, decode: Bytes -> string): (r: BodyResult)
  {
    if DeclaredTooLarge(resp.contentLength, max) then TooLarge
    else if resp.body.None? then Body("", 0)
    else if Overflows(resp.body.value, max) then TooLarge
    else
      var chunks := Present(resp.body.value);
      Body(decode(Flatten(chunks)), Total(chunks))
  }

  lemma PresentSnoc(stream: seq<Option<Bytes>>, value: Option<Bytes>)
    ensures Present(stream + [value]) == if value.Some? then Present(stream) + [value.value] else Present(stream)
  {
    assert (stream + [value])[..|stream|] == stream;
  }

  lemma NotOverflowsSnoc(stream: seq<Option<Bytes>>, value: Option<Bytes>, max: int)
    requires !Overflows(stream, max)
    requires value.Some? ==> Total(Present(stream + [value])) <= max
    ensures !Overflows(stream + [value], max)
  {
    var s := stream + [value];
    forall k | 0 <= k < |s| && s[k].Some?
      ensures Total(Present(s[..k + 1])) <= max
    {
      if k < |stream| {
        assert s[..k + 1] == stream[..k + 1];
      } else {
        assert s[..k + 1] == s;
      }
    }
  }

  /** `Uint8Array.prototype.set(src, offset)`: overwrites `src.length` bytes from `offset` on. */
  method SetAt(dst: array<bv8>, src: Bytes, offset: nat)
    requires offset + |src| <= dst.Length
    modifies dst
    ensures dst[..] == old(dst[..offset]) + src + old(dst[offset + |src|..])
  {
    forall j | 0 <= j < |src| {
      dst[offset + j] := src[j];
    }
    assert dst[..] == old(dst[..offset]) + src + old(dst[offset + |src|..]);
  }

  /** The chunks delivered up to and including read `i`. */
  lemma PresentStep(stream: seq<Option<Bytes>>, i: nat)
    requires i < |stream|
    ensures Present(stream[..i + 1])
      == if stream[i].Some? then Present(stream[..i]) + [stream[i].value] else Present(stream[..i])
  {
    assert stream[..i + 1] == stream[..i] + [stream[i]];
    PresentSnoc(stream[..i], stream[i]);
  }

  lemma TotalSnoc(chunks: seq<Bytes>, chunk: Bytes)
    ensures Total(chunks + [chunk]) == Total(chunks) + |chunk|
  {
    assert (chunks + [chunk])[..|chunks|] == chunks;
  }

  lemma OverflowAt(stream: seq<Option<Bytes>>, i: nat, max: int)
    requires i < |stream| && stream[i].Some?
    requires Total(Present(stream[..i + 1])) > max
    ensures Overflows(stream, max)
  {
    assert 0 <= i < |stream| && stream[i].Some? && Total(Present(stream[..i + 1])) > max;
  }

  lemma NotOverflowsStep(stream: seq<Option<Bytes>>, i: nat, max: int)
    requires i < |stream| && !Overflows(stream[..i], max)
    requires stream[i].Some? ==> Total(Present(stream[..i + 1])) <= max
    ensures !Overflows(stream[..i + 1], max)
  {
    assert stream[..i + 1] == stream[..i] + [stream[i]];
    NotOverflowsSnoc(stream[..i], stream[i], max);
  }

  /**
   * The read loop of `readBodyWithLimit`: collects the delivered chunks and their
   * running total, stopping as soon as the total exceeds `maxBytes`.
   */
  method ReadChunks(stream: seq<Option<Bytes>>, maxBytes: int) returns (chunks: seq<Bytes>, received: nat, tooLarge: bool)
    ensures tooLarge <==> Overflows(stream, maxBytes)
    ensures !tooLarge ==> chunks == Present(stream) && received == Total(chunks)
  {
    chunks, received, tooLarge := [], 0, false;
    var i := 0;
    while i < |stream|
      invariant 0 <= i <= |stream|
      invariant chunks == Present(stream[..i])
      invariant received == Total(chunks)
      invariant !Overflows(stream[..i], maxBytes)
    {
      var value := stream[i];
      ReadStep(stream, i, maxBytes, chunks, received);
      if value.Some? {
        received := received + |value.value|;
        if received > maxBytes {
          return chunks, received, true;
        }
        chunks := chunks + [value.value];
      }
      i := i + 1;
    }
    assert stream[..i] == stream;
  }

  /** One read of the loop: what the next chunk does to the collected chunks, the total and the verdict. */
  lemma ReadStep(stream: seq<Option<Bytes>>, i: nat, max: int, chunks: seq<Bytes>, received: nat)
    requires i < |stream| && chunks == Present(stream[..i]) && received == Total(chunks)
    requires !Overflows(stream[..i], max)
    ensures stream[i].None? ==> Present(stream[..i + 1]) == chunks && !Overflows(stream[..i + 1], max)
    ensures stream[i].Some? && received + |stream[i].value| > max ==> Overflows(stream, max)
    ensures stream[i].Some? && received + |stream[i].value| <= max ==>
      && Present(stream[..i + 1]) == chunks + [stream[i].value]
      && Total(chunks + [stream[i].value]) == received + |stream[i].value|
      && !Overflows(stream[..i + 1], max)
  {
    PresentStep(stream, i);
    if stream[i].Some? {
      TotalSnoc(chunks, stream[i].value);
      if received + |stream[i].value| > max {
        OverflowAt(stream, i, max);
        return;
      }
    }
    NotOverflowsStep(stream, i, max);
  }

  /** Copies the chunks, in order, into a fresh buffer of `size` bytes. */
  method Combine(chunks: seq<Bytes>, size: nat) returns (combined: array<bv8>)
    requires size == Total(chunks)
    ensures fresh(combined)
    ensures combined[..] == Flatten(chunks)
  {
    combined := new bv8[size];
    var offset := 0;
    var k := 0;
    while k < |chunks|
      invariant 0 <= k <= |chunks|
      invariant offset == Total(chunks[..k]) <= size
      invariant combined[..offset] == Flatten(chunks[..k])
    {
      var chunk := chunks[k];
      assert chunks[..k + 1][..k] == chunks[..k];
      TotalPrefix(chunks, k + 1);
      ghost var before := combined[..offset];
      SetAt(combined, chunk, offset);
      assert combined[..offset] == before;
      assert combined[..offset + |chunk|] == before + chunk;
      offset := offset + |chunk|;
      k := k + 1;
    }
    assert chunks[..k] == chunks;
  }

  lemma OverflowsExtend(stream: seq<Option<Bytes>>, value: Option<Bytes>, max: int)
    requires Overflows(stream, max)
    ensures Overflows(stream + [value], max)
  {
    var s := stream + [value];
    var k :| 0 <= k < |stream| && stream[k].Some? && Total(Present(stream[..k + 1])) > max;
    assert s[..k + 1] == stream[..k + 1];
  }

  lemma OverflowsSnoc(stream: seq<Option<Bytes>>, value: Option<Bytes>, max: int)
    ensures Overflows(stream + [value], max)
      <==> Overflows(stream, max) || (value.Some? && Total(Present(stream + [value])) > max)
  {
    var s := stream + [value];
    if Overflows(stream, max) {
      OverflowsExtend(stream, value, max);
    } else if value.Some? && Total(Present(s)) > max {
      assert s[..|stream| + 1] == s;
    } else {
      NotOverflowsSnoc(stream, value, max);
    }
  }

  /**
   * With a non-negative limit, giving up at the first chunk that passes the limit
   * is the same as comparing the whole body's size with the limit.
   */
  lemma {:induction false} OverflowIffTotal(stream: seq<Option<Bytes>>, max: int)
    requires max >= 0
    ensures Overflows(stream, max) <==> Total(Present(stream)) > max
    decreases |stream|
  {
    if stream != [] {
      var init, value := stream[..|stream| - 1], stream[|stream| - 1];
      assert stream == init + [value];
      OverflowIffTotal(init, max);
      OverflowsSnoc(init, value, max);
      PresentSnoc(init, value);
    }
  }

  /**
   * A body that is read successfully has exactly the received byte count, within
   * a non-negative limit, and its bytes are the delivered chunks in order.
   */
  lemma BodyWithinLimit(resp: Response, max: int, decode: Bytes -> string)
    requires max >= 0
    ensures var r := BodySpec(resp, max, decode);
      r.Body? ==> (r.bytes <= max
                   && (resp.body.Some? ==> (r.text == decode(Flatten(Present(resp.body.value)))
                                            && r.bytes == |Flatten(Present(resp.body.value))|)))
  {
    if resp.body.Some? {
      OverflowIffTotal(resp.body.value, max);
    }
  }

  /**
   * `readBodyWithLimit`: refuses a declared length above the limit, then reads
   * the stream, giving up as soon as the running total exceeds the limit, and
   * finally copies the chunks into one buffer of exactly the received size.
   */
  method ReadBodyWithLimit(resp: Response, maxBytes: int, decode: Bytes -> string) returns (r: BodyResult)
    ensures r == BodySpec(resp, maxBytes, decode)
  {
    if resp.contentLength.Some? && resp.contentLength.value != [] {
      var len := StrToNumber(resp.contentLength.value);
      if len.Finite? && len.v > maxBytes as real {
        return TooLarge;
      }
    }
    if resp.body.None? {
      return Body("", 0);
    }
    var chunks, received, tooLarge := ReadChunks(resp.body.value, maxBytes);
    if tooLarge {
      return TooLarge;
    }
    var combined := Combine(chunks, received);
    r := Body(decode(combined[..]), received);
  }

  // ---------------------------------------------------------------- redirect loop

  const ResponseTooLarge := "Response too large"
  const RedirectWithoutLocation := "Redirect without location"
  const TooManyRedirects := "Too many redirects"

  /** `FetchLimits`: the URL options plus the three optional limits. */
  datatype FetchLimits = FetchLimits(url: UrlOptions, timeoutMs: Option<int>, maxBytes: Option<int>,
                                     maxRedirects: Option<int>)

  function MaxBytes(l: FetchLimits): int
  {
    if l.maxBytes.Some? then l.maxBytes.value else DefaultMaxBytes
  }

  function MaxRedirects(l: FetchLimits): int
  {
    if l.maxRedirects.Some? then l.maxRedirects.value else DefaultMaxRedirects
  }

  /** What one request yields: a response, or the message of the error `fetch` throws. */
  datatype Outcome = Responded(resp: Response) | NetworkError(message: string)

  /**
   * The outside world of the fetch loop: URL parsing, resolution of a `location`
   * against the current URL (`None` when `new URL` throws), the network (the
   * outcome of the n-th request of the loop for a URL) and UTF-8 decoding.
   */
  datatype World = World(parse: string -> Option<Url>, resolve: (string, Url) -> Option<string>,
                         fetch: (nat, Url) -> Outcome, decode: Bytes -> string)

  /**
   * The result of `fetchTextWithLimits`: the response, the message of an error it
   * throws itself, or the message of the error the network threw.
   */
  datatype FetchResult = Fetched(status: int, text: string, bytes: nat) | Failed(reason: string)
                       | NetworkFailed(message: string)

  /** `isRedirect`. */
  predicate IsRedirect(status: int)
  {
    status == 301 || status == 302 || status == 303 || status == 307 || status == 308
  }

  /** The request for `current`, made after `redirects` redirects have been followed. */
  function Follow(current: Url, redirects: nat, l: FetchLimits, w: World): FetchResult
    decreases MaxRedirects(l) - redirects
  {
    match w.fetch(redirects, current)
    case NetworkError(message) => NetworkFailed(message)
    case Responded(resp) =>
      if IsRedirect(resp.status) then
        if resp.location.None? || resp.location.value == [] then Failed(RedirectWithoutLocation)
        else if redirects >= MaxRedirects(l) then Failed(TooManyRedirects)
        else match w.resolve(resp.location.value, current)
          case None => Failed(InvalidUrl)
          case Some(next) =>
            match ValidateOutboundUrl(next, l.url, w.parse)
            case Rejected(reason) => Failed(reason)
            case Accepted(url) => Follow(url, redirects + 1, l, w)
      else
        match BodySpec(resp, MaxBytes(l), w.decode)
        case TooLarge => Failed(ResponseTooLarge)
        case Body(text, bytes) => Fetched(resp.status, text, bytes)
  }

  /** `fetchTextWithLimits`: validate the input, then follow redirects from it. */
  function Fetch(input: string, l: FetchLimits, w: World): FetchResult
  {
    match ValidateOutboundUrl(input, l.url, w.parse)
    case Rejected(reason) => Failed(reason)
    case Accepted(url) => Follow(url, 0, l, w)
  }

  /** Where the response to `current`, the n-th request, redirects to, once resolved. */
  function HopTarget(n: nat, current: Url, w: World): Option<string>
  {
    match w.fetch(n, current)
    case NetworkError(_) => None
    case Responded(resp) =>
      if IsRedirect(resp.status) && resp.location.Some? && resp.location.value != []
      then w.resolve(resp.location.value, current)
      else None
  }

  /** The validation reasons are all different from the fetch loop's own messages. */
  lemma RejectionIsNotLoopFailure(input: string, opts: UrlOptions, parse: string -> Option<Url>)
    ensures var v := ValidateOutboundUrl(input, opts, parse);
      v.Rejected? ==> v.reason != TooManyRedirects && v.reason != ResponseTooLarge
  {
    assert !IsValidationReason(TooManyRedirects) && !IsValidationReason(ResponseTooLarge);
  }

  lemma LoopFailuresDiffer()
    ensures TooManyRedirects != InvalidUrl && TooManyRedirects != RedirectWithoutLocation
    ensures TooManyRedirects != ResponseTooLarge
  {
    assert TooManyRedirects[0] == 'T' && InvalidUrl[0] == 'I';
    assert RedirectWithoutLocation[0] == 'R' && ResponseTooLarge[0] == 'R';
  }

  /** `next` is the validated target of the redirect answering `current`, the n-th request. */
  predicate RedirectHop(n: nat, current: Url, next: Url, l: FetchLimits, w: World)
  {
    HopTarget(n, current, w).Some? && ValidateOutboundUrl(HopTarget(n, current, w).value, l.url, w.parse) == Accepted(next)
  }

  /**
   * `requested` starts with the validated input and each later URL is the
   * validated target of the previous one's redirect; every URL in it is safe.
   */
  predicate RedirectChain(input: string, requested: seq<Url>, l: FetchLimits, w: World)
  {
    && requested != []
    && ValidateOutboundUrl(input, l.url, w.parse) == Accepted(requested[0])
    && (forall i :: 0 < i < |requested| ==> RedirectHop(i - 1, requested[i - 1], requested[i], l, w))
  }

  /** Every URL of a redirect chain passed validation, so none of them is refused by the guard. */
  lemma RedirectChainSafe(input: string, requested: seq<Url>, l: FetchLimits, w: World)
    requires RedirectChain(input, requested, l, w)
    ensures forall i :: 0 <= i < |requested| ==> Safe(requested[i], NormalizeOptions(l.url))
  {
    forall i | 0 <= i < |requested|
      ensures Safe(requested[i], NormalizeOptions(l.url))
    {
      if i == 0 {
        AcceptedIsSafe(input, l.url, w.parse);
      } else {
        assert RedirectHop(i - 1, requested[i - 1], requested[i], l, w);
        AcceptedIsSafe(HopTarget(i - 1, requested[i - 1], w).value, l.url, w.parse);
      }
    }
  }

  lemma RedirectChainStep(input: string, requested: seq<Url>, next: Url, l: FetchLimits, w: World)
    requires RedirectChain(input, requested, l, w)
    requires RedirectHop(|requested| - 1, requested[|requested| - 1], next, l, w)
    ensures RedirectChain(input, requested + [next], l, w)
  {
  }

  /** At most `maxRedirects` redirects are followed, none when it is negative. */
  function RequestCap(l: FetchLimits): nat
  {
    if MaxRedirects(l) >= 0 then MaxRedirects(l) + 1 else 1
  }

  /**
   * The loop of `fetchTextWithLimits`. Besides its result it returns the URLs it
   * requested, in order: the validated input first, then one per redirect
   * followed, each the validated target of the previous response's location.
   */
  method FetchTextWithLimits(input: string, l: FetchLimits, w: World) returns (r: FetchResult, requested: seq<Url>)
    ensures r == Fetch(input, l, w)
    ensures requested == [] <==> ValidateOutboundUrl(input, l.url, w.parse).Rejected?
    ensures requested != [] ==> RedirectChain(input, requested, l, w)
    ensures |requested| <= RequestCap(l)
    ensures r == Failed(TooManyRedirects) ==> |requested| == RequestCap(l)
  {
    LoopFailuresDiffer();
    var validated := ValidateOutboundUrl(input, l.url, w.parse);
    if validated.Rejected? {
      RejectionIsNotLoopFailure(input, l.url, w.parse);
      return Failed(validated.reason), [];
    }
    var maxBytes := MaxBytes(l);
    var maxRedirects := MaxRedirects(l);
    var current := validated.url;
    var redirects: nat := 0;
    requested := [current];
    while true
      invariant |requested| == redirects + 1 && requested[redirects] == current
      invariant redirects <= RequestCap(l) - 1
      invariant RedirectChain(input, requested, l, w)
      invariant Fetch(input, l, w) == Follow(current, redirects, l, w)
      decreases maxRedirects - redirects
    {
      var outcome := w.fetch(redirects, current);
      if outcome.NetworkError? {
        return NetworkFailed(outcome.message), requested;
      }
      var resp := outcome.resp;
      if IsRedirect(resp.status) {
        if resp.location.None? || resp.location.value == [] {
          return Failed(RedirectWithoutLocation), requested;
        }
        if redirects >= maxRedirects {
          return Failed(TooManyRedirects), requested;
        }
        var next := w.resolve(resp.location.value, current);
        if next.None? {
          return Failed(InvalidUrl), requested;
        }
        var checked := ValidateOutboundUrl(next.value, l.url, w.parse);
        if checked.Rejected? {
          RejectionIsNotLoopFailure(next.value, l.url, w.parse);
          return Failed(checked.reason), requested;
        }
        RedirectChainStep(input, requested, checked.url, l, w);
        current := checked.url;
        redirects := redirects + 1;
        requested := requested + [current];
      } else {
        var body := ReadBodyWithLimit(resp, maxBytes, w.decode);
        if body.TooLarge? {
          return Failed(ResponseTooLarge), requested;
        }
        return Fetched(resp.status, body.text, body.bytes), requested;
      }
    }
  }

  lemma {:induction false} FollowFetchedIsFinal(current: Url, redirects: nat, l: FetchLimits, w: World)
    ensures var r := Follow(current, redirects, l, w);
      r.Fetched? ==> (!IsRedirect(r.status) && (MaxBytes(l) >= 0 ==> r.bytes <= MaxBytes(l)))
    decreases MaxRedirects(l) - redirects
  {
    match w.fetch(redirects, current)
    case NetworkError(_) =>
    case Responded(resp) =>
      if IsRedirect(resp.status) {
        if resp.location.Some? && resp.location.value != [] && redirects < MaxRedirects(l) {
          var next := w.resolve(resp.location.value, current);
          if next.Some? && ValidateOutboundUrl(next.value, l.url, w.parse).Accepted? {
            FollowFetchedIsFinal(ValidateOutboundUrl(next.value, l.url, w.parse).url, redirects + 1, l, w);
          }
        }
      } else if MaxBytes(l) >= 0 {
        BodyWithinLimit(resp, MaxBytes(l), w.decode);
      }
  }

  /**
   * A fetched result is never a redirect, even a 4xx or 5xx one is returned as
   * is, and its body is within a non-negative byte limit.
   */
  lemma FetchedIsFinal(input: string, l: FetchLimits, w: World)
    ensures var r := Fetch(input, l, w);
      r.Fetched? ==> (!IsRedirect(r.status) && (MaxBytes(l) >= 0 ==> r.bytes <= MaxBytes(l)))
  {
    var v := ValidateOutboundUrl(input, l.url, w.parse);
    if v.Accepted? {
      FollowFetchedIsFinal(v.url, 0, l, w);
    }
  }

  /** Any non-redirect first answer, whatever its status, is returned with that status. */
  lemma NonRedirectReturned(input: string, l: FetchLimits, w: World, url: Url, resp: Response)
    requires ValidateOutboundUrl(input, l.url, w.parse) == Accepted(url)
    requires w.fetch(0, url) == Responded(resp) && !IsRedirect(resp.status)
    requires BodySpec(resp, MaxBytes(l), w.decode).Body?
    ensures Fetch(input, l, w).Fetched? && Fetch(input, l, w).status == resp.status
  {
  }
}
