/**
 * The server-side request forgery guard and the header filter of
 * lib/security.ts.
 *
 * The guard is modelled over the URL as the WHATWG URL parser splits it
 * (hostname, port, pathname), or over the message of the error the parser
 * raised. The parser itself is not part of this model: in particular it
 * lower-cases host names, writes an IPv6 literal as a host name with its
 * square brackets ("[fc00::1]") and writes a scheme's default port as "".
 * Each regular expression of the source is written out as a predicate.
 */
module Security {
  import opened Wrappers
  import opened Text

  datatype ParsedUrl = Unparseable(message: string) | Url(hostname: string, port: string, pathname: string)

  datatype SecurityCheck = SecurityCheck(isValid: bool, error: Option<string>)

  const DeniedMessage := "Access denied for security reasons: cannot use local or private URLs"
  const InvalidPrefix := "Invalid URL: "

  // ---------------------------------------------------------------------
  // Dotted digit runs: `[0-9]{1,3}` groups joined by dots
  // ---------------------------------------------------------------------

  /** The number of digits `s` starts with. */
  function LeadingDigits(s: string): (n: nat)
    ensures n <= |s|
  {
    if s == [] || !IsDigit(s[0]) then 0 else 1 + LeadingDigits(s[1..])
  }

  /** `s` is exactly `groups` runs of one to three digits separated by single dots (no range check). */
  predicate DigitGroups(s: string, groups: nat)
    decreases groups
  {
    var d := LeadingDigits(s);
    && groups >= 1
    && 1 <= d <= 3
    && (if groups == 1 then d == |s|
        else d < |s| && s[d] == '.' && DigitGroups(s[d + 1..], groups - 1))
  }

  /** `1[6-9]|2[0-9]|3[0-1]`: the second octet of 172.16.0.0/12. */
  predicate Is172Second(t: string) {
    && |t| == 2
    && (|| (t[0] == '1' && '6' <= t[1] <= '9')
        || (t[0] == '2' && IsDigit(t[1]))
        || (t[0] == '3' && '0' <= t[1] <= '1'))
  }

  /** `6[4-9]|[7-9][0-9]|1[0-1][0-9]|12[0-7]`: the second octet of 100.64.0.0/10. */
  predicate IsCgnatSecond(t: string) {
    || (|t| == 2 && t[0] == '6' && '4' <= t[1] <= '9')
    || (|t| == 2 && '7' <= t[0] <= '9' && IsDigit(t[1]))
    || (|t| == 3 && t[0] == '1' && '0' <= t[1] <= '1' && IsDigit(t[2]))
    || (|t| == 3 && t[0] == '1' && t[1] == '2' && '0' <= t[2] <= '7')
  }

  /** `s` is a digit run accepted by `second`, a dot, and `groups` digit runs. */
  predicate SecondThenGroups(s: string, second: string -> bool, groups: nat) {
    var d := LeadingDigits(s);
    d < |s| && second(s[..d]) && s[d] == '.' && DigitGroups(s[d + 1..], groups)
  }

  /** A string of one to three digits: what `[0-9]{1,3}` matches. */
  predicate Octet(s: string) {
    1 <= |s| <= 3 && AllDigits(s)
  }

  // ---------------------------------------------------------------------
  // The host, port and path tests, in the order of the source's disjunction
  // ---------------------------------------------------------------------

  /** localhost, 127.0.0.0/8 written as four digit runs, and the IPv6 loopback literal. */
  predicate IsLoopback(h: string) {
    || h == "localhost"
    || h == "127.0.0.1"
    || (StartsWith(h, "127.") && DigitGroups(h[4..], 3))
    || h == "[::1]"
  }

  /** The private ranges of RFC 1918: 10/8, 172.16/12 and 192.168/16. */
  predicate IsPrivateV4(h: string) {
    || (StartsWith(h, "10.") && DigitGroups(h[3..], 3))
    || (StartsWith(h, "172.") && SecondThenGroups(h[4..], Is172Second, 2))
    || (StartsWith(h, "192.168.") && DigitGroups(h[8..], 2))
  }

  /** Link-local 169.254/16 (RFC 3927). */
  predicate IsLinkLocal(h: string) {
    StartsWith(h, "169.254.") && DigitGroups(h[8..], 2)
  }

  /** Carrier-grade NAT 100.64/10 (RFC 6598). */
  predicate IsCarrierNat(h: string) {
    StartsWith(h, "100.") && SecondThenGroups(h[4..], IsCgnatSecond, 2)
  }

  predicate IsLowerHex(c: char) {
    '0' <= c <= '9' || 'a' <= c <= 'f'
  }

  /** `^fc00:`, `^fd[0-9a-f]{2}:` and `^fe80:`, tested on the host name as it is. */
  predicate HasPrivateV6Prefix(h: string) {
    || StartsWith(h, "fc00:")
    || (|h| >= 5 && h[0] == 'f' && h[1] == 'd' && IsLowerHex(h[2]) && IsLowerHex(h[3]) && h[4] == ':')
    || StartsWith(h, "fe80:")
  }

  const InternalSuffixes: seq<string> := ["local", "internal", "private", "localhost", "corp", "home", "lan"]

  /** `\.(local|internal|private|localhost|corp|home|lan)$`. */
  predicate HasInternalSuffix(h: string) {
    exists i | 0 <= i < |InternalSuffixes| :: EndsWith(h, "." + InternalSuffixes[i])
  }

  const MetadataProviders: seq<string> := ["aws", "google", "azure", "do"]

  /** `(^|\.)metadata\.(aws|google|azure|do)\.` matches at position `i`. */
  predicate MetadataAt(h: string, i: int) {
    && 0 <= i <= |h|
    && (i == 0 || h[i - 1] == '.')
    && exists p | 0 <= p < |MetadataProviders| :: OccursAt(h, "metadata." + MetadataProviders[p] + ".", i)
  }

  /** Cloud metadata services: the name pattern anywhere in the host, or the well-known address. */
  predicate IsMetadataHost(h: string) {
    (exists i | 0 <= i <= |h| :: MetadataAt(h, i)) || h == "169.254.169.254"
  }

  const SensitivePorts: set<int> :=
    {21, 22, 23, 25, 80, 111, 135, 137, 139, 389, 445, 1433, 1521,
     3306, 3389, 5432, 5900, 6379, 9200, 11211, 27017}

  /** `Number(port)`: the empty string is 0, a digit string its value, anything else NaN (None). */
  function PortNumber(port: string): (n: Option<int>)
    ensures port == "" ==> n == Some(0)
  {
    if AllDigits(port) then Some(DecimalValue(port)) else None
  }

  predicate IsSensitivePort(port: string) {
    PortNumber(port).Some? && PortNumber(port).value in SensitivePorts
  }

  /** `\.well-known\/(webfinger|host-meta)` anywhere in the path, or `/.discovery` anywhere in it. */
  predicate IsSensitivePath(path: string) {
    || Contains(path, ".well-known/webfinger")
    || Contains(path, ".well-known/host-meta")
    || Contains(path, "/.discovery")
  }

  /** The source's whole disjunction. */
  predicate BlockedAsWritten(u: ParsedUrl)
    requires u.Url?
  {
    var h := u.hostname;
    || IsLoopback(h)
    || IsPrivateV4(h)
    || IsLinkLocal(h)
    || IsCarrierNat(h)
    || HasPrivateV6Prefix(h)
    || HasInternalSuffix(h)
    || IsMetadataHost(h)
    || IsSensitivePort(u.port)
    || IsSensitivePath(u.pathname)
  }

  /** An IPv6 literal as the URL parser writes it: the same prefixes after the opening bracket. */
  predicate IsBracketedPrivateV6(h: string) {
    StartsWith(h, "[") && HasPrivateV6Prefix(h[1..])
  }

  /** The disjunction with the private IPv6 prefixes also tested inside the brackets. */
  predicate Blocked(u: ParsedUrl)
    requires u.Url?
  {
    BlockedAsWritten(u) || IsBracketedPrivateV6(u.hostname)
  }

  /** `validateUrlSecurity` as the source writes it. */
  function ValidateUrlSecurityAsWritten(u: ParsedUrl): (r: SecurityCheck)
    ensures r.isValid <==> u.Url? && !BlockedAsWritten(u)
    ensures r.isValid ==> r.error == None
    ensures u.Url? && !r.isValid ==> r.error == Some(DeniedMessage)
    ensures u.Unparseable? ==> r.error.Some? && StartsWith(r.error.value, InvalidPrefix)
  {
    match u
    case Unparseable(message) => SecurityCheck(false, Some(InvalidPrefix + message))
    case Url(_, _, _) =>
      if BlockedAsWritten(u) then SecurityCheck(false, Some(DeniedMessage)) else SecurityCheck(true, None)
  }

  /**
   * The corrected guard: `validateUrlSecurity` with the IPv6 tests also
   * applied inside the brackets of an IPv6 literal. The route handler uses
   * the guard as written; this one states the evidently intended behaviour.
   */
  function ValidateUrlSecurity(u: ParsedUrl): (r: SecurityCheck)
    ensures r.isValid <==> u.Url? && !Blocked(u)
    ensures r.isValid ==> r.error == None
    ensures u.Url? && !r.isValid ==> r.error == Some(DeniedMessage)
    ensures u.Unparseable? ==> r.error.Some? && StartsWith(r.error.value, InvalidPrefix)
  {
    match u
    case Unparseable(message) => SecurityCheck(false, Some(InvalidPrefix + message))
    case Url(_, _, _) =>
      if Blocked(u) then SecurityCheck(false, Some(DeniedMessage)) else SecurityCheck(true, None)
  }

  // ---------------------------------------------------------------------
  // What the guard rejects
  // ---------------------------------------------------------------------

  lemma {:induction false} LeadingDigitsOfRun(a: string, rest: string)
    requires AllDigits(a)
    requires rest == [] || !IsDigit(rest[0])
    ensures LeadingDigits(a + rest) == |a|
  {
    if a != [] {
      assert (a + rest)[1..] == a[1..] + rest;
      LeadingDigitsOfRun(a[1..], rest);
    } else {
      assert a + rest == rest;
    }
  }

  /** Digit runs joined by dots are recognised whatever their value. */
  lemma {:induction false} OctetsAreGroups(a: string, s: string, n: nat)
    requires Octet(a)
    requires n == 0 ==> s == []
    requires n > 0 ==> DigitGroups(s, n)
    ensures DigitGroups(if n == 0 then a else a + "." + s, n + 1)
  {
    if n == 0 {
      LeadingDigitsOfRun(a, []);
      assert a + [] == a;
    } else {
      var t := a + "." + s;
      LeadingDigitsOfRun(a, "." + s);
      assert a + ("." + s) == t;
      assert t[|a| + 1..] == s;
    }
  }

  lemma ThreeOctets(a: string, b: string, c: string)
    requires Octet(a) && Octet(b) && Octet(c)
    ensures DigitGroups(a + "." + b + "." + c, 3)
  {
    OctetsAreGroups(c, [], 0);
    OctetsAreGroups(b, c, 1);
    OctetsAreGroups(a, b + "." + c, 2);
    assert a + "." + (b + "." + c) == a + "." + b + "." + c;
  }

  lemma TwoOctets(a: string, b: string)
    requires Octet(a) && Octet(b)
    ensures DigitGroups(a + "." + b, 2)
  {
    OctetsAreGroups(b, [], 0);
    OctetsAreGroups(a, b, 1);
  }

  /** The two regular-expression alternatives are the decimal numbers 16..31 and 64..127. */
  lemma {:induction false} SecondOctetRanges(t: string)
    requires AllDigits(t) && 1 <= |t| <= 3 && (|t| == 1 || t[0] != '0')
    ensures Is172Second(t) <==> 16 <= DecimalValue(t) <= 31
    ensures IsCgnatSecond(t) <==> 64 <= DecimalValue(t) <= 127
  {
    var d0 := t[0] as int - '0' as int;
    assert IsDigit(t[0]);
    assert DecimalValue(t[..1]) == d0 by {
      assert t[..1][..0] == [];
    }
    if |t| >= 2 {
      assert IsDigit(t[1]) by { assert AllDigits(t[1..]); }
      var d1 := t[1] as int - '0' as int;
      assert t[..2][..1] == t[..1];
      assert DecimalValue(t[..2]) == d0 * 10 + d1;
      if |t| == 3 {
        assert IsDigit(t[2]) by { assert AllDigits(t[1..]); assert AllDigits(t[2..]); }
        assert t[..3] == t;
        assert t[..3][..2] == t[..2];
        assert DecimalValue(t) == d0 * 100 + d1 * 10 + (t[2] as int - '0' as int);
      } else {
        assert t[..2] == t;
      }
    } else {
      assert t[..1] == t;
    }
  }

  /** A run accepted by `second`, a dot, then digit groups. */
  lemma SecondThenGroupsIntro(s: string, x: string, rest: string, second: string -> bool, groups: nat)
    requires AllDigits(x) && second(x)
    requires DigitGroups(rest, groups)
    requires s == x + ("." + rest)
    ensures SecondThenGroups(s, second, groups)
  {
    LeadingDigitsOfRun(x, "." + rest);
    assert s[..|x|] == x;
    assert s[|x| + 1..] == rest;
  }

  /** A run accepted by `second`, then a dot and two digit runs. */
  lemma SecondThenOctets(x: string, b: string, c: string, second: string -> bool)
    requires AllDigits(x) && second(x)
    requires Octet(b) && Octet(c)
    ensures SecondThenGroups(x + "." + b + "." + c, second, 2)
  {
    TwoOctets(b, c);
    SecondThenGroupsIntro(x + "." + b + "." + c, x, b + "." + c, second, 2);
  }

  /** The loopback block, written as four digit runs of any value, is rejected. */
  lemma LoopbackRejected(a: string, b: string, c: string, port: string, path: string)
    requires Octet(a) && Octet(b) && Octet(c)
    ensures !ValidateUrlSecurityAsWritten(Url("127." + a + "." + b + "." + c, port, path)).isValid
    ensures !ValidateUrlSecurityAsWritten(Url("localhost", port, path)).isValid
    ensures !ValidateUrlSecurityAsWritten(Url("[::1]", port, path)).isValid
  {
    var h := "127." + a + "." + b + "." + c;
    assert h[4..] == a + "." + b + "." + c;
    ThreeOctets(a, b, c);
  }

  /** 10.* is rejected, with no 0..255 check on the digit runs. */
  lemma TenBlockRejected(a: string, b: string, c: string, port: string, path: string)
    requires Octet(a) && Octet(b) && Octet(c)
    ensures !ValidateUrlSecurityAsWritten(Url("10." + a + "." + b + "." + c, port, path)).isValid
  {
    var h := "10." + a + "." + b + "." + c;
    assert h[3..] == a + "." + b + "." + c;
    ThreeOctets(a, b, c);
  }

  /** 192.168.* and 169.254.* are rejected, with no 0..255 check on the digit runs. */
  lemma TwoOctetBlocksRejected(b: string, c: string, port: string, path: string)
    requires Octet(b) && Octet(c)
    ensures !ValidateUrlSecurityAsWritten(Url("192.168." + b + "." + c, port, path)).isValid
    ensures !ValidateUrlSecurityAsWritten(Url("169.254." + b + "." + c, port, path)).isValid
  {
    TwoOctets(b, c);
    var g := "192.168." + b + "." + c;
    assert g[8..] == b + "." + c;
    var l := "169.254." + b + "." + c;
    assert l[8..] == b + "." + c;
  }

  /** 172.16.* to 172.31.* (RFC 1918) are rejected. */
  lemma SecondPrivateBlockRejected(x: string, b: string, c: string, port: string, path: string)
    requires Is172Second(x)
    requires Octet(b) && Octet(c)
    ensures !ValidateUrlSecurityAsWritten(Url("172." + x + "." + b + "." + c, port, path)).isValid
  {
    var h := "172." + x + "." + b + "." + c;
    assert h[4..] == x + "." + b + "." + c;
    assert AllDigits(x) by { assert AllDigits(x[1..]) by { assert AllDigits(x[2..]); } }
    SecondThenOctets(x, b, c, Is172Second);
  }

  /** 100.64.* to 100.127.* (RFC 6598) are rejected. */
  lemma CarrierNatRejected(x: string, b: string, c: string, port: string, path: string)
    requires IsCgnatSecond(x)
    requires Octet(b) && Octet(c)
    ensures !ValidateUrlSecurityAsWritten(Url("100." + x + "." + b + "." + c, port, path)).isValid
  {
    var h := "100." + x + "." + b + "." + c;
    assert h[4..] == x + "." + b + "." + c;
    assert AllDigits(x) by {
      assert AllDigits(x[1..]) by { assert AllDigits(x[2..]) by { if |x| == 3 { assert AllDigits(x[3..]); } } }
    }
    SecondThenOctets(x, b, c, IsCgnatSecond);
  }

  /** Host names under an internal suffix are rejected. */
  lemma InternalNameRejected(host: string, i: nat, port: string, path: string)
    requires i < |InternalSuffixes|
    ensures !ValidateUrlSecurityAsWritten(Url(host + "." + InternalSuffixes[i], port, path)).isValid
  {
    var sfx := "." + InternalSuffixes[i];
    var h := host + sfx;
    assert h[|h| - |sfx|..] == sfx;
    assert EndsWith(h, sfx);
  }

  /** A `metadata.<provider>.` label at the start of the host or after a dot is rejected. */
  lemma MetadataHostRejected(front: string, p: nat, rest: string, port: string, path: string)
    requires p < |MetadataProviders|
    requires front == [] || front[|front| - 1] == '.'
    ensures !ValidateUrlSecurityAsWritten(Url(front + "metadata." + MetadataProviders[p] + "." + rest, port, path)).isValid
  {
    var name := "metadata." + MetadataProviders[p] + ".";
    var h := front + name + rest;
    assert h == front + "metadata." + MetadataProviders[p] + "." + rest;
    assert h[|front|..|front| + |name|] == name;
    assert OccursAt(h, name, |front|);
    assert MetadataAt(h, |front|);
  }

  /** A listed port, or a well-known or discovery path, is rejected whatever the host. */
  lemma PortAndPathRejected(h: string, port: string, path: string, front: string, rest: string)
    ensures AllDigits(port) && DecimalValue(port) in SensitivePorts ==>
      !ValidateUrlSecurityAsWritten(Url(h, port, path)).isValid
    ensures !ValidateUrlSecurityAsWritten(Url(h, port, front + ".well-known/webfinger" + rest)).isValid
    ensures !ValidateUrlSecurityAsWritten(Url(h, port, front + ".well-known/host-meta" + rest)).isValid
    ensures !ValidateUrlSecurityAsWritten(Url(h, port, front + "/.discovery" + rest)).isValid
  {
    ContainsAt(front + ".well-known/webfinger" + rest, ".well-known/webfinger", front, rest);
    ContainsAt(front + ".well-known/host-meta" + rest, ".well-known/host-meta", front, rest);
    ContainsAt(front + "/.discovery" + rest, "/.discovery", front, rest);
  }

  /** The corrected guard rejects everything the source rejects. */
  lemma CorrectionOnlyAddsRejections(u: ParsedUrl)
    ensures ValidateUrlSecurity(u).isValid ==> ValidateUrlSecurityAsWritten(u).isValid
    ensures u.Url? && ValidateUrlSecurityAsWritten(u).isValid && !ValidateUrlSecurity(u).isValid ==>
      IsBracketedPrivateV6(u.hostname)
  {
  }

  /** No host pattern of the source matches the bracketed literal [fc00::1]. */
  lemma BracketedHostPassesHostTests()
    ensures var h := "[fc00::1]";
      !IsLoopback(h) && !IsPrivateV4(h) && !IsLinkLocal(h) && !IsCarrierNat(h) && !HasPrivateV6Prefix(h)
  {
    var h := "[fc00::1]";
    assert h[0] == '[';
  }

  lemma BracketedHostIsNoServiceName()
    ensures !HasInternalSuffix("[fc00::1]") && !IsMetadataHost("[fc00::1]")
  {
    var h := "[fc00::1]";
    forall i | 0 <= i < |InternalSuffixes| ensures !EndsWith(h, "." + InternalSuffixes[i]) {
      assert h[|h| - 1] == ']';
    }
    forall i | 0 <= i <= |h| ensures !MetadataAt(h, i) {
      forall p | 0 <= p < |MetadataProviders| ensures !OccursAt(h, "metadata." + MetadataProviders[p] + ".", i) {
        assert |"metadata." + MetadataProviders[p] + "."| >= 12;
      }
    }
  }

  /**
   * The as-written guard accepts the unique-local IPv6 literal [fc00::1],
   * because the URL parser gives its host name with brackets; the corrected
   * guard rejects it.
   */
  lemma BracketedV6Bypass()
    ensures ValidateUrlSecurityAsWritten(Url("[fc00::1]", "", "/")) == SecurityCheck(true, None)
    ensures ValidateUrlSecurity(Url("[fc00::1]", "", "/")) == SecurityCheck(false, Some(DeniedMessage))
  {
    BracketedHostPassesHostTests();
    BracketedHostIsNoServiceName();
    assert "[fc00::1]"[1..] == "fc00::1]";
    assert !IsSensitivePath("/") by {
      assert forall sub: string, i | |sub| > 1 :: !OccursAt("/", sub, i);
    }
    assert PortNumber("") == Some(0);
  }

  /** Every private IPv6 literal, written in brackets as the parser gives it, is rejected by the corrected guard. */
  lemma BracketedPrivateV6Rejected(addr: string, port: string, path: string)
    requires HasPrivateV6Prefix(addr)
    ensures !ValidateUrlSecurity(Url("[" + addr + "]", port, path)).isValid
  {
    var h := "[" + addr + "]";
    assert h[1..] == addr + "]";
    assert (addr + "]")[..|addr|] == addr;
  }

  /** An unparseable URL is refused with the parser's message after "Invalid URL: ". */
  lemma UnparseableRefused(message: string)
    ensures ValidateUrlSecurity(Unparseable(message)) == SecurityCheck(false, Some("Invalid URL: " + message))
    ensures ValidateUrlSecurityAsWritten(Unparseable(message)) == SecurityCheck(false, Some("Invalid URL: " + message))
  {
  }

  // ---------------------------------------------------------------------
  // filterSensitiveHeaders
  // ---------------------------------------------------------------------

  /**
   * The lower-case map of String.prototype.toLowerCase, as far as it can
   * decide a match against the (ASCII) forbidden list: ASCII letters and
   * the Kelvin sign, which lower-cases to 'k'. Every other character
   * lower-cases to text outside ASCII, except U+0130, which becomes "i"
   * plus a combining dot and so can complete neither an exact entry nor a
   * prefix entry (no prefix holds an 'i'); leaving those characters
   * unchanged gives the same verdict.
   */
  function LowerChar(c: char): char {
    if 'A' <= c <= 'Z' then (c as int + 32) as char
    else if c == '\U{212A}' then 'k'
    else c
  }

  function ToLower(s: string): string {
    seq(|s|, i requires 0 <= i < |s| => LowerChar(s[i]))
  }

  /** Header names that are never forwarded; an entry ending in "-" is a prefix. */
  const ForbiddenHeaders: seq<string> := [
    "authorization", "proxy-authorization", "cookie", "set-cookie", "x-csrf-token",
    "www-authenticate", "proxy-authenticate",
    "x-forwarded-for", "x-real-ip", "forwarded", "x-forwarded-host", "x-forwarded-proto",
    "x-forwarded-ssl", "x-correlation-id", "fastly-client-ip", "true-client-ip",
    "sec-", "proxy-", "cf-", "x-csrf", "x-xsrf", "strict-transport-security",
    "content-security-policy", "x-content-security-policy", "x-webkit-csp",
    "x-api-key", "x-internal", "x-secret", "x-amz-security-token", "api-key",
    "x-functions-key", "x-goog-authenticated-user-email", "x-aws-", "x-amz-",
    "x-azure-", "x-gcp-", "x-heroku-", "x-vercel-",
    "x-debug", "x-runtime", "x-request-id", "x-trace"
  ]

  /** A lower-cased key matches an entry: as a prefix when the entry ends in "-", else exactly. */
  predicate MatchesEntry(lowerKey: string, entry: string) {
    if EndsWith(entry, "-") then StartsWith(lowerKey, entry) else lowerKey == entry
  }

  predicate IsSensitive(key: string) {
    exists i | 0 <= i < |ForbiddenHeaders| :: MatchesEntry(ToLower(key), ForbiddenHeaders[i])
  }

  /**
   * The one key an assignment on a plain object does not store as an own
   * property: `obj["__proto__"] = v` goes to the prototype setter instead.
   */
  const ProtoKey := "__proto__"

  /** `obj[key] = value` on a plain object, as far as its own properties go. */
  function Assign<V>(obj: map<string, V>, key: string, value: V): (r: map<string, V>)
    ensures key != ProtoKey ==> r == obj[key := value]
    ensures key == ProtoKey ==> r == obj
  {
    if key == ProtoKey then obj else obj[key := value]
  }

  /** The headers that end up in the filtered object, with their values. */
  function Filtered<V>(headers: map<string, V>): (r: map<string, V>)
    ensures forall k :: k in r <==> k in headers && !IsSensitive(k) && k != ProtoKey
    ensures forall k | k in r :: r[k] == headers[k]
  {
    map k | k in headers && !IsSensitive(k) && k != ProtoKey :: headers[k]
  }

  /**
   * Copies every header whose name matches no forbidden entry, whatever its
   * letter case, into a new plain object, one key at a time; a `__proto__`
   * key is assigned too, but does not become one of the object's own keys.
   */
  method FilterSensitiveHeaders<V>(headers: map<string, V>) returns (filtered: map<string, V>)
    ensures forall k :: k in filtered <==> k in headers && !IsSensitive(k) && k != ProtoKey
    ensures forall k | k in filtered :: filtered[k] == headers[k]
    ensures filtered == Filtered(headers)
  {
    filtered := map[];
    var remaining := headers.Keys;
    while remaining != {}
      invariant remaining <= headers.Keys
      invariant forall k :: k in filtered <==> k in headers && k !in remaining && !IsSensitive(k) && k != ProtoKey
      invariant forall k | k in filtered :: filtered[k] == headers[k]
      decreases remaining
    {
      var key :| key in remaining;
      remaining := remaining - {key};
      if IsSensitive(key) {
        continue;
      }
      filtered := Assign(filtered, key, headers[key]);
    }
  }

  /** The verdict ignores letter case: a key and its lower-case form are filtered alike. */
  lemma SensitivityIgnoresCase(key: string)
    ensures ToLower(ToLower(key)) == ToLower(key)
    ensures IsSensitive(key) <==> IsSensitive(ToLower(key))
  {
    assert ToLower(ToLower(key)) == ToLower(key);
  }

  /** Filtering twice removes nothing more, and what is kept is a sub-map of the input. */
  lemma FilterIdempotentSubmap<V>(headers: map<string, V>)
    ensures Filtered(Filtered(headers)) == Filtered(headers)
    ensures Filtered(headers).Keys <= headers.Keys
    ensures forall k | k in Filtered(headers) :: !IsSensitive(k) && k != ProtoKey && Filtered(headers)[k] == headers[k]
  {
  }

  /** An exact entry removes the key in every spelling of its case. */
  lemma ExactEntryRemoved(key: string, i: nat)
    requires i < |ForbiddenHeaders| && !EndsWith(ForbiddenHeaders[i], "-")
    requires ToLower(key) == ForbiddenHeaders[i]
    ensures IsSensitive(key)
  {
  }

  /** A prefix entry removes every key that starts with it, in any case. */
  lemma PrefixEntryRemoved(key: string, i: nat)
    requires i < |ForbiddenHeaders| && EndsWith(ForbiddenHeaders[i], "-")
    requires StartsWith(ToLower(key), ForbiddenHeaders[i])
    ensures IsSensitive(key)
  {
  }

  /** Credentials and cookies are dropped in any letter case, the Kelvin sign included. */
  lemma CredentialHeadersDropped()
    ensures IsSensitive("Authorization")
    ensures IsSensitive("COOKIE") && IsSensitive("COO\U{212A}IE")
    ensures IsSensitive("X-Api-Key")
  {
    assert MatchesEntry(ToLower("Authorization"), ForbiddenHeaders[0]);
    assert MatchesEntry(ToLower("COOKIE"), ForbiddenHeaders[2]);
    assert MatchesEntry(ToLower("COO\U{212A}IE"), ForbiddenHeaders[2]);
    assert MatchesEntry(ToLower("X-Api-Key"), ForbiddenHeaders[25]);
  }

  /** Prefix entries drop whole header families. */
  lemma PrefixFamiliesDropped()
    ensures IsSensitive("Sec-Fetch-Site")
    ensures IsSensitive("X-AMZ-Date")
  {
    assert MatchesEntry(ToLower("Sec-Fetch-Site"), ForbiddenHeaders[16]);
    assert MatchesEntry(ToLower("X-AMZ-Date"), ForbiddenHeaders[33]);
  }
}
