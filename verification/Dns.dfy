/** `connect_to=` of `src/dns.rs`: parsing a map of origins to addresses, in whatever order the map enumerates it.

    The two library parsers it relies on, for hosts and for socket addresses, are arbitrary functions. */
module Dns {
  import opened Basics

  // ----- Addresses -----

  /** Octets in network order: four, or sixteen. */
  datatype Ip = V4(octets: Bytes) | V6(octets: Bytes)

  datatype SocketAddr = SocketAddr(ip: Ip, port: nat)

  datatype Family = Any | Ipv4 | Ipv6

  /** An IPv4-mapped address, section 2.5.5.2 of RFC 4291: 80 zero bits, 16 one bits, the IPv4 address. */
  predicate IsMapped(ip: Ip) {
    && ip.V6?
    && |ip.octets| == 16
    && (forall i :: 0 <= i < 10 ==> ip.octets[i] == 0)
    && ip.octets[10] == 255 && ip.octets[11] == 255
  }

  predicate FamilyAllows(family: Family, ip: Ip) {
    match family
    case Any => true
    case Ipv4 => ip.V4?
    case Ipv6 => ip.V6? && !IsMapped(ip)
  }

  /** The IPv4-mapped form of an IPv4 address. */
  function Mapped(v4: Bytes): Ip {
    V6([0, 0, 0, 0, 0, 0, 0, 0, 0, 0, 255, 255] + v4)
  }

  /** Each family keeps its own addresses, and the IPv4-mapped ones belong to neither. */
  lemma FamiliesAllow(ip: Ip)
    requires |ip.octets| == if ip.V4? then 4 else 16
    ensures FamilyAllows(Any, ip)
    ensures FamilyAllows(Ipv4, ip) <==> |ip.octets| == 4
    ensures FamilyAllows(Ipv6, ip) <==> |ip.octets| == 16 && !exists v4 :: |v4| == 4 && ip == Mapped(v4)
  {
    if ip.V6? && IsMapped(ip) {
      assert ip == Mapped(ip.octets[12..]);
    }
    forall v4 | |v4| == 4 && ip == Mapped(v4)
      ensures IsMapped(ip)
    {
      MappedIsMapped(v4);
    }
  }

  lemma MappedIsMapped(v4: Bytes)
    requires |v4| == 4
    ensures IsMapped(Mapped(v4))
  {
    var octets := Mapped(v4).octets;
    assert octets[10] == 255 && octets[11] == 255;
  }

  // ----- Errors -----

  datatype Error =
    | NoPort
    | UnbracketedIpv6
    | InvalidPort
    | InvalidHost
    | ListedTwice
    | InvalidAddress
    | FamilyExcludes

  /** The host parser answers the normalized host; the address parser takes "ip:port". */
  datatype Library = Library(parseHost: string -> Option<string>, parseAddr: string -> Option<SocketAddr>)

  // ----- Ports -----

  predicate IsDigit(c: char) {
    '0' <= c <= '9'
  }

  function DigitValue(c: char): nat
    requires IsDigit(c)
  {
    c as nat - '0' as nat
  }

  /** The value of a string of decimal digits. */
  function Decimal(text: string): Option<nat> {
    if text == "" then Some(0)
    else
      var last := text[|text| - 1];
      match Decimal(text[..|text| - 1])
      case None => None
      case Some(n) => if IsDigit(last) then Some(10 * n + DigitValue(last)) else None
  }

  /** Rust's parser of `u16`: an optional `+`, then at least one digit, and no overflow. */
  function ParseU16(text: string): Option<nat> {
    var digits := if text != "" && text[0] == '+' then text[1..] else text;
    if digits == "" then None
    else
      match Decimal(digits)
      case Some(n) => if n < 0x1_0000 then Some(n) else None
      case None => None
  }

  function ParsePort(text: string): (port: Option<nat>)
    ensures port.Some? ==> 1 <= port.value <= 65535
  {
    match ParseU16(text)
    case Some(n) => if n != 0 then Some(n) else None
    case None => None
  }

  // ----- Origins -----

  /** Where `pattern` first occurs. */
  function Find(text: string, pattern: string): (at: Option<nat>)
    ensures at.Some? ==> at.value + |pattern| <= |text| && text[at.value..at.value + |pattern|] == pattern
    ensures at.Some? ==> forall i :: 0 <= i < at.value ==> !OccursAt(text, pattern, i)
    ensures at == None ==> forall i :: !OccursAt(text, pattern, i)
  {
    FindFrom(text, pattern, 0)
  }

  predicate OccursAt(text: string, pattern: string, i: int) {
    0 <= i <= i + |pattern| <= |text| && text[i..i + |pattern|] == pattern
  }

  function FindFrom(text: string, pattern: string, from: nat): (at: Option<nat>)
    requires forall i :: 0 <= i < from ==> !OccursAt(text, pattern, i)
    ensures at.Some? ==> OccursAt(text, pattern, at.value)
    ensures at.Some? ==> forall i :: 0 <= i < at.value ==> !OccursAt(text, pattern, i)
    ensures at == None ==> forall i :: !OccursAt(text, pattern, i)
    decreases |text| + 1 - from
  {
    if OccursAt(text, pattern, from) then Some(from)
    else if from >= |text| then None
    else FindFrom(text, pattern, from + 1)
  }

  /** The last colon of a text. */
  function LastColon(text: string): (at: Option<nat>)
    ensures at.Some? ==> at.value < |text| && text[at.value] == ':' && ':' !in text[at.value + 1..]
    ensures at == None ==> ':' !in text
  {
    if text == "" then None
    else if text[|text| - 1] == ':' then Some(|text| - 1)
    else
      var before := LastColon(text[..|text| - 1]);
      assert forall i :: 0 <= i < |text| - 1 ==> text[i] == text[..|text| - 1][i];
      before
  }

  datatype Origin = Origin(host: string, port: nat)

  /** Splits a key at its port: after a bracketed host, or at its only colon. */
  function SplitOrigin(key: string): Result<(string, string), Error> {
    if key != "" && key[0] == '[' then
      match Find(key, "]:")
      case None => Err(NoPort)
      case Some(end) => Ok((key[..end + 1], key[end + 2..]))
    else
      match LastColon(key)
      case None => Err(NoPort)
      case Some(at) => if ':' in key[..at] then Err(UnbracketedIpv6) else Ok((key[..at], key[at + 1..]))
  }

  function ParseOrigin(lib: Library, key: string): (origin: Result<Origin, Error>)
    ensures origin.Ok? ==> 1 <= origin.value.port <= 65535
  {
    match SplitOrigin(key)
    case Err(why) => Err(why)
    case Ok((host, port)) =>
      match ParsePort(port)
      case None => Err(InvalidPort)
      case Some(p) =>
        match lib.parseHost(host)
        case None => Err(InvalidHost)
        case Some(h) => Ok(Origin(h, p))
  }

  function ParseAddress(lib: Library, value: string): Result<SocketAddr, Error> {
    match lib.parseAddr(value)
    case Some(address) => if address.port != 0 then Ok(address) else Err(InvalidAddress)
    case None => Err(InvalidAddress)
  }

  /** An address is what the library parser makes of it, unless its port is zero. */
  lemma AddressParsedIff(lib: Library, value: string, address: SocketAddr)
    ensures ParseAddress(lib, value) == Ok(address) <==> lib.parseAddr(value) == Some(address) && address.port != 0
    ensures ParseAddress(lib, value).Err? ==> ParseAddress(lib, value).error == InvalidAddress
  {
  }

  // ----- Printing an origin -----

  function DigitChar(d: nat): char
    requires d < 10
  {
    '0' + d as char
  }

  /** A number without sign or leading zeros. */
  function Print(n: nat): string {
    if n < 10 then [DigitChar(n)] else Print(n / 10) + [DigitChar(n % 10)]
  }

  function PrintOrigin(origin: Origin): string {
    origin.host + ":" + Print(origin.port)
  }

  predicate AllDigits(text: string) {
    forall i :: 0 <= i < |text| ==> IsDigit(text[i])
  }

  lemma {:induction false} PrintIsDecimal(n: nat)
    ensures Print(n) != "" && AllDigits(Print(n)) && Decimal(Print(n)) == Some(n)
  {
    if n < 10 {
      assert Print(n)[..0] == "";
    } else {
      PrintIsDecimal(n / 10);
      assert Print(n)[..|Print(n)| - 1] == Print(n / 10);
    }
  }

  lemma {:induction false} OnlyDigitsParse(text: string)
    requires Decimal(text).Some?
    ensures AllDigits(text)
  {
    if text != "" {
      OnlyDigitsParse(text[..|text| - 1]);
      forall i | 0 <= i < |text|
        ensures IsDigit(text[i])
      {
        if i < |text| - 1 {
          assert text[i] == text[..|text| - 1][i];
        }
      }
    }
  }

  function Zeros(n: nat): string {
    seq(n, _ => '0')
  }

  lemma DigitOfChar(c: char)
    requires IsDigit(c)
    ensures DigitValue(c) < 10 && DigitChar(DigitValue(c)) == c
  {
  }

  function PrintPositive(n: nat): string {
    if n > 0 then Print(n) else ""
  }

  /** Digits of a positive number are its decimal form after any number of zeros. */
  lemma {:induction false} DecimalIsPadded(text: string)
    requires Decimal(text).Some?
    ensures exists k :: 0 <= k <= |text| && text == Zeros(k) + PrintPositive(Decimal(text).value)
  {
    if text == "" {
      assert text == Zeros(0) + "";
    } else {
      var last, before := text[|text| - 1], text[..|text| - 1];
      DecimalIsPadded(before);
      DigitOfChar(last);
      var n, d := Decimal(before).value, DigitValue(last);
      var k :| 0 <= k <= |before| && before == Zeros(k) + PrintPositive(n);
      assert text == before + [DigitChar(d)];
      if n > 0 {
        assert (10 * n + d) / 10 == n && (10 * n + d) % 10 == d;
        assert text == Zeros(k) + Print(10 * n + d);
      } else if d > 0 {
        assert text == Zeros(k) + Print(d);
      } else {
        assert text == Zeros(k + 1) + "";
      }
    }
  }

  lemma {:induction false} PaddedIsDecimal(k: nat, text: string)
    requires Decimal(text).Some?
    ensures Decimal(Zeros(k) + text) == Decimal(text)
    decreases |text|, k
  {
    var padded := Zeros(k) + text;
    if text != "" {
      assert padded[..|padded| - 1] == Zeros(k) + text[..|text| - 1];
      PaddedIsDecimal(k, text[..|text| - 1]);
    } else if k > 0 {
      assert padded[..k - 1] == Zeros(k - 1) + "";
      PaddedIsDecimal(k - 1, "");
    }
  }

  /** The spellings of a port: an optional `+`, any number of zeros, and the decimal form of 1 to 65535. */
  ghost predicate Spells(text: string, port: nat) {
    && 1 <= port <= 65535
    && exists plus: bool, k: nat :: text == Spelling(plus, k, port)
  }

  function PaddedPort(k: nat, port: nat): string {
    Zeros(k) + Print(port)
  }

  function Spelling(plus: bool, k: nat, port: nat): string {
    if plus then "+" + PaddedPort(k, port) else PaddedPort(k, port)
  }

  lemma DigitsArePadded(digits: string, port: nat) returns (k: nat)
    requires Decimal(digits) == Some(port) && port > 0
    ensures digits == PaddedPort(k, port)
  {
    DecimalIsPadded(digits);
    k :| 0 <= k <= |digits| && digits == Zeros(k) + PrintPositive(port);
  }

  lemma ParsedIsSpelled(text: string, port: nat)
    requires ParsePort(text) == Some(port)
    ensures Spells(text, port)
  {
    if text[0] == '+' {
      var k := DigitsArePadded(text[1..], port);
      assert text == "+" + text[1..];
      assert text == Spelling(true, k, port);
    } else {
      var k := DigitsArePadded(text, port);
      assert text == Spelling(false, k, port);
    }
  }

  lemma PortParsedIff(text: string, port: nat)
    ensures ParsePort(text) == Some(port) <==> Spells(text, port)
  {
    if ParsePort(text) == Some(port) {
      ParsedIsSpelled(text, port);
    }
    if Spells(text, port) {
      var plus, k :| text == Spelling(plus, k, port);
      SpellingParses(plus, k, port);
    }
  }

  lemma PaddedIsDigits(k: nat, port: nat)
    ensures PaddedPort(k, port) != "" && IsDigit(PaddedPort(k, port)[0])
    ensures Decimal(PaddedPort(k, port)) == Some(port)
  {
    PrintIsDecimal(port);
    PaddedIsDecimal(k, Print(port));
    assert PaddedPort(k, port)[0] == if k == 0 then Print(port)[0] else '0';
  }

  lemma DigitsParse(digits: string, port: nat)
    requires digits != "" && IsDigit(digits[0]) && Decimal(digits) == Some(port) && 1 <= port <= 65535
    ensures ParsePort(digits) == Some(port) && ParsePort("+" + digits) == Some(port)
  {
    assert ("+" + digits)[1..] == digits;
  }

  lemma SpellingParses(plus: bool, k: nat, port: nat)
    requires 1 <= port <= 65535
    ensures ParsePort(Spelling(plus, k, port)) == Some(port)
  {
    PaddedIsDigits(k, port);
    DigitsParse(PaddedPort(k, port), port);
  }

  lemma PortRoundTrips(port: nat)
    requires 1 <= port <= 65535
    ensures ParsePort(Print(port)) == Some(port)
  {
    PrintIsDecimal(port);
    assert IsDigit(Print(port)[0]);
  }

  /** The end of the host can be told: a bracketed host has its only "]:" position at its end, any other no colon. */
  ghost predicate Delimited(host: string) {
    if host != "" && host[0] == '[' then
      host[|host| - 1] == ']' && forall i :: !OccursAt(host, "]:", i)
    else
      ':' !in host
  }

  lemma SplitPlain(host: string, port: string)
    requires host == "" || host[0] != '['
    requires ':' !in port
    ensures SplitOrigin(host + ":" + port) ==
            if ':' in host then Err(UnbracketedIpv6) else Ok((host, port))
  {
    var key := host + ":" + port;
    assert key[|host|] == ':';
    var at := LastColon(key);
    assert key[|host| + 1..] == port;
    assert forall i :: |host| < i < |key| ==> key[i] == port[i - |host| - 1];
    assert key[..|host|] == host;
  }

  lemma OccurrenceInHost(host: string, port: string, i: int)
    requires ':' !in port && host != ""
    requires OccursAt(host + ":" + port, "]:", i)
    ensures (i == |host| - 1 && host[|host| - 1] == ']') || OccursAt(host, "]:", i)
  {
    var key := host + ":" + port;
    assert key[i..i + 2][0] == key[i] && key[i..i + 2][1] == key[i + 1];
    if i >= |host| {
    } else if i < |host| - 1 {
      assert host[i..i + 2] == key[i..i + 2];
    }
  }

  lemma OccurrenceAtEnd(host: string, port: string)
    requires host != "" && host[|host| - 1] == ']'
    ensures OccursAt(host + ":" + port, "]:", |host| - 1)
  {
    var key := host + ":" + port;
    assert key[|host| - 1..|host| + 1] == "]:";
  }

  lemma OccurrenceStays(host: string, port: string, i: int)
    requires OccursAt(host, "]:", i)
    ensures OccursAt(host + ":" + port, "]:", i)
  {
    assert (host + ":" + port)[i..i + 2] == host[i..i + 2];
  }

  /** A bracketed host: split off whole if it is delimited, and otherwise nothing that follows parses as a port. */
  lemma SplitBracketed(host: string, port: string)
    requires host != "" && host[0] == '[' && ':' !in port
    ensures Delimited(host) ==> SplitOrigin(host + ":" + port) == Ok((host, port))
    ensures !Delimited(host) ==>
              var split := SplitOrigin(host + ":" + port); split.Err? || ParsePort(split.value.1) == None
  {
    var key := host + ":" + port;
    var end := Find(key, "]:");
    if Delimited(host) {
      OccurrenceAtEnd(host, port);
      OccurrenceInHost(host, port, end.value);
      assert key[..|host|] == host && key[|host| + 1..] == port;
    } else if end.Some? {
      OccurrenceInHost(host, port, end.value);
      if end.value == |host| - 1 {
        var i :| OccursAt(host, "]:", i);
        OccurrenceStays(host, port, i);
        assert false;
      } else {
        var rest := key[end.value + 2..];
        assert rest[|host| - end.value - 2] == ':';
        if ParsePort(rest).Some? {
          PortHasNoColon(rest);
        }
      }
    }
  }

  lemma PortHasNoColon(text: string)
    requires ParsePort(text).Some?
    ensures ':' !in text
  {
    var digits := if text[0] == '+' then text[1..] else text;
    OnlyDigitsParse(digits);
    forall i | 0 <= i < |text|
      ensures text[i] != ':'
    {
      if text[0] != '+' {
        assert digits[i] == text[i];
      } else if i > 0 {
        assert digits[i - 1] == text[i];
      }
    }
  }

  /** Up to the bracket of its first occurrence, a text has no occurrence at all. */
  lemma FirstIsOnly(text: string, end: nat, host: string)
    requires end < |text| && host == text[..end + 1]
    requires forall i :: 0 <= i < end ==> !OccursAt(text, "]:", i)
    ensures forall i :: !OccursAt(host, "]:", i)
  {
    forall i
      ensures !OccursAt(host, "]:", i)
    {
      if 0 <= i < end {
        assert !OccursAt(text, "]:", i);
        assert host[i..i + 2] == text[i..i + 2];
      }
    }
  }

  /** What is split off is what stands before and after a colon, and the end of the host can be told. */
  lemma SplitIsDelimited(key: string)
    requires SplitOrigin(key).Ok?
    ensures var (host, port) := SplitOrigin(key).value; key == host + ":" + port && Delimited(host)
  {
    var (host, port) := SplitOrigin(key).value;
    if key != "" && key[0] == '[' {
      var end := Find(key, "]:").value;
      assert key[end..end + 2][0] == key[end] && key[end..end + 2][1] == key[end + 1];
      FirstIsOnly(key, end, host);
    } else {
      assert host != "" ==> host[0] == key[0];
    }
  }

  /** `key` is a host with a discernible end, a colon and a port, and the host parser normalizes the host. */
  ghost predicate Names(lib: Library, key: string, origin: Origin, host: string, port: string) {
    && key == host + ":" + port
    && Delimited(host)
    && ParsePort(port) == Some(origin.port)
    && lib.parseHost(host) == Some(origin.host)
  }

  /** The keys that name an origin, whatever spelling of host and port they use. */
  lemma OriginParsedIff(lib: Library, key: string, origin: Origin)
    ensures ParseOrigin(lib, key) == Ok(origin) <==> exists host, port :: Names(lib, key, origin, host, port)
  {
    if ParseOrigin(lib, key) == Ok(origin) {
      SplitIsDelimited(key);
      var (host, port) := SplitOrigin(key).value;
      assert Names(lib, key, origin, host, port);
    }
    forall host, port | Names(lib, key, origin, host, port)
      ensures ParseOrigin(lib, key) == Ok(origin)
    {
      PortHasNoColon(port);
      if host != "" && host[0] == '[' {
        SplitBracketed(host, port);
      } else {
        SplitPlain(host, port);
      }
    }
  }

  /** Printing a normalized origin and parsing it back gives the origin, exactly when its host is delimited. */
  lemma OriginRoundTrips(lib: Library, origin: Origin)
    requires lib.parseHost(origin.host) == Some(origin.host) && 1 <= origin.port <= 65535
    ensures ParseOrigin(lib, PrintOrigin(origin)) == Ok(origin) <==> Delimited(origin.host)
  {
    var port := Print(origin.port);
    PortRoundTrips(origin.port);
    PortHasNoColon(port);
    if origin.host != "" && origin.host[0] == '[' {
      SplitBracketed(origin.host, port);
    } else {
      SplitPlain(origin.host, port);
    }
  }
}
