/** The proxy URL normaliser and the source dedup of collector/proxy/sources.py, with the URL
    split of collector/proxy/validation.py that reads its results back. */
module ProxySources {
  import opened Prelude

  // ---------------------------------------------------------------- strings, as the source uses them

  /** Python's `str.isspace` characters. */
  predicate IsSpace(c: char) {
    || '\U{9}' <= c <= '\U{D}' || '\U{1C}' <= c <= '\U{20}' || c == '\U{85}' || c == '\U{A0}'
    || c == '\U{1680}' || '\U{2000}' <= c <= '\U{200A}' || c == '\U{2028}' || c == '\U{2029}'
    || c == '\U{202F}' || c == '\U{205F}' || c == '\U{3000}'
  }

  function StripLeft(s: string): string {
    if s != [] && IsSpace(s[0]) then StripLeft(s[1..]) else s
  }

  function StripRight(s: string): string {
    if s != [] && IsSpace(s[|s| - 1]) then StripRight(s[..|s| - 1]) else s
  }

  function Strip(s: string): string {
    StripRight(StripLeft(s))
  }

  /** `s.lstrip(c)`. */
  function DropLeading(s: string, c: char): string {
    if s != [] && s[0] == c then DropLeading(s[1..], c) else s
  }

  /** `s.rstrip(c)`. */
  function DropTrailing(s: string, c: char): string {
    if s != [] && s[|s| - 1] == c then DropTrailing(s[..|s| - 1], c) else s
  }

  /** `s.find(c)`: the first position of `c`, or `|s|` when it is absent. */
  function Find(s: string, c: char): (i: nat)
    ensures i <= |s|
    ensures i < |s| ==> s[i] == c
    ensures forall j :: 0 <= j < i ==> s[j] != c
  {
    if s == [] || s[0] == c then 0 else
      assert forall j :: 1 <= j < |s| ==> s[j] == s[1..][j - 1];
      1 + Find(s[1..], c)
  }

  /** The position after the last `c`, or 0 when it is absent (`s.rpartition(c)`). */
  function AfterLast(s: string, c: char): (i: nat)
    ensures i <= |s|
    ensures i > 0 ==> s[i - 1] == c
    ensures forall j :: i <= j < |s| ==> s[j] != c
  {
    if s == [] then 0
    else if s[|s| - 1] == c then |s|
    else AfterLast(s[..|s| - 1], c)
  }

  const MARK := "://"

  /** The position of the first "://", or `|s|` when there is none. */
  function FindMark(s: string): (i: nat)
    ensures i <= |s|
    ensures i < |s| ==> i + 3 <= |s| && s[i..i + 3] == MARK
  {
    if s == [] then 0
    else if MARK <= s then 0
    else
      var i := FindMark(s[1..]);
      assert i < |s| - 1 ==> s[1..][i..i + 3] == s[i + 1..i + 4];
      1 + i
  }

  /** `c.lower()` on the characters that can spell a scheme: ASCII capitals, and the Kelvin sign,
      the one other character whose lower case is an ASCII letter. */
  function Lower(c: char): char {
    if 'A' <= c <= 'Z' then (c as int + 32) as char
    else if c == '\U{212A}' then 'k'
    else c
  }

  function LowerAll(s: string): string {
    seq(|s|, i requires 0 <= i < |s| => Lower(s[i]))
  }

  predicate IsDigit(c: char) {
    '0' <= c <= '9'
  }

  predicate AllDigits(s: string) {
    forall i :: 0 <= i < |s| ==> IsDigit(s[i])
  }

  function Digits(s: string): nat
    requires AllDigits(s)
  {
    if s == [] then 0 else 10 * Digits(s[..|s| - 1]) + (s[|s| - 1] as int - '0' as int)
  }

  /** `int(s)` on decimal digits with an optional sign and surrounding spaces. */
  function ParseInt(s: string): Option<int> {
    var t := Strip(s);
    var signed := t != [] && (t[0] == '+' || t[0] == '-');
    var body := if signed then t[1..] else t;
    if body == [] || !AllDigits(body) then None
    else
      var n: int := Digits(body);
      Some(if signed && t[0] == '-' then -n else n)
  }

  function Digit(d: nat): char
    requires d < 10
  {
    ('0' as int + d) as char
  }

  /** `str(n)`: decimal digits without leading zeros. */
  function Decimal(n: nat): (s: string)
    ensures s != [] && AllDigits(s) && Digits(s) == n
  {
    if n < 10 then [Digit(n)]
    else
      var s := Decimal(n / 10) + [Digit(n % 10)];
      assert s[..|s| - 1] == Decimal(n / 10);
      s
  }

  // ---------------------------------------------------------------- normalise_url

  const SCHEMES: set<string> := {"http", "https", "socks4", "socks5"}

  /** Everything before the port separator, and the rest: a bracketed host keeps its brackets. */
  function SplitHost(rest: string): Option<(string, string)> {
    if rest == [] then None
    else if rest[0] == '[' then
      var end := Find(rest, ']');
      if end == |rest| then None else Some((rest[..end + 1], rest[end + 1..]))
    else
      var colon := Find(rest, ':');
      if colon == |rest| || colon == 0 then None else Some((rest[..colon], rest[colon..]))
  }

  function ParsePort(tail: string): Option<nat> {
    var port := DropLeading(tail, ':');
    if port == [] || ':' in port then None
    else
      match ParseInt(port)
      case None => None
      case Some(n) => if 1 <= n <= 65535 then Some(n) else None
  }

  function Url(scheme: string, host: string, port: nat): string {
    scheme + MARK + host + ":" + Decimal(port)
  }

  function NormaliseRest(scheme: string, rest: string): Option<string> {
    if scheme !in SCHEMES then None
    else
      match SplitHost(DropTrailing(rest, '/'))
      case None => None
      case Some((host, tail)) =>
        match ParsePort(tail)
        case None => None
        case Some(port) => Some(Url(scheme, host, port))
  }

  function NormaliseUrl(protocol: string, raw: string): Option<string> {
    var s := Strip(raw);
    var mark := FindMark(s);
    if mark < |s| then NormaliseRest(LowerAll(s[..mark]), s[mark + 3..])
    else NormaliseRest(protocol, s)
  }

  /** How `tcp_alive` takes a URL apart: host and port text around the last colon. */
  function SplitForConnect(url: string): Option<(string, string)> {
    var mark := FindMark(url);
    if mark == |url| then None
    else
      var hostport := DropTrailing(url[mark + 3..], '/');
      var cut := AfterLast(hostport, ':');
      if cut == 0 || cut == |hostport| then None
      else Some((hostport[..cut - 1], hostport[cut..]))
  }

  predicate IsBracket(c: char) {
    c == '[' || c == ']'
  }

  function StripBracketsLeft(s: string): string {
    if s != [] && IsBracket(s[0]) then StripBracketsLeft(s[1..]) else s
  }

  function StripBracketsRight(s: string): string {
    if s != [] && IsBracket(s[|s| - 1]) then StripBracketsRight(s[..|s| - 1]) else s
  }

  /** `s.strip("[]")`: every leading and trailing bracket goes, of either kind. */
  function StripBrackets(s: string): string {
    StripBracketsRight(StripBracketsLeft(s))
  }

  /** The host and port `tcp_alive` connects to; `None` when it gives up first. */
  function ConnectTarget(url: string): Option<(string, int)> {
    match SplitForConnect(url)
    case None => None
    case Some((host, port)) =>
      match ParseInt(port)
      case None => None
      case Some(n) => Some((StripBrackets(host), n))
  }

  // ---------------------------------------------------------------- canonical URLs

  /** A host as the normaliser leaves it: bracketed up to its first closing bracket, or plain
      and free of colons. */
  predicate HostOk(host: string) {
    host != [] &&
    if host[0] == '[' then Find(host, ']') == |host| - 1 else ':' !in host
  }

  ghost predicate Canonical(url: string) {
    exists scheme, host, port: nat ::
      scheme in SCHEMES && HostOk(host) && 1 <= port <= 65535 && url == Url(scheme, host, port)
  }

  lemma {:induction false} StripNothing(s: string)
    requires s == [] || (!IsSpace(s[0]) && !IsSpace(s[|s| - 1]))
    ensures Strip(s) == s
  {}

  lemma {:induction false} FindAt(s: string, c: char, i: nat)
    requires i < |s| && s[i] == c && forall j :: 0 <= j < i ==> s[j] != c
    ensures Find(s, c) == i
  {}

  lemma {:induction false} FindMarkAfter(scheme: string, rest: string)
    requires ':' !in scheme
    ensures FindMark(scheme + MARK + rest) == |scheme|
    decreases |scheme|
  {
    var s := scheme + MARK + rest;
    if scheme != [] {
      assert s[1..] == scheme[1..] + MARK + rest;
      assert s[0] == scheme[0] != ':';
      FindMarkAfter(scheme[1..], rest);
    } else {
      assert s == MARK + rest;
    }
  }

  lemma SchemeFacts(scheme: string)
    requires scheme in SCHEMES
    ensures scheme != [] && ':' !in scheme && !IsSpace(scheme[0]) && LowerAll(scheme) == scheme
  {}

  lemma ParseDecimal(n: nat)
    ensures ParseInt(Decimal(n)) == Some(n)
  {
    var digits := Decimal(n);
    assert IsDigit(digits[0]) && IsDigit(digits[|digits| - 1]);
    StripNothing(digits);
  }

  lemma ParsePrintedPort(port: nat)
    requires 1 <= port <= 65535
    ensures ParsePort(":" + Decimal(port)) == Some(port)
  {
    var digits := Decimal(port);
    assert (":" + digits)[1..] == digits;
    assert IsDigit(digits[0]);
    assert DropLeading(":" + digits, ':') == DropLeading(digits, ':') == digits;
    assert ':' !in digits;
    ParseDecimal(port);
  }

  /** Splitting the host part of a canonical URL gives the host back. */
  lemma SplitCanonical(host: string, digits: string)
    requires HostOk(host) && digits != [] && AllDigits(digits)
    ensures var rest := host + ":" + digits;
            && DropTrailing(rest, '/') == rest
            && SplitHost(rest) == Some((host, ":" + digits))
  {
    var rest := host + ":" + digits;
    assert rest[|rest| - 1] == digits[|digits| - 1];
    FindAt(rest, if host[0] == '[' then ']' else ':', if host[0] == '[' then |host| - 1 else |host|);
    assert rest[..|host|] == host && rest[|host|..] == ":" + digits;
  }

  lemma UrlEnds(scheme: string, rest: string)
    requires scheme in SCHEMES && rest != [] && !IsSpace(rest[|rest| - 1])
    ensures Strip(scheme + MARK + rest) == scheme + MARK + rest
  {
    var url := scheme + MARK + rest;
    SchemeFacts(scheme);
    assert url[0] == scheme[0] && url[|url| - 1] == rest[|rest| - 1];
    StripNothing(url);
  }

  lemma UrlParts(scheme: string, rest: string)
    requires scheme in SCHEMES
    ensures var url := scheme + MARK + rest;
            && FindMark(url) == |scheme| < |url|
            && LowerAll(url[..|scheme|]) == scheme && url[|scheme| + 3..] == rest
  {
    SchemeFacts(scheme);
    FindMarkAfter(scheme, rest);
    assert (scheme + MARK + rest)[..|scheme|] == scheme;
  }

  /** A canonical URL falls into its scheme and the text after the mark, and nothing is stripped. */
  lemma SplitScheme(scheme: string, host: string, port: nat)
    requires scheme in SCHEMES
    ensures var url := Url(scheme, host, port);
            && Strip(url) == url
            && FindMark(url) == |scheme| < |url|
            && LowerAll(url[..|scheme|]) == scheme
            && url[|scheme| + 3..] == host + ":" + Decimal(port)
  {
    var rest := host + ":" + Decimal(port);
    assert Url(scheme, host, port) == scheme + MARK + rest;
    assert rest[|rest| - 1] == Decimal(port)[|Decimal(port)| - 1];
    UrlEnds(scheme, rest);
    UrlParts(scheme, rest);
  }

  lemma CanonicalIsFixed(protocol: string, url: string)
    requires Canonical(url)
    ensures NormaliseUrl(protocol, url) == Some(url)
  {
    var scheme, host, port: nat :|
      scheme in SCHEMES && HostOk(host) && 1 <= port <= 65535 && url == Url(scheme, host, port);
    SplitScheme(scheme, host, port);
    SplitCanonical(host, Decimal(port));
    ParsePrintedPort(port);
  }

  lemma SplitHostOk(rest: string)
    requires SplitHost(rest).Some?
    ensures HostOk(SplitHost(rest).value.0)
  {
    if rest[0] == '[' {
      var end := Find(rest, ']');
      FindAt(rest[..end + 1], ']', end);
    }
  }

  lemma ResultIsCanonical(protocol: string, raw: string)
    requires NormaliseUrl(protocol, raw).Some?
    ensures Canonical(NormaliseUrl(protocol, raw).value)
  {
    var s := Strip(raw);
    var mark := FindMark(s);
    var scheme := if mark < |s| then LowerAll(s[..mark]) else protocol;
    var rest := DropTrailing(if mark < |s| then s[mark + 3..] else s, '/');
    SplitHostOk(rest);
    var (host, tail) := SplitHost(rest).value;
    var port := ParsePort(tail).value;
    assert NormaliseUrl(protocol, raw) == Some(Url(scheme, host, port));
  }

  /** Normalising lands on a canonical URL, and canonical URLs are exactly the ones normalising
      leaves alone, whatever protocol is passed beside them. */
  lemma NormaliseIsCanonicalising(protocol: string, raw: string)
    ensures NormaliseUrl(protocol, raw).Some? ==> Canonical(NormaliseUrl(protocol, raw).value)
    ensures Canonical(raw) <==> NormaliseUrl(protocol, raw) == Some(raw)
  {
    if NormaliseUrl(protocol, raw).Some? {
      ResultIsCanonical(protocol, raw);
    }
    if Canonical(raw) {
      CanonicalIsFixed(protocol, raw);
    }
  }

  /** Normalising twice is normalising once, under any protocol the second time. */
  lemma NormaliseTwice(protocol: string, raw: string, again: string)
    requires NormaliseUrl(protocol, raw).Some?
    ensures NormaliseUrl(again, NormaliseUrl(protocol, raw).value) == NormaliseUrl(protocol, raw)
  {
    ResultIsCanonical(protocol, raw);
    CanonicalIsFixed(again, NormaliseUrl(protocol, raw).value);
  }

  lemma ConnectSplits(url: string, mark: nat, rest: string, cut: nat)
    requires FindMark(url) == mark && mark + 3 <= |url| && url[mark + 3..] == rest
    requires DropTrailing(rest, '/') == rest
    requires AfterLast(rest, ':') == cut && 0 < cut < |rest|
    ensures SplitForConnect(url) == Some((rest[..cut - 1], rest[cut..]))
  {}

  lemma NoTrailingSlash(host: string, digits: string)
    requires digits != [] && AllDigits(digits)
    ensures DropTrailing(host + ":" + digits, '/') == host + ":" + digits
  {
    assert (host + ":" + digits)[|host| + |digits|] == digits[|digits| - 1];
  }

  lemma ConnectSplitsUrl(scheme: string, host: string, port: nat)
    requires scheme in SCHEMES
    ensures SplitForConnect(Url(scheme, host, port)) == Some((host, Decimal(port)))
  {
    var digits := Decimal(port);
    SplitScheme(scheme, host, port);
    NoTrailingSlash(host, digits);
    LastColon(host, digits);
    ConnectSplits(Url(scheme, host, port), |scheme|, host + ":" + digits, |host| + 1);
  }

  /** A host without the brackets the normaliser keeps around it. */
  function Bare(host: string): string
    requires HostOk(host)
  {
    if host[0] == '[' then
      assert host[|host| - 1] == ']';
      host[1..|host| - 1]
    else host
  }

  predicate BracketAtAnEnd(s: string) {
    s != [] && (IsBracket(s[0]) || IsBracket(s[|s| - 1]))
  }

  lemma {:induction false} StripLeftEnds(s: string)
    ensures var t := StripBracketsLeft(s);
            && (t != [] ==> !IsBracket(t[0]) && t[|t| - 1] == s[|s| - 1])
            && |t| <= |s| && t == s[|s| - |t|..]
  {
    if s != [] && IsBracket(s[0]) {
      StripLeftEnds(s[1..]);
    }
  }

  lemma {:induction false} StripRightEnds(s: string)
    ensures var t := StripBracketsRight(s);
            && (t != [] ==> !IsBracket(t[|t| - 1]) && t[0] == s[0])
            && |t| <= |s| && t == s[..|t|]
  {
    if s != [] && IsBracket(s[|s| - 1]) {
      StripRightEnds(s[..|s| - 1]);
    }
  }

  lemma StripNoBrackets(s: string)
    requires !BracketAtAnEnd(s)
    ensures StripBrackets(s) == s
  {}

  lemma StripPair(inner: string)
    requires !BracketAtAnEnd(inner)
    ensures StripBrackets("[" + inner + "]") == inner
  {
    var s := "[" + inner + "]";
    assert s[1..] == inner + "]";
    if inner == [] {
      assert StripBracketsLeft(s) == StripBracketsLeft(s[1..]) == StripBracketsLeft(s[1..][1..]) == [];
    } else {
      assert (inner + "]")[..|inner|] == inner && (inner + "]")[0] == inner[0];
      assert StripBracketsLeft(s) == StripBracketsLeft(inner + "]") == inner + "]";
      assert StripBracketsRight(inner + "]") == StripBracketsRight(inner) == inner;
    }
  }

  lemma BracketsAroundBare(host: string)
    requires HostOk(host) && host[0] == '['
    ensures host == "[" + Bare(host) + "]"
  {
    var n := |host| - 1;
    assert host[n] == ']';
    assert host == [host[0]] + host[1..n] + [host[n]];
  }

  /** Where the probe connects: stripping gives the bare host back if and only if the bare host has no
      bracket of its own at an end. The normaliser lets through hosts that do, such as "a]". */
  lemma StripsToBareIff(host: string)
    requires HostOk(host)
    ensures StripBrackets(host) == Bare(host) <==> !BracketAtAnEnd(Bare(host))
  {
    StripLeftEnds(host);
    StripRightEnds(StripBracketsLeft(host));
    if !BracketAtAnEnd(Bare(host)) {
      if host[0] == '[' {
        StripPair(Bare(host));
        BracketsAroundBare(host);
      } else {
        StripNoBrackets(host);
      }
    }
  }

  /** Round trip: taking a normalised URL apart the way the TCP probe does gives back exactly the host
      it was built from and a port from 1 to 65535, and the probe connects to the bare host, without
      brackets, at that port if and only if the bare host has no bracket of its own at an end. */
  lemma ConnectRoundTrip(protocol: string, raw: string) returns (scheme: string, host: string, port: nat)
    requires NormaliseUrl(protocol, raw).Some?
    ensures scheme in SCHEMES && HostOk(host) && 1 <= port <= 65535
    ensures NormaliseUrl(protocol, raw).value == Url(scheme, host, port)
    ensures SplitForConnect(Url(scheme, host, port)) == Some((host, Decimal(port)))
    ensures ParseInt(Decimal(port)) == Some(port)
    ensures ConnectTarget(Url(scheme, host, port)) == Some((Bare(host), port)) <==> !BracketAtAnEnd(Bare(host))
  {
    ResultIsCanonical(protocol, raw);
    scheme, host, port :|
      scheme in SCHEMES && HostOk(host) && 1 <= port <= 65535
      && NormaliseUrl(protocol, raw).value == Url(scheme, host, port);
    ConnectSplitsUrl(scheme, host, port);
    ParseDecimal(port);
    StripsToBareIff(host);
  }

  /** A text without a scheme, from the normaliser to the probe. */
  lemma ThroughToProbe(protocol: string, host: string, port: nat, raw: string)
    requires protocol in SCHEMES && HostOk(host) && 1 <= port <= 65535
    requires raw == host + ":" + Decimal(port) && Strip(raw) == raw && FindMark(raw) == |raw|
    ensures NormaliseUrl(protocol, raw) == Some(Url(protocol, host, port))
    ensures ConnectTarget(Url(protocol, host, port)) == Some((StripBrackets(host), port))
  {
    SplitCanonical(host, Decimal(port));
    ParsePrintedPort(port);
    ConnectSplitsUrl(protocol, host, port);
    ParseDecimal(port);
  }

  lemma BracketAfterA()
    ensures HostOk("a]") && StripBrackets("a]") == "a"
  {
    assert "a]"[..1] == "a";
    assert StripBracketsRight("a]") == StripBracketsRight("a") == "a";
  }

  lemma Eighty()
    ensures Decimal(80) == "80"
  {
    assert Decimal(8) == "8" && Decimal(80) == Decimal(8) + "0";
  }

  lemma NoMark()
    ensures Strip("a]:80") == "a]:80" && FindMark("a]:80") == 5
  {
    StripNothing("a]:80");
  }

  lemma Spelled(host: string, port: nat, raw: string, url: string)
    requires host == "a]" && port == 80 && raw == host + ":" + Decimal(port) && url == Url("http", host, port)
    ensures raw == "a]:80" && url == "http://a]:80"
  {
    Eighty();
  }

  lemma ABracketProbed(host: string, port: nat, raw: string)
    requires host == "a]" && port == 80 && raw == host + ":" + Decimal(port) && raw == "a]:80"
    ensures NormaliseUrl("http", raw) == Some(Url("http", host, port))
    ensures ConnectTarget(Url("http", host, port)) == Some(("a", port))
  {
    BracketAfterA();
    NoMark();
    ThroughToProbe("http", host, port, raw);
  }

  /** One host that fails it: the normaliser lets "a]" through, and the probe connects to "a". */
  lemma BracketHostLost(raw: string) returns (url: string)
    requires raw == "a]:80"
    ensures url == "http://a]:80"
    ensures NormaliseUrl("http", raw) == Some(url) && ConnectTarget(url) == Some(("a", 80))
  {
    var host, port := "a]", 80;
    url := Url("http", host, port);
    Spelled(host, port, host + ":" + Decimal(port), url);
    ABracketProbed(host, port, raw);
  }

  lemma LastColon(host: string, digits: string)
    requires AllDigits(digits)
    ensures var rest := host + ":" + digits;
            AfterLast(rest, ':') == |host| + 1
            && rest[..|host|] == host && rest[|host| + 1..] == digits
  {
    var rest := host + ":" + digits;
    assert rest[|host|] == ':';
    forall j | |host| + 1 <= j < |rest|
      ensures rest[j] != ':'
    {
      assert rest[j] == digits[j - |host| - 1];
    }
  }

  // ---------------------------------------------------------------- parse_source, parse_all_sources

  datatype Entry = Entry(url: string, protocol: string, source: string)

  /** What one line of a proxy list contributes: nothing for blanks, comments and bad addresses. */
  function ParseLine(protocol: string, source: string, raw: string): seq<Entry> {
    var line := Strip(raw);
    if line == [] || line[0] == '#' then []
    else
      match NormaliseUrl(protocol, line)
      case None => []
      case Some(url) => [Entry(url, url[..FindMark(url)], source)]
  }

  function ParseLines(protocol: string, source: string, lines: seq<string>): seq<Entry> {
    if lines == [] then []
    else ParseLines(protocol, source, lines[..|lines| - 1]) + ParseLine(protocol, source, lines[|lines| - 1])
  }

  method ParseSource(protocol: string, source: string, lines: seq<string>) returns (proxies: seq<Entry>)
    ensures proxies == ParseLines(protocol, source, lines)
  {
    proxies := [];
    for i := 0 to |lines|
      invariant proxies == ParseLines(protocol, source, lines[..i])
    {
      assert lines[..i + 1][..i] == lines[..i];
      var line := Strip(lines[i]);
      if line == [] || line[0] == '#' {
        continue;
      }
      var url := NormaliseUrl(protocol, line);
      if url.None? {
        continue;
      }
      proxies := proxies + [Entry(url.value, url.value[..FindMark(url.value)], source)];
    }
    assert lines[..|lines|] == lines;
  }

  ghost predicate EntryOk(e: Entry) {
    Canonical(e.url) && e.protocol in SCHEMES && e.protocol + MARK <= e.url
  }

  lemma EntryOfUrl(scheme: string, host: string, port: nat, source: string)
    requires scheme in SCHEMES && HostOk(host) && 1 <= port <= 65535
    ensures var url := Url(scheme, host, port);
            FindMark(url) <= |url| && EntryOk(Entry(url, url[..FindMark(url)], source))
  {
    SplitScheme(scheme, host, port);
    var url := Url(scheme, host, port);
    assert url[..|scheme|] == scheme && scheme + MARK <= url;
    assert Canonical(url);
  }

  lemma ParsedLineOk(protocol: string, source: string, raw: string)
    ensures forall e :: e in ParseLine(protocol, source, raw) ==> EntryOk(e)
  {
    if ParseLine(protocol, source, raw) != [] {
      var scheme, host, port := ConnectRoundTrip(protocol, Strip(raw));
      EntryOfUrl(scheme, host, port, source);
    }
  }

  /** Every entry a source yields has a canonical URL and is filed under that URL's own scheme. */
  lemma {:induction false} ParsedAreCanonical(protocol: string, source: string, lines: seq<string>)
    ensures forall e :: e in ParseLines(protocol, source, lines) ==> EntryOk(e)
  {
    if lines != [] {
      ParsedAreCanonical(protocol, source, lines[..|lines| - 1]);
      ParsedLineOk(protocol, source, lines[|lines| - 1]);
    }
  }

  ghost predicate DistinctUrls(entries: seq<Entry>) {
    forall i, j :: 0 <= i < j < |entries| ==> entries[i].url != entries[j].url
  }

  function Urls(entries: seq<Entry>): set<string> {
    set e | e in entries :: e.url
  }

  /** The first entry of each URL, in order. */
  function FirstOfEach(all: seq<Entry>): seq<Entry> {
    if all == [] then []
    else
      var before := FirstOfEach(all[..|all| - 1]);
      var last := all[|all| - 1];
      if last.url in Urls(all[..|all| - 1]) then before else before + [last]
  }

  lemma UrlsAppend(entries: seq<Entry>, last: Entry)
    ensures Urls(entries + [last]) == Urls(entries) + {last.url}
  {
    assert last in entries + [last];
    assert forall e :: e in entries + [last] <==> e in entries || e == last;
  }

  lemma {:induction false} FirstKeepsUrls(all: seq<Entry>)
    ensures Urls(FirstOfEach(all)) == Urls(all)
  {
    if all != [] {
      var init, last := all[..|all| - 1], all[|all| - 1];
      FirstKeepsUrls(init);
      assert all == init + [last];
      UrlsAppend(init, last);
      UrlsAppend(FirstOfEach(init), last);
    }
  }

  /** No earlier entry has the URL of the i-th. */
  predicate FirstAt(all: seq<Entry>, i: nat)
    requires i < |all|
  {
    forall j :: 0 <= j < i ==> all[j].url != all[i].url
  }

  /** Dedup keeps the first entry fetched for each URL, in fetch order. */
  lemma {:induction false} FirstWins(all: seq<Entry>) returns (at: seq<nat>)
    ensures |at| == |FirstOfEach(all)|
    ensures forall k :: 0 <= k < |at| ==>
              at[k] < |all| && all[at[k]] == FirstOfEach(all)[k] && FirstAt(all, at[k])
    ensures forall k, l :: 0 <= k < l < |at| ==> at[k] < at[l]
  {
    at := [];
    if all != [] {
      var n := |all| - 1;
      at := FirstWins(all[..n]);
      forall k | 0 <= k < |at|
        ensures FirstAt(all, at[k])
      {
        assert FirstAt(all[..n], at[k]);
      }
      if all[n].url !in Urls(all[..n]) {
        forall i | 0 <= i < n
          ensures all[i].url != all[n].url
        {
          assert all[i] in all[..n];
        }
        at := at + [n];
      }
    }
  }

  lemma FirstIsDistinct(all: seq<Entry>)
    ensures DistinctUrls(FirstOfEach(all))
  {
    var at := FirstWins(all);
    forall k, l | 0 <= k < l < |at|
      ensures FirstOfEach(all)[k].url != FirstOfEach(all)[l].url
    {
      assert at[k] < at[l] && FirstAt(all, at[l]);
    }
  }

  /** What one fetched list contributes: nothing after a failed fetch, a random `cap` of it when
      it is longer than a positive cap (`shuffled` is the list after `random.shuffle`). */
  function Capped(fetched: Option<seq<Entry>>, shuffled: seq<Entry>, cap: int): seq<Entry> {
    if fetched.None? then []
    else if 0 < cap < |fetched.value| <= |shuffled| then shuffled[..cap]
    else fetched.value
  }

  function Gathered(results: seq<Option<seq<Entry>>>, shuffles: seq<seq<Entry>>, cap: int): seq<Entry>
    requires |shuffles| == |results|
  {
    if results == [] then []
    else
      var n := |results| - 1;
      Gathered(results[..n], shuffles[..n], cap) + Capped(results[n], shuffles[n], cap)
  }

  /** The source's `seen` loop. */
  method Dedup(all: seq<Entry>) returns (unique: seq<Entry>)
    ensures unique == FirstOfEach(all)
    ensures DistinctUrls(unique) && Urls(unique) == Urls(all)
  {
    var seen: set<string> := {};
    unique := [];
    for i := 0 to |all|
      invariant seen == Urls(all[..i])
      invariant unique == FirstOfEach(all[..i])
    {
      assert all[..i + 1] == all[..i] + [all[i]];
      UrlsAppend(all[..i], all[i]);
      if all[i].url !in seen {
        seen := seen + {all[i].url};
        unique := unique + [all[i]];
      }
    }
    assert all[..|all|] == all;
    FirstIsDistinct(all);
    FirstKeepsUrls(all);
  }

  /** How many entries are filed under `source`. */
  function FromSource(entries: seq<Entry>, source: string): nat {
    if entries == [] then 0
    else FromSource(entries[..|entries| - 1], source) + (if entries[|entries| - 1].source == source then 1 else 0)
  }

  function Times(names: seq<string>, source: string): nat {
    if names == [] then 0
    else Times(names[..|names| - 1], source) + (if names[|names| - 1] == source then 1 else 0)
  }

  lemma {:induction false} FromSourceAppend(a: seq<Entry>, b: seq<Entry>, source: string)
    ensures FromSource(a + b, source) == FromSource(a, source) + FromSource(b, source)
  {
    if b == [] {
      assert a + b == a;
    } else {
      assert (a + b)[..|a + b| - 1] == a + b[..|b| - 1];
      FromSourceAppend(a, b[..|b| - 1], source);
    }
  }

  lemma {:induction false} FromSourceBounds(entries: seq<Entry>, source: string)
    ensures FromSource(entries, source) <= |entries|
    ensures (forall e :: e in entries ==> e.source != source) ==> FromSource(entries, source) == 0
  {
    if entries != [] {
      FromSourceBounds(entries[..|entries| - 1], source);
    }
  }

  lemma {:induction false} FirstKeepsFewer(all: seq<Entry>, source: string)
    ensures FromSource(FirstOfEach(all), source) <= FromSource(all, source)
  {
    if all != [] {
      var init, last := all[..|all| - 1], all[|all| - 1];
      FirstKeepsFewer(init, source);
      FromSourceAppend(FirstOfEach(init), [last], source);
    }
  }

  /** Each list is one source's, in some order after the shuffle. */
  ghost predicate ListsOk(results: seq<Option<seq<Entry>>>, shuffles: seq<seq<Entry>>, names: seq<string>) {
    && |shuffles| == |results| == |names|
    && forall i :: 0 <= i < |results| && results[i].Some? ==>
         && multiset(shuffles[i]) == multiset(results[i].value)
         && forall e :: e in results[i].value ==> e.source == names[i]
  }

  lemma CappedFrom(fetched: Option<seq<Entry>>, shuffled: seq<Entry>, cap: int, name: string, source: string)
    requires cap > 0
    requires fetched.Some? ==>
               multiset(shuffled) == multiset(fetched.value) && forall e :: e in fetched.value ==> e.source == name
    ensures FromSource(Capped(fetched, shuffled, cap), source) <= if name == source then cap else 0
  {
    var kept := Capped(fetched, shuffled, cap);
    FromSourceBounds(kept, source);
    if fetched.Some? {
      assert |multiset(shuffled)| == |multiset(fetched.value)|;
      forall e | e in kept
        ensures e.source == name
      {
        if e in shuffled {
          assert e in multiset(shuffled);
          assert e in fetched.value;
        }
      }
    }
  }

  lemma ListsOkInit(results: seq<Option<seq<Entry>>>, shuffles: seq<seq<Entry>>, names: seq<string>)
    requires results != [] && ListsOk(results, shuffles, names)
    ensures var n := |results| - 1; ListsOk(results[..n], shuffles[..n], names[..n])
  {}

  lemma CapAdds(cap: int, times: nat)
    ensures cap * (times + 1) == cap * times + cap
  {}

  lemma {:induction false} GatheredFrom(results: seq<Option<seq<Entry>>>, shuffles: seq<seq<Entry>>,
                                        names: seq<string>, cap: int, source: string)
    requires cap > 0 && ListsOk(results, shuffles, names)
    ensures FromSource(Gathered(results, shuffles, cap), source) <= cap * Times(names, source)
  {
    if results != [] {
      var n := |results| - 1;
      var before, last := Gathered(results[..n], shuffles[..n], cap), Capped(results[n], shuffles[n], cap);
      ListsOkInit(results, shuffles, names);
      GatheredFrom(results[..n], shuffles[..n], names[..n], cap, source);
      assert FromSource(last, source) <= if names[n] == source then cap else 0 by {
        CappedFrom(results[n], shuffles[n], cap, names[n], source);
      }
      FromSourceAppend(before, last, source);
      CapAdds(cap, Times(names[..n], source));
    }
  }

  /** The cap: with a positive cap no source has more than `cap` entries in the result for each time it
      is listed, whatever the shuffles and however the lists overlap. */
  lemma CapPerSource(results: seq<Option<seq<Entry>>>, shuffles: seq<seq<Entry>>, names: seq<string>, cap: int,
                     source: string)
    requires cap > 0 && ListsOk(results, shuffles, names)
    ensures FromSource(FirstOfEach(Gathered(results, shuffles, cap)), source) <= cap * Times(names, source)
  {
    GatheredFrom(results, shuffles, names, cap, source);
    FirstKeepsFewer(Gathered(results, shuffles, cap), source);
  }

  method ParseAllSources(results: seq<Option<seq<Entry>>>, shuffles: seq<seq<Entry>>, cap: int)
    returns (unique: seq<Entry>)
    requires |shuffles| == |results|
    requires forall i :: 0 <= i < |results| && results[i].Some? ==>
               multiset(shuffles[i]) == multiset(results[i].value)
    ensures unique == FirstOfEach(Gathered(results, shuffles, cap))
    ensures DistinctUrls(unique) && Urls(unique) == Urls(Gathered(results, shuffles, cap))
  {
    var all := [];
    for i := 0 to |results|
      invariant all == Gathered(results[..i], shuffles[..i], cap)
    {
      assert results[..i + 1][..i] == results[..i] && shuffles[..i + 1][..i] == shuffles[..i];
      if results[i].Some? {
        var r := results[i].value;
        assert |multiset(shuffles[i])| == |multiset(r)|;
        if cap > 0 && |r| > cap {
          r := shuffles[i];
          r := r[..cap];
        }
        all := all + r;
      }
    }
    assert results[..|results|] == results && shuffles[..|shuffles|] == shuffles;
    unique := Dedup(all);
  }
}
