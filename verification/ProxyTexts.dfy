/** Which texts collector/proxy/sources.py reads as a proxy and as which, character by character; what a
    line of a list contributes; and what the cap on a list leaves. */
module ProxyTexts {
  import opened Prelude
  import opened ProxySources

  // ---------------------------------------------------------------- spaces

  /** The characters Python strips, by code point. */
  predicate Blank(c: char) {
    var n := c as int;
    || n in {9, 10, 11, 12, 13, 28, 29, 30, 31, 32, 133, 160, 5760, 8232, 8233, 8239, 8287, 12288}
    || 8192 <= n <= 8202
  }

  predicate Blanks(s: string) {
    forall i :: 0 <= i < |s| ==> Blank(s[i])
  }

  predicate Trimmed(s: string) {
    s != [] ==> !Blank(s[0]) && !Blank(s[|s| - 1])
  }

  predicate AllOf(s: string, c: char) {
    forall i :: 0 <= i < |s| ==> s[i] == c
  }

  lemma BlankIsSpace(c: char)
    ensures Blank(c) <==> IsSpace(c)
  {}

  lemma {:induction false} LeftBlanks(before: string, s: string)
    requires Blanks(before) && (s == [] || !Blank(s[0]))
    ensures StripLeft(before + s) == s
  {
    if before == [] {
      assert before + s == s;
      if s != [] {
        BlankIsSpace(s[0]);
      }
    } else {
      BlankIsSpace(before[0]);
      assert (before + s)[1..] == before[1..] + s;
      LeftBlanks(before[1..], s);
    }
  }

  lemma {:induction false} RightBlanks(s: string, after: string)
    requires Blanks(after) && (s == [] || !Blank(s[|s| - 1]))
    ensures StripRight(s + after) == s
  {
    if after == [] {
      assert s + after == s;
      if s != [] {
        BlankIsSpace(s[|s| - 1]);
      }
    } else {
      var n := |after| - 1;
      BlankIsSpace(after[n]);
      assert (s + after)[..|s + after| - 1] == s + after[..n];
      RightBlanks(s, after[..n]);
    }
  }

  /** Stripping takes away exactly the blanks around a text. */
  lemma StripExact(before: string, s: string, after: string)
    requires Blanks(before) && Blanks(after) && Trimmed(s)
    ensures Strip(before + s + after) == s
  {
    if s == [] {
      assert before + s + after == (before + after) + [];
      LeftBlanks(before + after, []);
    } else {
      assert before + s + after == before + (s + after);
      LeftBlanks(before, s + after);
      RightBlanks(s, after);
    }
  }

  lemma {:induction false} StripLeftParts(s: string) returns (before: string)
    ensures Blanks(before) && s == before + StripLeft(s)
    ensures StripLeft(s) != [] ==> !Blank(StripLeft(s)[0])
  {
    if s == [] || !IsSpace(s[0]) {
      before := [];
      if s != [] {
        BlankIsSpace(s[0]);
      }
    } else {
      BlankIsSpace(s[0]);
      var rest := StripLeftParts(s[1..]);
      before := [s[0]] + rest;
    }
  }

  lemma OneBlankMore(kept: string, blanks: string, c: char, s: string)
    requires Blanks(blanks) && Blank(c) && s == kept + blanks
    ensures Blanks(blanks + [c]) && s + [c] == kept + (blanks + [c])
  {}

  lemma {:induction false} StripRightParts(s: string) returns (after: string)
    ensures Blanks(after) && s == StripRight(s) + after
    ensures StripRight(s) != [] ==> !Blank(StripRight(s)[|StripRight(s)| - 1])
  {
    if s == [] || !IsSpace(s[|s| - 1]) {
      after := [];
      if s != [] {
        BlankIsSpace(s[|s| - 1]);
      }
    } else {
      var init, c := s[..|s| - 1], s[|s| - 1];
      BlankIsSpace(c);
      var rest := StripRightParts(init);
      after := rest + [c];
      OneBlankMore(StripRight(init), rest, c, init);
      assert s == init + [c];
    }
  }

  /** Every text is blanks, a trimmed text, and blanks. */
  lemma StripParts(raw: string) returns (before: string, after: string)
    ensures Blanks(before) && Blanks(after) && Trimmed(Strip(raw)) && raw == before + Strip(raw) + after
  {
    before := StripLeftParts(raw);
    after := StripRightParts(StripLeft(raw));
  }

  // ---------------------------------------------------------------- the port

  /** A decimal number from 1 on, with leading zeros, a plus sign and blanks around it or not. */
  ghost predicate SpellsPort(text: string, port: nat) {
    exists before, sign, digits, after ::
      text == before + (sign + digits) + after && PortParts(before, sign, digits, after, port)
  }

  predicate PortParts(before: string, sign: string, digits: string, after: string, port: nat) {
    && Blanks(before) && Blanks(after) && (sign == "" || sign == "+")
    && digits != [] && AllDigits(digits) && Digits(digits) == port && 1 <= port <= 65535
  }

  lemma SignedReads(text: string, sign: string, digits: string, port: nat)
    requires Strip(text) == sign + digits && (sign == "" || sign == "+")
    requires digits != [] && AllDigits(digits) && Digits(digits) == port
    ensures ParseInt(text) == Some(port)
  {
    var t := sign + digits;
    assert IsDigit(digits[0]);
    assert sign == "+" ==> t[1..] == digits && t[0] == '+';
    assert sign == "" ==> t == digits;
  }

  lemma PortChars(before: string, sign: string, digits: string, after: string, port: nat)
    requires PortParts(before, sign, digits, after, port)
    ensures var text := before + (sign + digits) + after;
            && text != [] && ':' !in text && text[|text| - 1] != '/' && Trimmed(sign + digits)
  {
    var t := sign + digits;
    assert IsDigit(digits[0]) && IsDigit(digits[|digits| - 1]);
    assert t[|t| - 1] == digits[|digits| - 1];
    assert t[0] == if sign == "" then digits[0] else '+';
  }

  lemma PortReads(text: string, port: nat)
    requires SpellsPort(text, port)
    ensures ParseInt(text) == Some(port)
    ensures text != [] && ':' !in text && text[|text| - 1] != '/'
  {
    var before, sign, digits, after :|
      text == before + (sign + digits) + after && PortParts(before, sign, digits, after, port);
    PortChars(before, sign, digits, after, port);
    StripExact(before, sign + digits, after);
    SignedReads(text, sign, digits, port);
  }

  lemma ReadPort(text: string)
    requires ParseInt(text).Some? && 1 <= ParseInt(text).value <= 65535
    ensures SpellsPort(text, ParseInt(text).value)
  {
    var before, after := StripParts(text);
    var t := Strip(text);
    var sign := if t[0] == '+' then "+" else "";
    var digits := if t[0] == '+' then t[1..] else t;
    assert t == sign + digits;
    assert PortParts(before, sign, digits, after, ParseInt(text).value);
  }

  // ---------------------------------------------------------------- host and port

  /** A host, colons, a port and slashes. Only a bracketed host may do without a colon. */
  ghost predicate Address(rest: string, host: string, colons: string, port: string, slashes: string) {
    && rest == host + colons + port + slashes
    && HostOk(host) && AllOf(colons, ':') && (host[0] != '[' ==> colons != []) && AllOf(slashes, '/')
  }

  /** What is read from the text behind a scheme: the scheme, the host and the port in plain digits. */
  ghost predicate Spells(scheme: string, rest: string, url: string) {
    exists host, colons, text, slashes, port: nat ::
      && Address(rest, host, colons, text, slashes) && SpellsPort(text, port)
      && (scheme == "http" || scheme == "https" || scheme == "socks4" || scheme == "socks5")
      && url == scheme + "://" + host + ":" + Decimal(port)
  }

  lemma {:induction false} SlashesDropped(s: string, slashes: string)
    requires AllOf(slashes, '/') && s != [] && s[|s| - 1] != '/'
    ensures DropTrailing(s + slashes, '/') == s
  {
    if slashes == [] {
      assert s + slashes == s;
    } else {
      var n := |slashes| - 1;
      assert (s + slashes)[..|s + slashes| - 1] == s + slashes[..n];
      SlashesDropped(s, slashes[..n]);
    }
  }

  lemma {:induction false} ColonsDropped(colons: string, s: string)
    requires AllOf(colons, ':') && s != [] && s[0] != ':'
    ensures DropLeading(colons + s, ':') == s
  {
    if colons == [] {
      assert colons + s == s;
    } else {
      assert (colons + s)[1..] == colons[1..] + s;
      ColonsDropped(colons[1..], s);
    }
  }

  lemma HostSplits(host: string, tail: string)
    requires HostOk(host) && tail != [] && (host[0] != '[' ==> tail[0] == ':')
    ensures SplitHost(host + tail) == Some((host, tail))
  {
    var rest := host + tail;
    FindAt(rest, if host[0] == '[' then ']' else ':', if host[0] == '[' then |host| - 1 else |host|);
    assert rest[..|host|] == host && rest[|host|..] == tail;
  }

  /** The normaliser's own steps, once each part is known. */
  lemma PartsRead(scheme: string, rest: string, core: string, host: string, tail: string, text: string, port: nat)
    requires scheme in SCHEMES && DropTrailing(rest, '/') == core && SplitHost(core) == Some((host, tail))
    requires DropLeading(tail, ':') == text && text != [] && ':' !in text && ParseInt(text) == Some(port)
    requires 1 <= port <= 65535
    ensures NormaliseRest(scheme, rest) == Some(scheme + "://" + host + ":" + Decimal(port))
  {}

  lemma AddressReads(scheme: string, rest: string, host: string, colons: string, text: string, slashes: string,
                     port: nat)
    requires scheme in SCHEMES && Address(rest, host, colons, text, slashes) && SpellsPort(text, port)
    requires 1 <= port <= 65535
    ensures NormaliseRest(scheme, rest) == Some(scheme + "://" + host + ":" + Decimal(port))
  {
    PortReads(text, port);
    var core := host + (colons + text);
    assert rest == core + slashes && core[|core| - 1] == text[|text| - 1];
    SlashesDropped(core, slashes);
    HostSplits(host, colons + text);
    ColonsDropped(colons, text);
    PartsRead(scheme, rest, core, host, colons + text, text, port);
  }

  lemma SpelledReads(scheme: string, rest: string, url: string)
    requires Spells(scheme, rest, url)
    ensures NormaliseRest(scheme, rest) == Some(url)
  {
    var host, colons, text, slashes, port: nat :|
      && Address(rest, host, colons, text, slashes) && SpellsPort(text, port)
      && (scheme == "http" || scheme == "https" || scheme == "socks4" || scheme == "socks5")
      && url == scheme + "://" + host + ":" + Decimal(port);
    PortInRange(text, port);
    AddressReads(scheme, rest, host, colons, text, slashes, port);
  }

  lemma PortInRange(text: string, port: nat)
    requires SpellsPort(text, port)
    ensures 1 <= port <= 65535
  {}

  lemma {:induction false} DroppedSlashes(s: string)
    ensures var t := DropTrailing(s, '/');
            |t| <= |s| && t == s[..|t|] && AllOf(s[|t|..], '/') && (t != [] ==> t[|t| - 1] != '/')
  {
    if s != [] && s[|s| - 1] == '/' {
      var init := s[..|s| - 1];
      var t := DropTrailing(init, '/');
      DroppedSlashes(init);
      assert s == init + ['/'];
      assert s[|t|..] == init[|t|..] + ['/'] && s[..|t|] == init[..|t|];
    }
  }

  lemma {:induction false} DroppedColons(s: string)
    ensures var t := DropLeading(s, ':');
            |t| <= |s| && t == s[|s| - |t|..] && AllOf(s[..|s| - |t|], ':')
  {
    if s != [] && s[0] == ':' {
      DroppedColons(s[1..]);
      var t := DropLeading(s[1..], ':');
      assert s[..|s| - |t|] == [s[0]] + s[1..][..|s[1..]| - |t|];
    }
  }

  lemma ReadTail(host: string, tail: string, text: string) returns (colons: string)
    requires DropLeading(tail, ':') == text && text != [] && (host != [] && host[0] != '[' ==> tail[..1] == ":")
    ensures tail == colons + text && AllOf(colons, ':')
    ensures host != [] && host[0] != '[' ==> colons != []
  {
    DroppedColons(tail);
    LeadingDropped(tail);
    colons := tail[..|tail| - |text|];
    assert tail == colons + text;
  }

  lemma HostParts(core: string, host: string, tail: string)
    requires SplitHost(core) == Some((host, tail))
    ensures core == host + tail && HostOk(host) && (host[0] != '[' ==> tail != [] && tail[..1] == ":")
  {
    SplitHostOk(core);
  }

  lemma AddressJoins(rest: string, core: string, host: string, tail: string, colons: string, text: string,
                     slashes: string)
    requires core == host + tail && tail == colons + text && rest == core + slashes
    ensures rest == host + colons + text + slashes
  {}

  lemma ReadAddress(rest: string, core: string, host: string, tail: string, text: string)
    returns (colons: string, slashes: string)
    requires DropTrailing(rest, '/') == core && SplitHost(core) == Some((host, tail))
    requires DropLeading(tail, ':') == text && text != []
    ensures Address(rest, host, colons, text, slashes)
  {
    DroppedSlashes(rest);
    HostParts(core, host, tail);
    colons := ReadTail(host, tail, text);
    slashes := rest[|core|..];
    assert rest == core + slashes;
    AddressJoins(rest, core, host, tail, colons, text, slashes);
  }

  lemma {:induction false} LeadingDropped(s: string)
    ensures DropLeading(s, ':') != [] ==> DropLeading(s, ':')[0] != ':'
  {
    if s != [] && s[0] == ':' {
      LeadingDropped(s[1..]);
    }
  }

  lemma ReadSpells(scheme: string, rest: string)
    requires NormaliseRest(scheme, rest).Some?
    ensures Spells(scheme, rest, NormaliseRest(scheme, rest).value)
  {
    var core := DropTrailing(rest, '/');
    var (host, tail) := SplitHost(core).value;
    var text := DropLeading(tail, ':');
    ReadPort(text);
    var colons, slashes := ReadAddress(rest, core, host, tail, text);
    PartsRead(scheme, rest, core, host, tail, text, ParseInt(text).value);
  }

  lemma RestExact(scheme: string, rest: string, url: string)
    ensures NormaliseRest(scheme, rest) == Some(url) <==> Spells(scheme, rest, url)
  {
    if NormaliseRest(scheme, rest) == Some(url) {
      ReadSpells(scheme, rest);
    }
    if Spells(scheme, rest, url) {
      SpelledReads(scheme, rest, url);
    }
  }

  // ---------------------------------------------------------------- the scheme

  /** "://" stands at `i` in `s`, and nowhere before. */
  predicate MarkAt(s: string, i: nat) {
    && i + 3 <= |s| && s[i] == ':' && s[i + 1] == '/' && s[i + 2] == '/'
    && forall j :: 0 <= j < i ==> !(s[j] == ':' && s[j + 1] == '/' && s[j + 2] == '/')
  }

  predicate NoMarkIn(s: string) {
    forall j {:trigger s[j]} :: 0 <= j && j + 3 <= |s| ==> !(s[j] == ':' && s[j + 1] == '/' && s[j + 2] == '/')
  }

  lemma MarkHere(s: string)
    ensures MARK <= s <==> |s| >= 3 && s[0] == ':' && s[1] == '/' && s[2] == '/'
  {
    if |s| >= 3 && s[0] == ':' && s[1] == '/' && s[2] == '/' {
      assert s[..3] == MARK;
    }
  }

  lemma {:induction false} FindMarkExact(s: string)
    ensures FindMark(s) < |s| ==> MarkAt(s, FindMark(s))
    ensures FindMark(s) == |s| ==> NoMarkIn(s)
    decreases |s|
  {
    MarkHere(s);
    if s != [] && !(MARK <= s) {
      FindMarkExact(s[1..]);
      var i := FindMark(s[1..]);
      assert forall j :: 1 <= j < |s| ==> s[j] == s[1..][j - 1];
    }
  }

  lemma MarkIsFirst(s: string, i: nat)
    requires MarkAt(s, i)
    ensures FindMark(s) == i
  {
    assert s[i] == ':';
    FindMarkExact(s);
  }

  /** `head` is `scheme` in capitals and small letters; the Kelvin sign counts as a capital k. */
  predicate SameButCase(head: string, scheme: string) {
    && |head| == |scheme|
    && forall i :: 0 <= i < |head| ==>
         || (head[i] == scheme[i] && !('A' <= head[i] <= 'Z') && head[i] as int != 0x212A)
         || ('A' <= head[i] <= 'Z' && head[i] as int + 32 == scheme[i] as int)
         || (head[i] as int == 0x212A && scheme[i] == 'k')
  }

  lemma LowerExact(head: string, scheme: string)
    ensures LowerAll(head) == scheme <==> SameButCase(head, scheme)
  {
    if LowerAll(head) == scheme {
      forall i | 0 <= i < |head|
        ensures scheme[i] == Lower(head[i])
      {}
    } else if |head| == |scheme| {
      var i :| 0 <= i < |head| && Lower(head[i]) != scheme[i];
    }
  }

  lemma WithoutMark(protocol: string, before: string, s: string, after: string, url: string)
    requires Blanks(before) && Blanks(after) && Trimmed(s) && NoMarkIn(s)
    ensures NormaliseUrl(protocol, before + s + after) == Some(url) <==> Spells(protocol, s, url)
  {
    StripExact(before, s, after);
    FindMarkExact(s);
    RestExact(protocol, s, url);
  }

  lemma HeadReads(head: string, rest: string, url: string)
    ensures NormaliseRest(LowerAll(head), rest) == Some(url) <==>
              exists scheme :: SameButCase(head, scheme) && Spells(scheme, rest, url)
  {
    LowerExact(head, LowerAll(head));
    RestExact(LowerAll(head), rest, url);
    if scheme :| SameButCase(head, scheme) && Spells(scheme, rest, url) {
      LowerExact(head, scheme);
    }
  }

  lemma WithMark(protocol: string, before: string, s: string, after: string, i: nat, url: string)
    requires Blanks(before) && Blanks(after) && Trimmed(s) && MarkAt(s, i)
    ensures NormaliseUrl(protocol, before + s + after) == Some(url) <==>
              exists scheme :: SameButCase(s[..i], scheme) && Spells(scheme, s[i + 3..], url)
  {
    StripExact(before, s, after);
    MarkIsFirst(s, i);
    HeadReads(s[..i], s[i + 3..], url);
  }

  /** What a text is read as, exactly. Whatever blanks stand around it, a text with a "://" is read as
      `url` if and only if what stands before the first one is http, https, socks4 or socks5 in any
      case and what follows is a host, colons, a port from 1 to 65535 and slashes; a text without one is
      read the same way under the list's own protocol. Everything else is refused. */
  lemma NormaliseExact(protocol: string, before: string, s: string, after: string, url: string)
    requires Blanks(before) && Blanks(after) && Trimmed(s)
    ensures NoMarkIn(s) ==>
              (NormaliseUrl(protocol, before + s + after) == Some(url) <==> Spells(protocol, s, url))
    ensures forall i :: 0 <= i < |s| && MarkAt(s, i) ==>
              (NormaliseUrl(protocol, before + s + after) == Some(url) <==>
                 exists scheme :: SameButCase(s[..i], scheme) && Spells(scheme, s[i + 3..], url))
  {
    if NoMarkIn(s) {
      WithoutMark(protocol, before, s, after, url);
    }
    forall i | 0 <= i < |s| && MarkAt(s, i)
      ensures NormaliseUrl(protocol, before + s + after) == Some(url) <==>
                exists scheme :: SameButCase(s[..i], scheme) && Spells(scheme, s[i + 3..], url)
    {
      WithMark(protocol, before, s, after, i, url);
    }
  }

  lemma SpelledRest(scheme: string, host: string, colons: string, digits: string, slashes: string)
    requires scheme == "http" || scheme == "https" || scheme == "socks4" || scheme == "socks5"
    requires HostOk(host) && AllOf(colons, ':') && colons != [] && AllOf(slashes, '/')
    requires digits != [] && AllDigits(digits) && 1 <= Digits(digits) <= 65535
    ensures Spells(scheme, host + colons + digits + slashes, scheme + "://" + host + ":" + Decimal(Digits(digits)))
  {
    assert PortParts("", "", digits, "", Digits(digits));
    assert digits == "" + ("" + digits) + "";
    assert Address(host + colons + digits + slashes, host, colons, digits, slashes);
  }

  /** A text spelled out: blanks, a scheme in any case, "://", a host, colons, a port with leading zeros or
      not, slashes and blanks give the scheme in small letters, the host and the plain port. */
  lemma SpelledOut(protocol: string, before: string, head: string, scheme: string, host: string, colons: string,
                   digits: string, slashes: string, after: string)
    requires Blanks(before) && Blanks(after) && SameButCase(head, scheme)
    requires scheme == "http" || scheme == "https" || scheme == "socks4" || scheme == "socks5"
    requires HostOk(host) && AllOf(colons, ':') && colons != [] && AllOf(slashes, '/')
    requires digits != [] && AllDigits(digits) && 1 <= Digits(digits) <= 65535
    ensures NormaliseUrl(protocol, before + (head + "://" + (host + colons + digits + slashes)) + after)
         == Some(scheme + "://" + host + ":" + Decimal(Digits(digits)))
  {
    var rest, url := host + colons + digits + slashes, scheme + "://" + host + ":" + Decimal(Digits(digits));
    var s := head + "://" + rest;
    SpelledTrimmed(head, scheme, host, colons, digits, slashes);
    SpelledMark(head, scheme, rest);
    SpelledRest(scheme, host, colons, digits, slashes);
    assert s[..|head|] == head && s[|head| + 3..] == rest;
    WithMark(protocol, before, s, after, |head|, url);
  }

  lemma SpelledTrimmed(head: string, scheme: string, host: string, colons: string, digits: string, slashes: string)
    requires SameButCase(head, scheme) && AllOf(slashes, '/') && digits != [] && AllDigits(digits)
    requires scheme == "http" || scheme == "https" || scheme == "socks4" || scheme == "socks5"
    ensures Trimmed(head + "://" + (host + colons + digits + slashes))
  {
    var s := head + "://" + (host + colons + digits + slashes);
    assert s[0] == head[0];
    assert s[|s| - 1] == if slashes == [] then digits[|digits| - 1] else slashes[|slashes| - 1];
    assert IsDigit(digits[|digits| - 1]);
  }

  lemma SpelledMark(head: string, scheme: string, rest: string)
    requires SameButCase(head, scheme)
    requires scheme == "http" || scheme == "https" || scheme == "socks4" || scheme == "socks5"
    ensures MarkAt(head + "://" + rest, |head|)
  {
    var s := head + "://" + rest;
    forall j | 0 <= j < |head|
      ensures s[j] != ':'
    {
      assert s[j] == head[j] && scheme[j] != ':';
    }
  }

  /** The port is printed without leading zeros. */
  lemma {:induction false} PlainDecimal(n: nat)
    ensures n > 0 ==> Decimal(n)[0] != '0'
  {
    if n >= 10 {
      PlainDecimal(n / 10);
      assert Decimal(n) == Decimal(n / 10) + [Digit(n % 10)];
    }
  }

  // ---------------------------------------------------------------- lines and lists

  /** What a line contributes: nothing if it is blank, starts with "#" or cannot be read, and otherwise
      exactly the proxy it is read as. */
  lemma LineRead(protocol: string, source: string, raw: string, s: string)
    requires Strip(raw) == s
    ensures var found := ParseLine(protocol, source, raw);
            && (s == [] || s[0] == '#' || NormaliseUrl(protocol, s).None? ==> found == [])
            && (s != [] && s[0] != '#' && NormaliseUrl(protocol, s).Some? ==>
                  |found| == 1 && found[0].url == NormaliseUrl(protocol, s).value && found[0].source == source
                  && found[0].protocol in SCHEMES && found[0].protocol + "://" <= found[0].url)
  {
    ParsedLineOk(protocol, source, raw);
    if ParseLine(protocol, source, raw) != [] {
      assert ParseLine(protocol, source, raw)[0] in ParseLine(protocol, source, raw);
    }
  }

  /** What one more line adds to a list's proxies: nothing if it is blank, starts with "#" or cannot be
      read, and otherwise exactly the proxy it is read as, under that URL's own scheme. */
  lemma LineAdds(protocol: string, source: string, lines: seq<string>, before: string, s: string, after: string)
    requires Blanks(before) && Blanks(after) && Trimmed(s)
    ensures var read := ParseLines(protocol, source, lines);
            var read' := ParseLines(protocol, source, lines + [before + s + after]);
            && read <= read'
            && (s == [] || s[0] == '#' || NormaliseUrl(protocol, s).None? ==> read' == read)
            && (s != [] && s[0] != '#' && NormaliseUrl(protocol, s).Some? ==>
                  |read'| == |read| + 1
                  && var e := read'[|read|];
                     && e.url == NormaliseUrl(protocol, s).value && e.source == source
                     && e.protocol in SCHEMES && e.protocol + "://" <= e.url)
    ensures ParseLines(protocol, source, []) == []
  {
    var raw := before + s + after;
    assert (lines + [raw])[..|lines|] == lines;
    StripExact(before, s, after);
    LineRead(protocol, source, raw, s);
  }

  /** The cap, exactly: a failed fetch adds nothing, a list that is no longer than the cap, or any list if
      there is no cap, adds all it has, in its order, and a longer one adds exactly `cap` of its entries. */
  lemma CapExact(results: seq<Option<seq<Entry>>>, shuffles: seq<seq<Entry>>, cap: int,
                 fetched: Option<seq<Entry>>, shuffled: seq<Entry>)
    requires |shuffles| == |results|
    requires fetched.Some? ==> multiset(shuffled) == multiset(fetched.value)
    ensures var was, now := Gathered(results, shuffles, cap), Gathered(results + [fetched], shuffles + [shuffled], cap);
            && was <= now
            && var added := now[|was|..];
               && (fetched.None? ==> added == [])
               && (fetched.Some? && (cap <= 0 || |fetched.value| <= cap) ==> added == fetched.value)
               && (fetched.Some? && 0 < cap < |fetched.value| ==>
                     |added| == cap && multiset(added) <= multiset(fetched.value))
    ensures Gathered([], [], cap) == []
  {
    assert (results + [fetched])[..|results|] == results && (shuffles + [shuffled])[..|shuffles|] == shuffles;
    if fetched.Some? {
      assert |multiset(shuffled)| == |multiset(fetched.value)|;
      if 0 < cap < |fetched.value| {
        assert shuffled == shuffled[..cap] + shuffled[cap..];
        assert multiset(shuffled) == multiset(shuffled[..cap]) + multiset(shuffled[cap..]);
      }
    }
  }
}
