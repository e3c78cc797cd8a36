/** The one-line rsyslog configuration: writing it, and parsing it back after a restart. */
module RsyslogConfig {
  import opened Wrappers

  type Port = p: int | 0 <= p < 0x1_0000

  datatype Protocol = TCP | UDP

  /** The properties of the server object. */
  datatype Settings = Settings(address: string, port: Port, protocol: Protocol)

  /** What parseConfig returns; Raised is the out_of_range it does not catch. */
  datatype Parsed = Found(address: string, port: nat, protocol: Protocol) | Nothing | Raised

  // ------------------------------------------------------------------- writing

  function Digit(d: nat): char
    requires d < 10
  {
    '0' + d as char
  }

  function Decimal(n: nat): string {
    if n < 10 then [Digit(n)] else Decimal(n / 10) + [Digit(n % 10)]
  }

  predicate Enabled(s: Settings) { s.port != 0 && s.address != "" }

  function Marker(p: Protocol): string { if p == UDP then "@" else "@@" }

  /** The line writeConfig writes; ipv6 is what inet_pton says of the address. */
  function Line(s: Settings, ipv6: bool): string {
    if !Enabled(s) then "*.* /dev/null"
    else if ipv6 then "*.* " + Marker(s.protocol) + ("[" + (s.address + ("]:" + Decimal(s.port))))
    else "*.* " + Marker(s.protocol) + (s.address + (":" + Decimal(s.port)))
  }

  function Written(s: Settings, ipv6: bool): string { Line(s, ipv6) + "\n" }

  // ------------------------------------------------------------------- parsing

  /** std::string::find, |s| standing for npos. */
  function Find(s: string, c: char): (i: nat)
    ensures i <= |s|
    ensures i < |s| ==> s[i] == c
    ensures forall k | 0 <= k < i :: s[k] != c
  {
    if s == "" || s[0] == c then 0 else 1 + Find(s[1..], c)
  }

  /** std::getline */
  function FirstLine(text: string): string { text[..Find(text, '\n')] }

  predicate IsSpace(c: char) { c == ' ' || 9 as char <= c <= 13 as char }

  predicate IsDigit(c: char) { '0' <= c <= '9' }

  function SkipSpaces(s: string): string {
    if s != "" && IsSpace(s[0]) then SkipSpaces(s[1..]) else s
  }

  function LeadingDigits(s: string): string {
    if s != "" && IsDigit(s[0]) then [s[0]] + LeadingDigits(s[1..]) else ""
  }

  function DigitValue(c: char): nat
    requires IsDigit(c)
  {
    c as int - '0' as int
  }

  function Value(digits: string): nat
    requires forall c | c in digits :: IsDigit(c)
  {
    if digits == "" then 0
    else
      assert digits[|digits| - 1] in digits;
      Value(digits[..|digits| - 1]) * 10 + DigitValue(digits[|digits| - 1])
  }

  lemma {:induction false} LeadingDigitsAreDigits(s: string)
    ensures forall c | c in LeadingDigits(s) :: IsDigit(c)
  {
    if s != "" && IsDigit(s[0]) { LeadingDigitsAreDigits(s[1..]); }
  }

  const ULONG_MAX := 0xFFFF_FFFF_FFFF_FFFF

  /** std::stoul in base 10: leading blanks, a sign, digits, and whatever follows;
      None stands for the exceptions, which parseConfig catches. */
  function Stoul(s: string): Option<nat> {
    var t := SkipSpaces(s);
    var negative := t != "" && t[0] == '-';
    var digits := LeadingDigits(if t != "" && (t[0] == '-' || t[0] == '+') then t[1..] else t);
    LeadingDigitsAreDigits(if t != "" && (t[0] == '-' || t[0] == '+') then t[1..] else t);
    if digits == "" || Value(digits) > ULONG_MAX then None
    else if negative then Some((ULONG_MAX + 1 - Value(digits)) % (ULONG_MAX + 1))
    else Some(Value(digits))
  }

  /** std::string::substr(from, count), where the count may have wrapped. */
  function Substr(s: string, from: nat, count: int): string
    requires from <= |s|
  {
    if 0 <= count <= |s| - from then s[from..from + count] else s[from..]
  }

  /** The last step: the address and the port text, if both are there. */
  function Finish(address: string, port: string, protocol: Protocol): Parsed {
    if address == "" || port == "" then Nothing
    else
      match Stoul(port)
      case None => Nothing
      case Some(n) => Found(address, n % 0x1_0000_0000, protocol)
  }

  /** The line split where its brackets or its first colon say; start is where the
      address begins. */
  function Split(line: string, start: nat, protocol: Protocol): Parsed
    requires start <= |line|
  {
    var left, right := Find(line, '['), Find(line, ']');
    if left < |line| || right < |line| then
      if left == |line| || right == |line| then Nothing
      else if |line| < right + 2 || line[right + 1] != ':' then Nothing
      else Finish(Substr(line, left + 1, right - left - 1), line[right + 2..], protocol)
    else
      var colon := Find(line, ':');
      if colon == |line| then Nothing
      else Finish(Substr(line, start, colon - start), line[colon + 1..], protocol)
  }

  function ParseLine(line: string): Parsed {
    if line == "" || line[0] == '#' then Nothing
    else
      var at := Find(line, '@');
      if at == |line| then Nothing
      else if at + 1 == |line| then Raised
      else if line[at + 1] == '@' then Split(line, at + 2, TCP)
      else Split(line, at + 1, UDP)
  }

  function ParseConfig(text: string): Parsed { ParseLine(FirstLine(text)) }

  // ---------------------------------------------------------------- round trips

  predicate Free(s: string, c: char) { forall i | 0 <= i < |s| :: s[i] != c }

  /** What inet_pton accepts as IPv6 is made of hexadecimal digits, colons and dots. */
  predicate IPv6Text(address: string) {
    forall c | c in address :: c in "0123456789abcdefABCDEF:."
  }

  /** The addresses that survive a restart. */
  predicate Survives(s: Settings, ipv6: bool) {
    ipv6 ||
    (&& Free(s.address, ':') && Free(s.address, '[') && Free(s.address, ']') && Free(s.address, '\n')
     && !(s.protocol == UDP && s.address != "" && s.address[0] == '@'))
  }

  /** A search passes over text that does not hold the character. */
  lemma {:induction false} FindSkips(a: string, rest: string, c: char)
    requires Free(a, c)
    ensures Find(a + rest, c) == |a| + Find(rest, c)
  {
    if a == "" {
      assert a + rest == rest;
    } else {
      assert a[0] != c && (a + rest)[1..] == a[1..] + rest;
      FindSkips(a[1..], rest, c);
    }
  }

  lemma FindNone(s: string, c: char)
    requires Free(s, c)
    ensures Find(s, c) == |s|
  {}

  lemma {:induction false} DecimalDigits(n: nat)
    ensures Decimal(n) != "" && forall c | c in Decimal(n) :: IsDigit(c)
    ensures Value(Decimal(n)) == n
  {
    if n < 10 {
      assert Decimal(n)[..0] == "";
    } else {
      DecimalDigits(n / 10);
      assert Decimal(n)[..|Decimal(n)| - 1] == Decimal(n / 10);
    }
  }

  lemma {:induction false} AllLeading(s: string)
    requires forall c | c in s :: IsDigit(c)
    ensures LeadingDigits(s) == s
  {
    if s != "" {
      assert s[0] in s;
      AllLeading(s[1..]);
    }
  }

  lemma StoulOfDecimal(n: nat)
    requires n <= ULONG_MAX
    ensures Stoul(Decimal(n)) == Some(n)
  {
    DecimalDigits(n);
    AllLeading(Decimal(n));
    assert Decimal(n)[0] in Decimal(n);
  }

  lemma DigitsFree(n: nat, c: char)
    requires !IsDigit(c)
    ensures Free(Decimal(n), c)
  {
    DecimalDigits(n);
    forall i | 0 <= i < |Decimal(n)| ensures Decimal(n)[i] != c {
      assert Decimal(n)[i] in Decimal(n);
    }
  }

  /** Everything up to the address. */
  function Prefix(p: Protocol): string { "*.* " + Marker(p) }

  lemma PrefixFree(p: Protocol, c: char)
    requires c in "[]:\n"
    ensures Free(Prefix(p), c)
  {}

  /** The line up to the first newline, when only the end of it is one. */
  lemma WholeLine(line: string)
    requires Free(line, '\n')
    ensures FirstLine(line + "\n") == line
  {
    FindSkips(line, "\n", '\n');
  }

  /** The marker is read as it was written unless UDP's is followed by another '@'. */
  lemma MarkerRead(p: Protocol, body: string)
    requires body != ""
    ensures ParseLine(Prefix(p) + body) ==
      if p == UDP && body[0] == '@' then Split(Prefix(p) + body, 6, TCP) else Split(Prefix(p) + body, |Prefix(p)|, p)
  {
    hide Split, Find;
    var line := Prefix(p) + body;
    assert line == "*.* " + line[4..] && line[4..] == ['@'] + line[5..];
    FindSkips("*.* ", line[4..], '@');
    FindFirst('@', line[5..]);
  }

  lemma FinishPort(address: string, port: Port, p: Protocol)
    requires address != ""
    ensures Finish(address, Decimal(port), p) == Found(address, port, p)
  {
    hide Decimal, Stoul;
    DecimalDigits(port);
    StoulOfDecimal(port);
  }

  lemma NoBracket(prefix: string, address: string, port: string, c: char)
    requires Free(prefix, c) && Free(address, c) && Free(port, c) && c != ':'
    ensures var line := prefix + (address + (":" + port)); Find(line, c) == |line|
  {
    hide Find;
    FindSkips(prefix, address + (":" + port), c);
    FindSkips(address, ":" + port, c);
    FindSkips(":", port, c);
    FindNone(port, c);
  }

  lemma ColonIsThere(address: string, port: string)
    ensures Find(address + (":" + port), ':') <= |address|
  {
    assert (address + (":" + port))[|address|] == ':';
  }

  lemma SplitAtColon(line: string, start: nat, p: Protocol)
    requires Find(line, '[') == |line| && Find(line, ']') == |line| && start <= Find(line, ':') < |line|
    ensures Split(line, start, p) == Finish(line[start..Find(line, ':')], line[Find(line, ':') + 1..], p)
  {
    hide Find, Finish;
  }

  lemma SplitAtBrackets(line: string, start: nat, p: Protocol, left: nat, right: nat)
    requires start <= |line| && left == Find(line, '[') && right == Find(line, ']')
    requires left < right && right + 2 <= |line| && line[right + 1] == ':'
    ensures Split(line, start, p) == Finish(line[left + 1..right], line[right + 2..], p)
  {
    hide Find, Finish;
  }

  /** A prefix, an address and a port without brackets, split at the colon. */
  lemma ColonFound(prefix: string, address: string, port: string, p: Protocol)
    requires Free(prefix, '[') && Free(address, '[') && Free(port, '[')
    requires Free(prefix, ']') && Free(address, ']') && Free(port, ']')
    requires Free(prefix, ':')
    ensures var line, colon := prefix + (address + (":" + port)), |prefix| + Find(address + (":" + port), ':');
      colon < |line| && Split(line, |prefix|, p) == Finish(line[|prefix|..colon], line[colon + 1..], p)
  {
    hide Find, Finish, Free, Split;
    NoBracket(prefix, address, port, '[');
    NoBracket(prefix, address, port, ']');
    FindSkips(prefix, address + (":" + port), ':');
    ColonIsThere(address, port);
    SplitAtColon(prefix + (address + (":" + port)), |prefix|, p);
  }

  lemma PrefixPlain(p: Protocol)
    ensures Free(Prefix(p), '[') && Free(Prefix(p), ']') && Free(Prefix(p), ':')
  {}

  lemma PortPlain(n: nat)
    ensures Free(Decimal(n), '[') && Free(Decimal(n), ']') && Free(Decimal(n), ':')
  {
    DigitsFree(n, '[');
    DigitsFree(n, ']');
    DigitsFree(n, ':');
  }

  lemma PlainSplit(s: Settings)
    requires Enabled(s) && Free(s.address, ':') && Free(s.address, '[') && Free(s.address, ']')
    ensures Split(Prefix(s.protocol) + (s.address + (":" + Decimal(s.port))), |Prefix(s.protocol)|, s.protocol)
         == Found(s.address, s.port, s.protocol)
  {
    hide Split, Decimal, Find, Finish;
    var prefix, port := Prefix(s.protocol), Decimal(s.port);
    PrefixPlain(s.protocol);
    PortPlain(s.port);
    ColonFound(prefix, s.address, port, s.protocol);
    FindSkips(s.address, ":" + port, ':');
    FindFirst(':', port);
    PiecesOf(prefix, s.address, ":", port);
    FinishPort(s.address, s.port, s.protocol);
  }

  lemma FindFirst(c: char, rest: string)
    ensures Find([c] + rest, c) == 0
  {}

  lemma PiecesOf(a: string, b: string, c: string, d: string)
    ensures var line := a + (b + (c + d)); line[|a|..|a| + |b|] == b && line[|a| + |b| + |c|..] == d
  {}

  lemma IPv6Free(address: string, c: char)
    requires IPv6Text(address) && c in "[]\n@"
    ensures Free(address, c)
  {
    forall i | 0 <= i < |address| ensures address[i] != c {
      assert address[i] in address;
    }
  }

  lemma BracketsFound(prefix: string, address: string, port: string)
    requires Free(prefix, '[') && Free(prefix, ']') && Free(address, ']')
    ensures var line := prefix + ("[" + (address + ("]:" + port)));
      Find(line, '[') == |prefix| && Find(line, ']') == |prefix| + 1 + |address|
  {
    hide Find;
    var behind := address + ("]:" + port);
    FindSkips(prefix, "[" + behind, '[');
    FindFirst('[', behind);
    FindSkips(prefix, "[" + behind, ']');
    FindSkips("[", behind, ']');
    FindSkips(address, "]:" + port, ']');
    assert "]:" + port == [']'] + (":" + port);
    FindFirst(']', ":" + port);
  }

  lemma BracketedPieces(prefix: string, address: string, port: string)
    ensures var line, right := prefix + ("[" + (address + ("]:" + port))), |prefix| + 1 + |address|;
      && right + 2 <= |line| && line[right + 1] == ':'
      && line[|prefix| + 1..right] == address && line[right + 2..] == port
  {}

  lemma BracketedSplit(s: Settings)
    requires Enabled(s) && IPv6Text(s.address)
    ensures Split(Prefix(s.protocol) + ("[" + (s.address + ("]:" + Decimal(s.port)))), |Prefix(s.protocol)|, s.protocol)
         == Found(s.address, s.port, s.protocol)
  {
    PrefixPlain(s.protocol);
    IPv6Free(s.address, ']');
    hide Decimal, Find, Finish, Split, Prefix, IPv6Text, Free;
    var prefix, port := Prefix(s.protocol), Decimal(s.port);
    BracketsFound(prefix, s.address, port);
    BracketedPieces(prefix, s.address, port);
    SplitAtBrackets(prefix + ("[" + (s.address + ("]:" + port))), |prefix|, s.protocol, |prefix|, |prefix| + 1 + |s.address|);
    FinishPort(s.address, s.port, s.protocol);
  }

  lemma LineFree(s: Settings, ipv6: bool)
    requires Enabled(s) && Free(s.address, '\n')
    ensures Free(Line(s, ipv6), '\n')
  {
    DigitsFree(s.port, '\n');
    PrefixFree(s.protocol, '\n');
  }

  /** What survives is read back as it was written. */
  lemma SurvivorsReadBack(s: Settings, ipv6: bool)
    requires Enabled(s) && Survives(s, ipv6) && (ipv6 ==> IPv6Text(s.address))
    ensures ParseConfig(Written(s, ipv6)) == Found(s.address, s.port, s.protocol)
  {
    hide Split, Find, FirstLine;
    if ipv6 {
      IPv6Free(s.address, '\n');
      MarkerRead(s.protocol, "[" + (s.address + ("]:" + Decimal(s.port))));
      BracketedSplit(s);
    } else {
      MarkerRead(s.protocol, s.address + (":" + Decimal(s.port)));
      PlainSplit(s);
    }
    LineFree(s, ipv6);
    WholeLine(Line(s, ipv6));
  }

  // -------------------------------------------------------- what does not survive

  /** The address found is a piece of the line. */
  lemma FoundIsPiece(line: string, c: char)
    requires Free(line, c) && ParseLine(line).Found?
    ensures Free(ParseLine(line).address, c)
  {
    hide Split, Free;
    var at := Find(line, '@');
    var start, p := if line[at + 1] == '@' then at + 2 else at + 1, if line[at + 1] == '@' then TCP else UDP;
    assert ParseLine(line) == Split(line, start, p);
    SplitIsPiece(line, start, p, c);
  }

  lemma SplitIsPiece(line: string, start: nat, p: Protocol, c: char)
    requires start <= |line| && Free(line, c) && Split(line, start, p).Found?
    ensures Free(Split(line, start, p).address, c)
  {
    hide Substr, Free;
    var left, right, colon := Find(line, '['), Find(line, ']'), Find(line, ':');
    if left < |line| && right < |line| {
      SubstrFree(line, left + 1, right - left - 1, c);
    } else if left == |line| && right == |line| {
      SubstrFree(line, start, colon - start, c);
    }
  }

  lemma SubstrFree(line: string, from: nat, count: int, c: char)
    requires from <= |line| && Free(line, c)
    ensures Free(Substr(line, from, count), c)
  {}

  lemma SplitProtocol(line: string, start: nat, p: Protocol)
    requires start <= |line| && Split(line, start, p).Found?
    ensures Split(line, start, p).protocol == p
  {}

  /** A colon in the address ends it too soon. */
  lemma ColonSplit(s: Settings)
    requires Enabled(s) && Free(s.address, '[') && Free(s.address, ']') && !Free(s.address, ':')
    ensures var r := Split(Line(s, false), |Prefix(s.protocol)|, s.protocol); r.Found? ==> r.address != s.address
  {
    hide Split, Decimal;
    var prefix, port := Prefix(s.protocol), Decimal(s.port);
    var rest := s.address + (":" + port);
    PrefixPlain(s.protocol);
    PortPlain(s.port);
    ColonFound(prefix, s.address, port, s.protocol);
    var colon := Find(rest, ':');
    assert (prefix + rest)[|prefix|..|prefix| + colon] == rest[..colon];
    assert Free(rest[..colon], ':');
  }

  lemma BracketInAddress(prefix: string, address: string, port: string, k: nat)
    requires Free(port, '[') && Free(port, ']')
    requires var line := prefix + (address + (":" + port)); |prefix| <= k < |line| && line[k] in "[]"
    ensures k - |prefix| < |address| && address[k - |prefix|] == (prefix + (address + (":" + port)))[k]
  {
    var rest := address + (":" + port);
    assert (prefix + rest)[k] == rest[k - |prefix|];
    BehindAddress(address, port);
  }

  /** What stands between the brackets is not the address that has them. */
  lemma BracketPiece(prefix: string, address: string, port: string)
    requires Free(prefix, '[') && Free(port, '[') && Free(port, ']') && port != ""
    requires var line := prefix + (address + (":" + port));
      && Find(line, '[') < |line| && Find(line, ']') < |line| && Find(line, ']') + 2 <= |line|
    ensures var line := prefix + (address + (":" + port));
      var left, right := Find(line, '['), Find(line, ']');
      Substr(line, left + 1, right - left - 1) != address
  {
    var rest := address + (":" + port);
    var line := prefix + rest;
    FindSkips(prefix, rest, '[');
    var left, right, l := Find(line, '['), Find(line, ']'), Find(rest, '[');
    BracketInAddress(prefix, address, port, left);
    if left < right {
      BracketInAddress(prefix, address, port, right);
    } else {
      EverythingBehind(prefix, address, port, l);
    }
  }

  /** What stands behind an opening bracket of the address is not the address. */
  lemma EverythingBehind(prefix: string, address: string, port: string, l: nat)
    requires Free(port, '[') && l < |address| && address[l] == '['
    ensures (prefix + (address + (":" + port)))[|prefix| + l + 1..] != address
  {
    var line := prefix + (address + (":" + port));
    assert line[|prefix| + l + 1..] == address[l + 1..] + (":" + port);
    assert address == address[..l] + ['['] + address[l + 1..];
    FewerBrackets(address[..l], address[l + 1..], ":" + port);
  }

  lemma BehindAddress(address: string, port: string)
    requires Free(port, '[') && Free(port, ']')
    ensures var rest := address + (":" + port);
      forall k | |address| <= k < |rest| :: rest[k] != '[' && rest[k] != ']'
  {
    var rest := address + (":" + port);
    forall k | |address| <= k < |rest| ensures rest[k] != '[' && rest[k] != ']' {
      assert k > |address| ==> rest[k] == port[k - |address| - 1];
    }
  }

  lemma BracketSplit(s: Settings)
    requires Enabled(s) && !(Free(s.address, '[') && Free(s.address, ']'))
    ensures var r := Split(Line(s, false), |Prefix(s.protocol)|, s.protocol); r.Found? ==> r.address != s.address
  {
    hide Decimal, Find, Substr;
    PrefixPlain(s.protocol);
    PortPlain(s.port);
    DecimalDigits(s.port);
    SomeBracket(Prefix(s.protocol), s.address, ":" + Decimal(s.port));
    if Split(Line(s, false), |Prefix(s.protocol)|, s.protocol).Found? {
      BracketPiece(Prefix(s.protocol), s.address, Decimal(s.port));
    }
  }

  lemma SomeBracket(prefix: string, address: string, rest: string)
    requires !(Free(address, '[') && Free(address, ']'))
    ensures var line := prefix + (address + rest); Find(line, '[') < |line| || Find(line, ']') < |line|
  {
    var line := prefix + (address + rest);
    var i :| 0 <= i < |address| && (address[i] == '[' || address[i] == ']');
    assert line[|prefix| + i] == address[i];
  }

  /** A text that holds one bracket less cannot be the same text. */
  lemma FewerBrackets(before: string, behind: string, rest: string)
    requires Free(rest, '[')
    ensures before + ['['] + behind != behind + rest
  {
    assert '[' !in rest;
    assert multiset(before + ['['] + behind) == multiset(before) + multiset{'['} + multiset(behind);
    assert multiset(behind + rest) == multiset(behind) + multiset(rest);
    assert multiset(before + ['['] + behind)['['] > multiset(behind)['['] == multiset(behind + rest)['['];
  }

  predicate DiffersFrom(r: Parsed, s: Settings) {
    !r.Found? || r.address != s.address || r.protocol != s.protocol
  }

  /** An enabled configuration comes back from the file as it was set exactly when its
      address is IPv6, or is free of ':', '[', ']' and newline and, for UDP, does not
      start with '@'. */
  lemma ReadsBackIffSurvives(s: Settings, ipv6: bool)
    requires Enabled(s) && (ipv6 ==> IPv6Text(s.address))
    ensures ParseConfig(Written(s, ipv6)) == Found(s.address, s.port, s.protocol) <==> Survives(s, ipv6)
    ensures Survives(s, ipv6) || DiffersFrom(ParseConfig(Written(s, ipv6)), s)
  {
    hide Split;
    if Survives(s, ipv6) {
      SurvivorsReadBack(s, ipv6);
    } else if !Free(s.address, '\n') {
      NewlineLost(s, ipv6);
    } else {
      LineFree(s, false);
      WholeLine(Line(s, false));
      OthersLost(s);
    }
  }

  lemma NewlineLost(s: Settings, ipv6: bool)
    requires !Free(s.address, '\n')
    ensures DiffersFrom(ParseConfig(Written(s, ipv6)), s)
  {
    hide Split;
    var line := FirstLine(Written(s, ipv6));
    FirstLineFree(Written(s, ipv6));
    if ParseLine(line).Found? {
      FoundIsPiece(line, '\n');
    }
  }

  lemma FirstLineFree(text: string)
    ensures Free(FirstLine(text), '\n')
  {}

  lemma OthersLost(s: Settings)
    requires Enabled(s) && !Survives(s, false) && Free(s.address, '\n')
    ensures DiffersFrom(ParseLine(Line(s, false)), s)
  {
    hide Split, Find, ParseLine;
    var body := s.address + (":" + Decimal(s.port));
    MarkerRead(s.protocol, body);
    if s.protocol == UDP && s.address[0] == '@' {
      if Split(Line(s, false), 6, TCP).Found? { SplitProtocol(Line(s, false), 6, TCP); }
    } else if Free(s.address, '[') && Free(s.address, ']') {
      ColonSplit(s);
    } else {
      BracketSplit(s);
    }
  }

  /** A disabled configuration parses to nothing. */
  lemma DisabledReadsNothing(s: Settings, ipv6: bool)
    requires !Enabled(s)
    ensures ParseConfig(Written(s, ipv6)) == Nothing
  {
    WholeLine("*.* /dev/null");
    FindNone("*.* /dev/null", '@');
  }

  /** On any text at all the parser returns, unless the first '@' of a line that is no
      comment is the last character of it. */
  lemma RaisedIff(text: string)
    ensures ParseConfig(text) == Raised <==>
      var line := FirstLine(text);
      line != "" && line[0] != '#' && Find(line, '@') + 1 == |line|
  {
    hide Split;
    var line := FirstLine(text);
    if line != "" && Find(line, '@') + 1 < |line| {
      NotRaised(line, Find(line, '@') + 1, UDP);
      if line[Find(line, '@') + 1] == '@' { NotRaised(line, Find(line, '@') + 2, TCP); }
    }
  }

  lemma NotRaised(line: string, start: nat, p: Protocol)
    requires start <= |line|
    ensures Split(line, start, p) != Raised
  {}

  // ---------------------------------------------------------------- the server

  /** restore(): the properties of a new server, set from the file if it parses. The
      port narrows to 16 bits. */
  function Restored(initial: Settings, text: string): Settings {
    match ParseConfig(text)
    case Found(address, port, protocol) => Settings(address, port % 0x1_0000, protocol)
    case _ => initial
  }

  /** After a restart the server has the settings that were written exactly if they were
      enabled with an address that survives, or are the ones it starts with anyway. */
  lemma RestartKeepsSettings(s: Settings, ipv6: bool, initial: Settings)
    requires !Enabled(initial) && (ipv6 ==> IPv6Text(s.address))
    ensures Restored(initial, Written(s, ipv6)) == s <==> if Enabled(s) then Survives(s, ipv6) else s == initial
  {
    hide ParseConfig, Written, Survives;
    if Enabled(s) {
      ReadsBackIffSurvives(s, ipv6);
    } else {
      DisabledReadsNothing(s, ipv6);
    }
  }

  datatype Set = Changed | InvalidArgument

  class Server {
    var address: string
    var port: Port
    var protocol: Protocol
    var file: string
    const isIPv6: string -> bool

    ghost function View(): Settings
      reads this
    {
      Settings(address, port, protocol)
    }

    /** The file holds the settings as they are now. */
    ghost predicate Saved()
      reads this
    {
      file == Written(View(), isIPv6(address))
    }

    /** A server that finds what an earlier one wrote. */
    constructor (initial: Settings, file: string, isIPv6: string -> bool)
      requires ParseConfig(file) != Raised
      ensures View() == Restored(initial, file) && this.file == file && this.isIPv6 == isIPv6
    {
      address, port, protocol := initial.address, initial.port, initial.protocol;
      this.file, this.isIPv6 := file, isIPv6;
      new;
      var r := ParseFile(file);
      if r.Found? {
        address, port, protocol := r.address, r.port % 0x1_0000, r.protocol;
      }
    }

    method WriteConfig(s: Settings)
      modifies `file
      ensures file == Written(s, isIPv6(s.address))
    {
      var stream := "";
      if s.port != 0 && s.address != "" {
        var mark := if s.protocol == UDP then "@" else "@@";
        if isIPv6(s.address) {
          stream := "*.* " + mark + ("[" + (s.address + ("]:" + Decimal(s.port))));
        } else {
          stream := "*.* " + mark + (s.address + (":" + Decimal(s.port)));
        }
      } else {
        stream := "*.* /dev/null";
      }
      file := stream + "\n";
    }

    /** valid is what getaddrinfo says of the value. */
    method SetAddress(value: string, valid: bool) returns (r: Set)
      modifies this
      ensures r == if value != old(address) && value != "" && !valid then InvalidArgument else Changed
      ensures r == InvalidArgument ==> View() == old(View()) && file == old(file)
      ensures r == Changed ==> View() == old(View()).(address := value)
      ensures old(Saved()) || (r == Changed && value != old(address)) ==> Saved()
    {
      if address == value { return Changed; }
      if value != "" && !valid { return InvalidArgument; }
      WriteConfig(Settings(value, port, protocol));
      address := value;
      return Changed;
    }

    method SetPort(value: Port)
      modifies this
      ensures View() == old(View()).(port := value)
      ensures old(Saved()) || value != old(port) ==> Saved()
    {
      if port == value { return; }
      WriteConfig(Settings(address, value, protocol));
      port := value;
    }

    method SetTransportProtocol(value: Protocol)
      modifies this
      ensures View() == old(View()).(protocol := value)
      ensures old(Saved()) || value != old(protocol) ==> Saved()
    {
      if protocol == value { return; }
      WriteConfig(Settings(address, port, value));
      protocol := value;
    }
  }

  /** parseConfig, position by position. */
  method ParseFile(text: string) returns (r: Parsed)
    ensures r == ParseConfig(text)
  {
    hide Split;
    var line := FirstLine(text);
    if line == "" || line[0] == '#' { return Nothing; }
    var start := Find(line, '@');
    if start == |line| { return Nothing; }
    if start + 1 == |line| { return Raised; }
    var protocol := TCP;
    if line[start + 1] == '@' {
      start := start + 2;
    } else {
      protocol := UDP;
      start := start + 1;
    }
    r := SplitLine(line, start, protocol);
  }

  method SplitLine(line: string, start: nat, protocol: Protocol) returns (r: Parsed)
    requires start <= |line|
    ensures r == Split(line, start, protocol)
  {
    hide Stoul, Substr;
    var serverAddress, serverPort;
    var left: int, right: int := Find(line, '['), Find(line, ']');
    if left != |line| || right != |line| {
      if left == |line| || right == |line| { return Nothing; }
      if |line| < right + 2 || line[right + 1] != ':' { return Nothing; }
      serverAddress := Substr(line, left + 1, right - left - 1);
      serverPort := line[right + 2..];
    } else {
      var pos: int := Find(line, ':');
      if pos == |line| { return Nothing; }
      serverAddress := Substr(line, start, pos - start);
      serverPort := line[pos + 1..];
    }
    if serverAddress == "" || serverPort == "" { return Nothing; }
    var number := Stoul(serverPort);
    if number.None? { return Nothing; }
    return Found(serverAddress, number.value % 0x1_0000_0000, protocol);
  }

  // ------------------------------------------------------------- the text itself

  /** Digits only, standing for n, and without zeros in front. */
  predicate ShowsNumber(s: string, n: nat) {
    && s != "" && (forall i | 0 <= i < |s| :: '0' <= s[i] <= '9') && Value(s) == n
    && (|s| > 1 ==> s[0] != '0')
  }

  lemma {:induction false} DecimalShows(n: nat)
    ensures Decimal(n) != "" && (n > 0 ==> Decimal(n)[0] != '0')
  {
    if n >= 10 { DecimalShows(n / 10); }
  }

  /** The line: one '@' for UDP and two for TCP behind the selector, the address, in brackets
      exactly if it is an IPv6 one, a colon and the port in decimal; and the null device
      when the port is 0 or the address empty. */
  lemma LineShows(s: Settings, ipv6: bool)
    ensures var line := Line(s, ipv6);
      if s.port == 0 || s.address == "" then line == "*.* /dev/null"
      else
        var marks := if s.protocol.TCP? then "*.* @@" else "*.* @";
        var host := if ipv6 then "[" + s.address + "]" else s.address;
        exists port :: ShowsNumber(port, s.port) && line == marks + host + ":" + port
  {
    DecimalDigits(s.port);
    DecimalShows(s.port);
    var port := Decimal(s.port);
    forall i | 0 <= i < |port| ensures IsDigit(port[i]) { assert port[i] in port; }
    assert ShowsNumber(port, s.port);
    if s.port != 0 && s.address != "" {
      var marks := if s.protocol.TCP? then "*.* @@" else "*.* @";
      var host := if ipv6 then "[" + s.address + "]" else s.address;
      assert Line(s, ipv6) == marks + host + ":" + port;
    }
  }

  /** Nothing is taken from a comment, an empty first line or one without an '@', whatever
      follows. */
  lemma IgnoresComments(text: string)
    requires text == "" || text[0] == '#' || text[0] == '\n' || Free(FirstLine(text), '@')
    ensures ParseConfig(text) == Nothing
  {
    if text != "" && text[0] == '#' { assert FirstLine(text)[0] == '#'; }
    if Free(FirstLine(text), '@') { FindNone(FirstLine(text), '@'); }
  }
}
