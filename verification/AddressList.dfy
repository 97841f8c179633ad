/** The memcached address list: its printer, its parser, and when one undoes the other. */
module AddressLists {
  import opened Common

  type Port = p: nat | p < 0x1_0000

  datatype Address = Address(host: string, port: Port)

  // ---------------------------------------------------------------- printing

  function DigitChar(d: nat): char
    requires d < 10
  {
    ('0' as int + d) as char
  }

  function PrintNat(n: nat): (s: string)
    ensures |s| > 0
    ensures forall i | 0 <= i < |s| :: IsDigit(s[i])
  {
    if n < 10 then [DigitChar(n)] else PrintNat(n / 10) + [DigitChar(n % 10)]
  }

  function PrintAddress(a: Address): string {
    a.host + ":" + PrintNat(a.port)
  }

  function Print(list: seq<Address>): string {
    if |list| == 0 then ""
    else if |list| == 1 then PrintAddress(list[0])
    else PrintAddress(list[0]) + "," + Print(list[1..])
  }

  lemma {:induction false} PrintSnoc(list: seq<Address>, a: Address)
    requires |list| > 0
    ensures Print(list + [a]) == Print(list) + "," + PrintAddress(a)
  {
    if |list| == 1 {
      assert (list + [a])[1..] == [a];
    } else {
      PrintSnoc(list[1..], a);
      assert (list + [a])[1..] == list[1..] + [a];
    }
  }

  /** `Display::fmt`: the indexed loop that writes a comma before every item but the first. */
  method Display(list: seq<Address>) returns (s: string)
    ensures s == Print(list)
  {
    s := "";
    for i := 0 to |list|
      invariant s == Print(list[..i])
    {
      if i > 0 {
        s := s + ",";
        PrintSnoc(list[..i], list[i]);
      }
      s := s + (list[i].host + ":" + PrintNat(list[i].port));
      assert list[..i + 1] == list[..i] + [list[i]];
    }
    assert list[..|list|] == list;
  }

  // ----------------------------------------------------------------- parsing

  predicate IsDigit(c: char) {
    '0' <= c <= '9'
  }

  /** Unicode `White_Space`, the class that `str::trim` strips. */
  predicate IsWhitespace(c: char) {
    var n := c as int;
    || 0x09 <= n <= 0x0D || n == 0x20 || n == 0x85 || n == 0xA0 || n == 0x1680
    || 0x2000 <= n <= 0x200A || n == 0x2028 || n == 0x2029 || n == 0x202F || n == 0x205F || n == 0x3000
  }

  function TrimStart(s: string): string {
    if s != "" && IsWhitespace(s[0]) then TrimStart(s[1..]) else s
  }

  function TrimEnd(s: string): string {
    if s != "" && IsWhitespace(s[|s| - 1]) then TrimEnd(s[..|s| - 1]) else s
  }

  function Trim(s: string): string {
    TrimEnd(TrimStart(s))
  }

  /** The position of the first `c`, or `|s|`. */
  function IndexOf(s: string, c: char): (i: nat)
    ensures i <= |s|
    ensures i < |s| ==> s[i] == c
    ensures c !in s[..i]
  {
    if s == "" || s[0] == c then 0 else
      var j := IndexOf(s[1..], c);
      assert s[..j + 1] == [s[0]] + s[1..][..j];
      j + 1
  }

  /** `str::split`: always at least one piece. */
  function Split(s: string, sep: char): (pieces: seq<string>)
    decreases |s|
  {
    var i := IndexOf(s, sep);
    if i == |s| then [s] else [s[..i]] + Split(s[i + 1..], sep)
  }

  /** The digits of a `u16`, failing as soon as the value overflows. */
  function Accumulate(s: string, acc: Port): Option<Port> {
    if s == "" then Some(acc)
    else if !IsDigit(s[0]) then None
    else
      var v := acc * 10 + (s[0] as int - '0' as int);
      if v < 0x1_0000 then Accumulate(s[1..], v) else None
  }

  /** `str::parse::<u16>`: one optional `+`, then at least one digit. */
  function ParsePort(s: string): Option<Port> {
    var digits := if s != "" && s[0] == '+' then s[1..] else s;
    if digits == "" then None else Accumulate(digits, 0)
  }

  function ParseToken(token: string): Option<Address> {
    var t := Trim(token);
    var i := IndexOf(t, ':');
    if i == |t| then None else
      match ParsePort(t[i + 1..])
      case None => None
      case Some(port) => Some(Address(t[..i], port))
  }

  /** `filter_map` over the tokens: a malformed token is dropped. */
  function ParseTokens(tokens: seq<string>): seq<Address> {
    if tokens == [] then [] else
      match ParseToken(tokens[0])
      case None => ParseTokens(tokens[1..])
      case Some(a) => [a] + ParseTokens(tokens[1..])
  }

  /** `FromStr::from_str`, which never fails. */
  function Parse(s: string): seq<Address> {
    ParseTokens(Split(s, ','))
  }

  // -------------------------------------------------------------- round trip

  /** A host that survives printing and parsing. */
  predicate Clean(host: string) {
    ',' !in host && ':' !in host && (host != "" ==> !IsWhitespace(host[0]))
  }

  predicate AllClean(list: seq<Address>) {
    forall i | 0 <= i < |list| :: Clean(list[i].host)
  }

  lemma {:induction false} AccumulateAppend(a: string, d: char, acc: Port)
    requires IsDigit(d)
    ensures Accumulate(a + [d], acc) ==
            match Accumulate(a, acc)
            case None => None
            case Some(v) => Accumulate([d], v)
  {
    if a == "" {
      assert a + [d] == [d];
    } else {
      assert (a + [d])[1..] == a[1..] + [d];
      if IsDigit(a[0]) {
        var v := acc * 10 + (a[0] as int - '0' as int);
        if v < 0x1_0000 {
          AccumulateAppend(a[1..], d, v);
        }
      }
    }
  }

  /** Every port is read back from its decimal form. */
  lemma {:induction false} PortRoundTrip(n: Port)
    ensures Accumulate(PrintNat(n), 0) == Some(n)
  {
    if n >= 10 {
      PortRoundTrip(n / 10);
      AccumulateAppend(PrintNat(n / 10), DigitChar(n % 10), 0);
      assert Accumulate("", n) == Some(n);
      assert [DigitChar(n % 10)][1..] == "";
    }
  }

  lemma {:induction false} IndexOfFirst(head: string, c: char, rest: string)
    requires c !in head
    ensures IndexOf(head + [c] + rest, c) == |head|
  {
    if head != "" {
      assert (head + [c] + rest)[1..] == head[1..] + [c] + rest;
      IndexOfFirst(head[1..], c, rest);
    }
  }

  lemma TokenRoundTrip(a: Address)
    requires Clean(a.host)
    ensures ParseToken(PrintAddress(a)) == Some(a)
  {
    var t := PrintAddress(a);
    assert t[0] == if a.host == "" then ':' else a.host[0];
    assert TrimStart(t) == t;
    assert t[|t| - 1] == PrintNat(a.port)[|PrintNat(a.port)| - 1];
    assert Trim(t) == t;
    IndexOfFirst(a.host, ':', PrintNat(a.port));
    assert t[..|a.host|] == a.host && t[|a.host| + 1..] == PrintNat(a.port);
    PortRoundTrip(a.port);
  }

  /** A comma-free prefix is exactly the first piece. */
  lemma SplitFirst(head: string, rest: string)
    requires ',' !in head
    ensures Split(head + "," + rest, ',') == [head] + Split(rest, ',')
  {
    SplitAtFirst(head, ',', rest);
  }

  lemma NoCommaInAddress(a: Address)
    requires Clean(a.host)
    ensures ',' !in PrintAddress(a)
  {
  }

  lemma {:induction false} CleanListsSurvive(list: seq<Address>)
    requires AllClean(list)
    ensures Parse(Print(list)) == list
  {
    if |list| == 0 {
      assert Split("", ',') == [""];
      assert ParseToken("") == None;
      assert ParseTokens([""]) == ParseTokens([""][1..]);
    } else {
      NoCommaInAddress(list[0]);
      TokenRoundTrip(list[0]);
      var head := PrintAddress(list[0]);
      if |list| == 1 {
        assert IndexOf(head, ',') == |head|;
        assert Split(head, ',') == [head];
        assert [head][1..] == [];
        assert ParseTokens([head]) == [list[0]];
      } else {
        CleanListsSurvive(list[1..]);
        SplitFirst(head, Print(list[1..]));
        assert ([head] + Split(Print(list[1..]), ','))[1..] == Split(Print(list[1..]), ',');
      }
    }
  }

  /** None of the pieces holds the separator. */
  ghost predicate Separated(pieces: seq<string>, sep: char) {
    forall piece | piece in pieces :: sep !in piece
  }

  lemma OnePieceMore(piece: string, pieces: seq<string>, sep: char)
    requires sep !in piece && Separated(pieces, sep)
    ensures Separated([piece] + pieces, sep)
  {
  }

  lemma {:induction false} SplitPieces(s: string, sep: char)
    ensures Separated(Split(s, sep), sep)
    decreases |s|
  {
    var i := IndexOf(s, sep);
    if i == |s| {
      assert s[..i] == s;
      OnePieceMore(s, [], sep);
    } else {
      SplitPieces(s[i + 1..], sep);
      OnePieceMore(s[..i], Split(s[i + 1..], sep), sep);
    }
  }

  lemma {:induction false} TrimStartFacts(s: string)
    ensures TrimStart(s) != "" ==> !IsWhitespace(TrimStart(s)[0])
    ensures forall c | c in TrimStart(s) :: c in s
  {
    if s != "" && IsWhitespace(s[0]) {
      TrimStartFacts(s[1..]);
    }
  }

  lemma {:induction false} TrimEndFacts(s: string)
    ensures TrimEnd(s) <= s
  {
    if s != "" && IsWhitespace(s[|s| - 1]) {
      TrimEndFacts(s[..|s| - 1]);
    }
  }

  lemma ParsedTokenIsClean(token: string)
    requires ',' !in token
    ensures match ParseToken(token) case None => true case Some(a) => Clean(a.host)
  {
    TrimStartFacts(token);
    TrimEndFacts(TrimStart(token));
    var t := Trim(token);
    var i := IndexOf(t, ':');
    assert forall c | c in t[..i] :: c in t;
    if i > 0 {
      assert t[..i][0] == TrimStart(token)[0];
    }
  }

  lemma {:induction false} ParsedTokensAreClean(tokens: seq<string>)
    requires Separated(tokens, ',')
    ensures AllClean(ParseTokens(tokens))
  {
    if tokens != [] {
      ParsedTokenIsClean(tokens[0]);
      ParsedTokensAreClean(tokens[1..]);
    }
  }

  /** Whatever the text, the parser only ever produces clean hosts. */
  lemma ParsedListIsClean(s: string)
    ensures AllClean(Parse(s))
  {
    SplitPieces(s, ',');
    ParsedTokensAreClean(Split(s, ','));
  }

  /**
   * The exact condition of the round trip: printing then parsing returns the list if and only if no host
   * holds a comma or a colon or starts with whitespace. The empty list and empty hosts are included.
   */
  lemma RoundTripIffClean(list: seq<Address>)
    ensures Parse(Print(list)) == list <==> AllClean(list)
  {
    if AllClean(list) {
      CleanListsSurvive(list);
    } else {
      ParsedListIsClean(Print(list));
    }
  }

  /** Parsing is a normalisation: what was parsed from any text is a fixed point of print-then-parse. */
  lemma ParseIsNormalising(s: string)
    ensures Parse(Print(Parse(s))) == Parse(s)
  {
    ParsedListIsClean(s);
    CleanListsSurvive(Parse(s));
  }
  // -------------------------------------------------------------- piece by piece

  lemma {:induction false} TokensApart(a: seq<string>, b: seq<string>)
    ensures ParseTokens(a + b) == ParseTokens(a) + ParseTokens(b)
  {
    if a == [] {
      assert a + b == b;
    } else {
      assert (a + b)[1..] == a[1..] + b;
      TokensApart(a[1..], b);
    }
  }

  lemma SplitAtFirst(head: string, sep: char, rest: string)
    requires sep !in head
    ensures Split(head + [sep] + rest, sep) == [head] + Split(rest, sep)
  {
    var s := head + [sep] + rest;
    IndexOfFirst(head, sep, rest);
    assert s[..|head|] == head && s[|head| + 1..] == rest;
  }

  lemma SplitOne(s: string, sep: char)
    requires sep !in s
    ensures Split(s, sep) == [s]
  {
    assert IndexOf(s, sep) == |s|;
  }

  lemma Regrouped(head: string, sep: char, rest: string, b: string)
    ensures (head + [sep] + rest) + [sep] + b == head + [sep] + (rest + [sep] + b)
  {
  }

  /** One more piece in front. */
  lemma SplitApartAfter(head: string, sep: char, rest: string, b: string)
    requires sep !in head && Split(rest + [sep] + b, sep) == Split(rest, sep) + Split(b, sep)
    ensures Split((head + [sep] + rest) + [sep] + b, sep) == Split(head + [sep] + rest, sep) + Split(b, sep)
  {
    Regrouped(head, sep, rest, b);
    SplitAtFirst(head, sep, rest);
    SplitAtFirst(head, sep, rest + [sep] + b);
    Associative(head, Split(rest, sep), Split(b, sep));
  }

  lemma Associative(head: string, xs: seq<string>, ys: seq<string>)
    ensures [head] + (xs + ys) == ([head] + xs) + ys
  {
  }

  lemma {:induction false} SplitApart(a: string, sep: char, b: string)
    ensures Split(a + [sep] + b, sep) == Split(a, sep) + Split(b, sep)
    decreases |a|
  {
    if sep !in a {
      SplitOne(a, sep);
      SplitAtFirst(a, sep, b);
    } else {
      var head, rest := Cut(a, sep);
      SplitApart(rest, sep, b);
      SplitApartAfter(head, sep, rest, b);
    }
  }

  lemma Cut(a: string, sep: char) returns (head: string, rest: string)
    requires sep in a
    ensures a == head + [sep] + rest && sep !in head
  {
    var i := IndexOf(a, sep);
    assert a[..|a|] == a;
    head, rest := a[..i], a[i + 1..];
  }

  /** What stands on one side of a comma has no influence on the other: no malformed token costs a good one. */
  lemma ParseIsPiecewise(a: string, b: string)
    ensures Parse(a + "," + b) == Parse(a) + Parse(b)
  {
    SplitApart(a, ',', b);
    TokensApart(Split(a, ','), Split(b, ','));
  }

  /** Text without a comma is one token: its address, or nothing. */
  lemma OneToken(token: string)
    requires ',' !in token
    ensures Parse(token) == match ParseToken(token) case Some(a) => [a] case None => []
  {
    SplitOne(token, ',');
    assert [token][1..] == [];
    assert ParseTokens([token]) ==
      match ParseToken(token) case Some(a) => [a] + ParseTokens([]) case None => ParseTokens([]);
  }

  // ------------------------------------------------------------ which tokens parse

  predicate AllDigits(s: string) {
    forall i | 0 <= i < |s| :: IsDigit(s[i])
  }

  function DigitValue(c: char): nat
    requires IsDigit(c)
  {
    c as int - '0' as int
  }

  /** The number that decimal digits denote. */
  function DecimalValue(digits: string): nat
    requires AllDigits(digits)
  {
    if digits == "" then 0
    else DecimalValue(digits[..|digits| - 1]) * 10 + DigitValue(digits[|digits| - 1])
  }

  /** Decimal printing: it denotes the number, and wastes no digit. */
  lemma {:induction false} PrintsDecimal(n: nat)
    ensures DecimalValue(PrintNat(n)) == n && (PrintNat(n)[0] == '0' ==> PrintNat(n) == "0")
  {
    if n >= 10 {
      PrintsDecimal(n / 10);
      assert PrintNat(n)[..|PrintNat(n)| - 1] == PrintNat(n / 10);
    } else {
      assert PrintNat(n)[..0] == "";
    }
  }

  predicate AllWhitespace(s: string) {
    forall i | 0 <= i < |s| :: IsWhitespace(s[i])
  }

  /** At least one decimal digit, denoting a number below 65536. */
  predicate IsPort(digits: string) {
    digits != "" && AllDigits(digits) && DecimalValue(digits) < 0x1_0000
  }

  /** Host, colon, an optional plus, and a port. */
  ghost predicate Spells(text: string, a: Address, sign: string, digits: string) {
    && text == a.host + ":" + (sign + digits) && (sign == "" || sign == "+")
    && ':' !in a.host && (a.host != "" ==> !IsWhitespace(a.host[0]))
    && IsPort(digits) && DecimalValue(digits) == a.port
  }

  /** ... with whitespace around. */
  ghost predicate Reads(token: string, a: Address) {
    exists before, text, behind, sign, digits ::
      token == before + text + behind && AllWhitespace(before) && AllWhitespace(behind) && Spells(text, a, sign, digits)
  }

  /** Digits are accumulated to their value, or not at all if it is too large. */
  lemma {:induction false} AccumulatesValue(s: string)
    requires AllDigits(s)
    ensures Accumulate(s, 0) == if DecimalValue(s) < 0x1_0000 then Some(DecimalValue(s)) else None
  {
    if s != "" {
      var n := |s| - 1;
      AccumulatesValue(s[..n]);
      AccumulateAppend(s[..n], s[n], 0);
      assert s == s[..n] + [s[n]];
      if DecimalValue(s[..n]) < 0x1_0000 {
        assert [s[n]][1..] == "";
        assert forall v: Port :: Accumulate("", v) == Some(v);
      }
    }
  }

  lemma {:induction false} OnlyDigitsAccumulate(s: string, acc: Port)
    requires Accumulate(s, acc).Some?
    ensures AllDigits(s)
  {
    if s != "" {
      OnlyDigitsAccumulate(s[1..], acc * 10 + (s[0] as int - '0' as int));
      assert forall i | 0 < i < |s| :: s[i] == s[1..][i - 1];
    }
  }

  lemma {:induction false} TrimStartPast(before: string, s: string)
    requires AllWhitespace(before) && (s != "" ==> !IsWhitespace(s[0]))
    ensures TrimStart(before + s) == s
  {
    if before == "" {
      assert before + s == s;
    } else {
      assert (before + s)[1..] == before[1..] + s;
      TrimStartPast(before[1..], s);
    }
  }

  lemma {:induction false} TrimEndPast(s: string, behind: string)
    requires AllWhitespace(behind) && (s != "" ==> !IsWhitespace(s[|s| - 1]))
    ensures TrimEnd(s + behind) == s
  {
    if behind == "" {
      assert s + behind == s;
    } else {
      var n := |behind| - 1;
      assert (s + behind)[..|s| + n] == s + behind[..n];
      TrimEndPast(s, behind[..n]);
    }
  }

  lemma {:induction false} TrimStartCuts(s: string) returns (before: string)
    ensures AllWhitespace(before) && s == before + TrimStart(s)
  {
    if s != "" && IsWhitespace(s[0]) {
      before := TrimStartCuts(s[1..]);
      before := [s[0]] + before;
    } else {
      before := "";
    }
  }

  lemma {:induction false} TrimEndCuts(s: string) returns (behind: string)
    ensures AllWhitespace(behind) && s == TrimEnd(s) + behind
  {
    if s != "" && IsWhitespace(s[|s| - 1]) {
      behind := TrimEndCuts(s[..|s| - 1]);
      behind := behind + [s[|s| - 1]];
    } else {
      behind := "";
    }
  }

  /** The port that a sign and digits spell. */
  lemma PortOfDigits(sign: string, digits: string)
    requires (sign == "" || sign == "+") && IsPort(digits)
    ensures ParsePort(sign + digits) == Some(DecimalValue(digits))
  {
    AccumulatesValue(digits);
    assert sign == "" ==> sign + digits == digits;
    assert sign == "+" ==> (sign + digits)[1..] == digits;
  }

  lemma DigitsOfPort(s: string) returns (sign: string, digits: string)
    requires ParsePort(s).Some?
    ensures s == sign + digits && (sign == "" || sign == "+")
    ensures IsPort(digits) && Some(DecimalValue(digits) as Port) == ParsePort(s)
  {
    sign, digits := if s[0] == '+' then "+" else "", if s[0] == '+' then s[1..] else s;
    OnlyDigitsAccumulate(digits, 0);
    AccumulatesValue(digits);
  }

  lemma SpelledIsParsed(
      token: string, a: Address, before: string, text: string, behind: string, sign: string, digits: string)
    requires token == before + text + behind && AllWhitespace(before) && AllWhitespace(behind)
    requires Spells(text, a, sign, digits)
    ensures ParseToken(token) == Some(a)
  {
    assert text[0] == if a.host == "" then ':' else a.host[0];
    assert text[|text| - 1] == digits[|digits| - 1];
    assert token == before + (text + behind);
    TrimStartPast(before, text + behind);
    TrimEndPast(text, behind);
    IndexOfFirst(a.host, ':', sign + digits);
    assert text[..|a.host|] == a.host && text[|a.host| + 1..] == sign + digits;
    PortOfDigits(sign, digits);
  }

  /** What parses, once it is trimmed, is spelled as an address. */
  lemma ParsedIsSpelled(token: string, a: Address) returns (sign: string, digits: string)
    requires ParseToken(token) == Some(a)
    ensures Spells(Trim(token), a, sign, digits)
  {
    var text := Trim(token);
    var i := IndexOf(text, ':');
    sign, digits := DigitsOfPort(text[i + 1..]);
    assert text == text[..i] + ":" + text[i + 1..];
    TrimStartFacts(token);
    TrimEndFacts(TrimStart(token));
    assert i > 0 ==> text[..i][0] == TrimStart(token)[0];
  }

  lemma TrimCuts(token: string) returns (before: string, behind: string)
    ensures token == before + Trim(token) + behind && AllWhitespace(before) && AllWhitespace(behind)
  {
    before := TrimStartCuts(token);
    behind := TrimEndCuts(TrimStart(token));
  }

  /**
   * The grammar of a token. It parses to an address if and only if it consists, up to whitespace around it,
   * of the host, a colon, an optional plus, and decimal digits that denote the port: the host has no colon
   * and no whitespace in front, the port is below 65536, leading zeros are allowed.
   */
  lemma ParsesIffItReads(token: string, a: Address)
    ensures ParseToken(token) == Some(a) <==> Reads(token, a)
  {
    if ParseToken(token) == Some(a) {
      var before, behind := TrimCuts(token);
      var sign, digits := ParsedIsSpelled(token, a);
    }
    if Reads(token, a) {
      var before, text, behind, sign, digits :|
        token == before + text + behind && AllWhitespace(before) && AllWhitespace(behind)
        && Spells(text, a, sign, digits);
      SpelledIsParsed(token, a, before, text, behind, sign, digits);
    }
  }
}
