/** One port, several protocols (internal/ingress/sniff/sniff.go): the head of a connection is read
    to pick a target, and what was read is replayed to it. */
module Sniff {
  import opened Wrappers
  import opened Bytes

  /** What matchHTTP makes of one header line; Host carries the trimmed value. */
  datatype Header = Blank | Host(value: seq<byte>) | Other

  /** prefix: hexadecimal text. */
  datatype PrefixRule = PrefixRule(prefix: string, target: string)

  /** header classifies a line, route looks a Host value up; both are pure text processing. */
  datatype Config = Config(
    prefixes: seq<PrefixRule>,
    methods: seq<seq<byte>>,
    header: seq<byte> -> Header,
    route: seq<byte> -> Option<string>,
    httpDefault: string,
    fallback: string)

  const BUFFER := 4096
  const NEWLINE: byte := 10

  // ---------- the prefix texts ----------

  function Digit(c: char): Option<nat> {
    if '0' <= c <= '9' then Some(c as nat - '0' as nat)
    else if 'a' <= c <= 'f' then Some(c as nat - 'a' as nat + 10)
    else if 'A' <= c <= 'F' then Some(c as nat - 'A' as nat + 10)
    else None
  }

  function NoSpaces(s: string): string {
    if s == "" then ""
    else
      var rest := NoSpaces(s[1..]);
      if s[0] == ' ' then rest else [s[0]] + rest
  }

  /** Pairs of digits; a last odd character is left alone. */
  function Pairs(s: string): Option<seq<byte>> {
    if |s| < 2 then Some([])
    else if Digit(s[0]).None? || Digit(s[1]).None? then None
    else
      After([(16 * Nibble(s[0]) + Nibble(s[1])) as byte], Pairs(s[2..]))
  }

  function Nibble(c: char): (d: nat)
    ensures d < 16
  {
    match Digit(c)
    case None => 0
    case Some(d) => d
  }

  function HexBytes(s: string): Option<seq<byte>> {
    Pairs(NoSpaces(s))
  }

  function After(out: seq<byte>, r: Option<seq<byte>>): Option<seq<byte>> {
    match r
    case None => None
    case Some(rest) => Some(out + rest)
  }

  lemma AfterNothing(r: Option<seq<byte>>)
    ensures After([], r) == r
  {
    if r.Some? { assert [] + r.value == r.value; }
  }

  lemma AfterAfter(a: seq<byte>, b: seq<byte>, r: Option<seq<byte>>)
    ensures After(a, After(b, r)) == After(a + b, r)
  {
    if r.Some? { assert a + (b + r.value) == a + b + r.value; }
  }

  method ParseHex(text: string) returns (r: Option<seq<byte>>)
    ensures r == HexBytes(text)
  {
    var s := NoSpaces(text);
    var out: seq<byte> := [];
    var i := 0;
    assert s[0..] == s;
    AfterNothing(Pairs(s));
    while i + 2 <= |s|
      invariant 0 <= i <= |s|
      invariant Pairs(s) == After(out, Pairs(s[i..]))
    {
      if Digit(s[i]).None? || Digit(s[i + 1]).None? {
        return None;
      }
      var b := (16 * Nibble(s[i]) + Nibble(s[i + 1])) as byte;
      assert s[i..][2..] == s[i + 2..];
      AfterAfter(out, [b], Pairs(s[i + 2..]));
      out := out + [b];
      i := i + 2;
    }
    assert out + [] == out;
    return Some(out);
  }

  /** The digits, in either case, and nothing else. */
  lemma DigitExact(c: char, d: nat)
    ensures Digit(c) == Some(d) <==> d < 16 && (c == "0123456789abcdef"[d] || c == "0123456789ABCDEF"[d])
  {
  }

  /** A text is refused exactly when one of its pairs holds something else than a digit; otherwise every
      pair is one byte, high digit first, and an odd last character is left alone. */
  lemma {:induction false} PairsExact(s: string)
    ensures Pairs(s).None? <==> exists i :: 0 <= i < |s| / 2 * 2 && Digit(s[i]).None?
    ensures Pairs(s).Some? ==> |Pairs(s).value| == |s| / 2
    ensures Pairs(s).Some? ==> forall i :: 0 <= i < |s| / 2 ==>
              Digit(s[2 * i]).Some? && Digit(s[2 * i + 1]).Some?
              && Pairs(s).value[i] as nat == 16 * Digit(s[2 * i]).value + Digit(s[2 * i + 1]).value
  {
    if 2 <= |s| {
      var t := s[2..];
      PairsExact(t);
      assert forall i :: 2 <= i < |s| ==> s[i] == t[i - 2];
      var n, m := |s| / 2, |t| / 2;
      assert n == m + 1;
      if exists i :: 0 <= i < m * 2 && Digit(t[i]).None? {
        var i :| 0 <= i < m * 2 && Digit(t[i]).None?;
        assert Digit(s[i + 2]).None?;
      }
      if Pairs(s).Some? {
        forall i | 0 <= i < n
          ensures Digit(s[2 * i]).Some? && Digit(s[2 * i + 1]).Some?
                  && Pairs(s).value[i] as nat == 16 * Digit(s[2 * i]).value + Digit(s[2 * i + 1]).value
        {
          if 0 < i { assert s[2 * i] == t[2 * (i - 1)] && s[2 * i + 1] == t[2 * (i - 1) + 1]; }
        }
      }
    }
  }

  function HexDigit(d: nat): char
    requires d < 16
  {
    if d < 10 then '0' + d as char else 'a' + (d - 10) as char
  }

  function Hex(bs: seq<byte>): string {
    if bs == [] then "" else [HexDigit(bs[0] as nat / 16), HexDigit(bs[0] as nat % 16)] + Hex(bs[1..])
  }

  /** Every byte string can be written as a prefix rule, spaced as one likes. */
  lemma {:induction false} HexRoundTrip(bs: seq<byte>, text: string)
    requires NoSpaces(text) == Hex(bs)
    ensures HexBytes(text) == Some(bs)
  {
    PairsHex(bs);
  }

  lemma NibbleHex(d: nat)
    requires d < 16
    ensures Digit(HexDigit(d)) == Some(d) && Nibble(HexDigit(d)) == d
  {
    if d < 10 {
      assert HexDigit(d) as nat == '0' as nat + d;
    } else {
      assert HexDigit(d) as nat == 'a' as nat + (d - 10);
    }
  }

  lemma {:induction false} PairsHex(bs: seq<byte>)
    ensures Pairs(Hex(bs)) == Some(bs)
  {
    if bs != [] {
      PairsHex(bs[1..]);
      var h := Hex(bs);
      assert h[2..] == Hex(bs[1..]);
      NibbleHex(bs[0] as nat / 16);
      NibbleHex(bs[0] as nat % 16);
      assert [bs[0]] + bs[1..] == bs;
    }
  }

  // ---------- the choice, from the bytes alone ----------

  predicate StartsWith(s: seq<byte>, prefix: seq<byte>) {
    |prefix| <= |s| && s[..|prefix|] == prefix
  }

  ghost predicate Unbroken(s: seq<byte>) {
    forall i :: 0 <= i < |s| ==> s[i] != 10
  }

  function NewlineAt(s: seq<byte>): (r: Option<nat>)
    ensures r.None? <==> Unbroken(s)
    ensures r.Some? ==> r.value < |s| && s[r.value] == NEWLINE && forall i :: 0 <= i < r.value ==> s[i] != NEWLINE
  {
    if s == [] then None
    else if s[0] == NEWLINE then Some(0)
    else
      match NewlineAt(s[1..])
      case None => None
      case Some(k) => Some(k + 1)
  }

  /** The Host value of the header lines, empty when there is none. */
  function HostOf(c: Config, lines: seq<byte>): seq<byte>
    decreases |lines|
  {
    match NewlineAt(lines)
    case None => []
    case Some(k) =>
      match c.header(lines[..k + 1])
      case Blank => []
      case Host(value) => value
      case Other => HostOf(c, lines[k + 1..])
  }

  function HttpTarget(c: Config, stream: seq<byte>): string {
    match NewlineAt(stream)
    case None => c.httpDefault
    case Some(k) =>
      match c.route(HostOf(c, stream[k + 1..]))
      case None => c.httpDefault
      case Some(target) => target
  }

  predicate LooksHttp(c: Config, head: seq<byte>)
    requires |head| == 3
  {
    exists m <- c.methods :: 3 <= |m| && m[..3] == head
  }

  /** What the rules decide.  Goes: to the target of this rule; Next: none applies, and this many
      bytes of the input are used up. */
  datatype Verdict = Hangup | Goes(rule: nat) | Next(used: nat)

  predicate Usable(rule: PrefixRule) {
    HexBytes(rule.prefix).Some? && HexBytes(rule.prefix).value != []
  }

  function PrefixOf(rule: PrefixRule): (p: seq<byte>) {
    if Usable(rule) then HexBytes(rule.prefix).value else []
  }

  /** How many bytes a rule reads beyond the first three. */
  function Extra(rule: PrefixRule): nat {
    if |PrefixOf(rule)| > 3 then |PrefixOf(rule)| - 3 else 0
  }

  /** The rules from the k-th on, with used bytes read before. */
  function TryPrefixes(rules: seq<PrefixRule>, k: nat, input: seq<byte>, used: nat): (v: Verdict)
    requires k <= |rules| && 3 <= used <= |input|
    ensures v.Next? ==> used <= v.used <= |input|
    ensures v.Goes? ==> k <= v.rule < |rules|
    decreases |rules| - k
  {
    if k == |rules| then Next(used)
    else
      var p, more := PrefixOf(rules[k]), Extra(rules[k]);
      if p == [] then TryPrefixes(rules, k + 1, input, used)
      else if |input| < used + more then Hangup
      else if StartsWith(input[..3] + input[used..used + more], p) then Goes(k)
      else TryPrefixes(rules, k + 1, input, used + more)
  }

  /** The target of a connection on which the peer sends input and then ends; None: hung up on. */
  function Decide(c: Config, input: seq<byte>): Option<string> {
    if |input| < 3 then None
    else
      match TryPrefixes(c.prefixes, 0, input, 3)
      case Hangup => None
      case Goes(k) => Some(c.prefixes[k].target)
      case Next(used) => Some(if LooksHttp(c, input[..3]) then HttpTarget(c, input[used..]) else c.fallback)
  }

  /** handoff sends a connection whose target has no name to the fallback. */
  function Resolve(c: Config, target: string): string {
    if target == "" then c.fallback else target
  }

  // ---------- which connections a prefix rule gets ----------

  /** The connection starts with the rule's prefix. */
  predicate Applies(rule: PrefixRule, input: seq<byte>) {
    Usable(rule) && StartsWith(input, PrefixOf(rule))
  }

  /** The bytes read before rule k is tried, on whatever connection. */
  function UsedBefore(rules: seq<PrefixRule>, k: nat): (used: nat)
    requires k <= |rules|
    ensures 3 <= used
  {
    if k == 0 then 3 else UsedBefore(rules, k - 1) + Extra(rules[k - 1])
  }

  /** The peer has sent all that the rules up to and including rule k read. */
  predicate Enough(rules: seq<PrefixRule>, k: nat, input: seq<byte>)
    requires k < |rules|
  {
    UsedBefore(rules, k + 1) <= |input|
  }

  /** Rule k, once tried, finds its prefix: in the first three bytes and, for the rest of it, in the
      bytes that rule k itself reads. */
  predicate Matched(rules: seq<PrefixRule>, k: nat, input: seq<byte>)
    requires k < |rules| && Enough(rules, k, input)
  {
    var used := UsedBefore(rules, k);
    Usable(rules[k]) && StartsWith(input[..3] + input[used..used + Extra(rules[k])], PrefixOf(rules[k]))
  }

  predicate Takes(rules: seq<PrefixRule>, k: nat, input: seq<byte>)
    requires k < |rules|
  {
    Enough(rules, k, input) && Matched(rules, k, input)
  }

  lemma UsedGrows(rules: seq<PrefixRule>, j: nat, k: nat)
    requires j <= k <= |rules|
    ensures UsedBefore(rules, j) <= UsedBefore(rules, k)
  {
    if j < k { UsedGrows(rules, j, k - 1); }
  }

  /** While no rule takes the connection and the bytes suffice, the rules go on where UsedBefore
      says. */
  lemma {:induction false} RulesGoOn(rules: seq<PrefixRule>, k: nat, input: seq<byte>)
    requires k <= |rules| && UsedBefore(rules, k) <= |input|
    requires forall j :: 0 <= j < k ==> !Takes(rules, j, input)
    ensures TryPrefixes(rules, 0, input, 3) == TryPrefixes(rules, k, input, UsedBefore(rules, k))
  {
    hide HexBytes, StartsWith;
    if k != 0 {
      UsedGrows(rules, k - 1, k);
      RulesGoOn(rules, k - 1, input);
      assert !Takes(rules, k - 1, input);
    }
  }

  /** Nobody gets a connection that ends inside what rule k reads and that no rule before takes. */
  lemma {:induction false} ShortOfBytes(rules: seq<PrefixRule>, k: nat, input: seq<byte>)
    requires k < |rules| && 3 <= |input| && !Enough(rules, k, input)
    requires forall j :: 0 <= j < k ==> !Takes(rules, j, input)
    ensures TryPrefixes(rules, 0, input, 3) == Hangup
  {
    hide HexBytes, StartsWith;
    if UsedBefore(rules, k) <= |input| {
      RulesGoOn(rules, k, input);
    } else {
      ShortOfBytes(rules, k - 1, input);
    }
  }

  /** The first rule that takes a connection gets it; with none, it is hung up on if it ends too
      early, and otherwise goes on to the HTTP check with the bytes of all rules used up. */
  lemma {:induction false} PrefixesExact(rules: seq<PrefixRule>, input: seq<byte>, k: nat)
    requires 3 <= |input| && k <= |rules|
    requires forall j :: 0 <= j < k ==> !Takes(rules, j, input)
    ensures k < |rules| && Takes(rules, k, input) ==> TryPrefixes(rules, 0, input, 3) == Goes(k)
    ensures k == |rules| ==> TryPrefixes(rules, 0, input, 3)
                             == if UsedBefore(rules, k) <= |input| then Next(UsedBefore(rules, k)) else Hangup
  {
    hide HexBytes, StartsWith;
    if UsedBefore(rules, k) <= |input| {
      RulesGoOn(rules, k, input);
    } else if k == |rules| {
      ShortOfBytes(rules, k - 1, input);
    } else {
      UsedGrows(rules, k, k + 1);
    }
  }

  /** Exactly when a rule gets a connection that starts with its prefix and that no rule before it
      takes: the peer must have sent all that this rule and those before it read, and, for a prefix
      of more than three bytes, what this rule reads must be the prefix's tail. */
  lemma {:induction false} RuleGetsItsPrefix(rules: seq<PrefixRule>, k: nat, input: seq<byte>)
    requires 3 <= |input| && k < |rules| && Applies(rules[k], input)
    requires forall j :: 0 <= j < k ==> !Takes(rules, j, input)
    ensures var p, used := PrefixOf(rules[k]), UsedBefore(rules, k);
            TryPrefixes(rules, 0, input, 3) == Goes(k)
            <==> Enough(rules, k, input) && (3 < |p| ==> input[used..used + (|p| - 3)] == input[3..|p|])
  {
    hide HexBytes;
    if !Enough(rules, k, input) {
      ShortOfBytes(rules, k, input);
    } else {
      UsedGrows(rules, k, k + 1);
      RulesGoOn(rules, k, input);
      MatchedIs(rules, k, input);
      hide StartsWith;
    }
  }

  lemma MatchedIs(rules: seq<PrefixRule>, k: nat, input: seq<byte>)
    requires 3 <= |input| && k < |rules| && Applies(rules[k], input) && Enough(rules, k, input)
    ensures var p, used := PrefixOf(rules[k]), UsedBefore(rules, k);
            Matched(rules, k, input) <==> (3 < |p| ==> input[used..used + (|p| - 3)] == input[3..|p|])
  {
    hide HexBytes;
    var p, used := PrefixOf(rules[k]), UsedBefore(rules, k);
    assert UsedBefore(rules, k + 1) == used + Extra(rules[k]);
    var tail := input[used..used + Extra(rules[k])];
    if 3 < |p| {
      SameTail(input, p, tail);
      assert (input[..3] + tail)[..|p|] == input[..3] + tail;
    } else {
      ShortCompared(input, p, used);
    }
  }

  lemma ShortCompared(input: seq<byte>, p: seq<byte>, used: nat)
    requires 3 <= used <= |input| && |p| <= 3
    ensures StartsWith(input[..3] + input[used..used], p) <==> StartsWith(input, p)
  {
    assert input[..3] + input[used..used] == input[..3];
    assert input[..3][..|p|] == input[..|p|];
  }

  lemma SameTail(input: seq<byte>, p: seq<byte>, tail: seq<byte>)
    requires 3 <= |p| == 3 + |tail| && StartsWith(input, p)
    ensures input[..3] + tail == p <==> tail == input[3..|p|]
  {
    assert p == input[..3] + input[3..|p|];
    assert (input[..3] + tail)[3..] == tail && p[3..] == input[3..|p|];
  }

  /** In particular a rule always gets its prefix while no rule before it has more than three
      bytes. */
  lemma {:induction false} RuleTakesItsPrefix(rules: seq<PrefixRule>, k: nat, input: seq<byte>)
    requires 3 <= |input| && k < |rules| && Applies(rules[k], input)
    requires forall j :: 0 <= j < k ==> |PrefixOf(rules[j])| <= 3 && !Applies(rules[j], input)
    ensures TryPrefixes(rules, 0, input, 3) == Goes(k)
  {
    hide HexBytes;
    forall j | 0 <= j <= k ensures UsedBefore(rules, j) == 3 { NothingUsed(rules, j); }
    forall j | 0 <= j < k ensures !Takes(rules, j, input) {
      ShortCompared(input, PrefixOf(rules[j]), UsedBefore(rules, j));
    }
    assert UsedBefore(rules, k + 1) == UsedBefore(rules, k) + Extra(rules[k]);
    RuleGetsItsPrefix(rules, k, input);
  }

  /** With prefixes of at most three bytes only, a connection goes by prefix exactly when it starts
      with one. */
  lemma {:induction false} ShortRulesExact(rules: seq<PrefixRule>, input: seq<byte>)
    requires 3 <= |input| && forall rule <- rules :: |PrefixOf(rule)| <= 3
    ensures TryPrefixes(rules, 0, input, 3).Goes? <==> exists rule <- rules :: Applies(rule, input)
    ensures !TryPrefixes(rules, 0, input, 3).Goes? ==> TryPrefixes(rules, 0, input, 3) == Next(3)
  {
    hide HexBytes, TryPrefixes;
    forall j | 0 <= j <= |rules| ensures UsedBefore(rules, j) == 3 { NothingUsed(rules, j); }
    forall j | 0 <= j < |rules| ensures Takes(rules, j, input) <==> Applies(rules[j], input) {
      ShortCompared(input, PrefixOf(rules[j]), UsedBefore(rules, j));
    }
    hide UsedBefore, Takes, Applies;
    var k := 0;
    while k < |rules| && !Takes(rules, k, input)
      invariant 0 <= k <= |rules| && forall j :: 0 <= j < k ==> !Takes(rules, j, input)
    {
      k := k + 1;
    }
    PrefixesExact(rules, input, k);
  }

  lemma {:induction false} NothingUsed(rules: seq<PrefixRule>, k: nat)
    requires k <= |rules| && forall j :: 0 <= j < k ==> |PrefixOf(rules[j])| <= 3
    ensures UsedBefore(rules, k) == 3
  {
    if k != 0 { NothingUsed(rules, k - 1); }
  }

  /** Two prefixes of four bytes: a connection that starts with the second goes to neither, since
      the second is looked for one byte too late. */
  lemma {:induction false} SecondLongRuleMissed(target: string, later: string)
    ensures var rules := [PrefixRule(Hex([1, 2, 3, 4]), target), PrefixRule(Hex([5, 6, 7, 8]), later)];
            var input: seq<byte> := [5, 6, 7, 8, 9];
            Applies(rules[1], input) && TryPrefixes(rules, 0, input, 3) == Next(5)
  {
    var p1: seq<byte>, p2: seq<byte> := [1, 2, 3, 4], [5, 6, 7, 8];
    var rules := [PrefixRule(Hex(p1), target), PrefixRule(Hex(p2), later)];
    var input: seq<byte> := [5, 6, 7, 8, 9];
    HexPlain(p1);
    HexPlain(p2);
    hide HexBytes, Hex;
    assert PrefixOf(rules[0]) == p1 && PrefixOf(rules[1]) == p2;
    assert input[..4] == p2;
    assert UsedBefore(rules, 1) == 4 && UsedBefore(rules, 2) == 5;
    assert (input[..3] + input[3..4])[0] == 5 && p1[0] == 1;
    assert (input[..3] + input[4..5])[3] == 9 && p2[3] == 8;
    assert !Takes(rules, 0, input) && !Takes(rules, 1, input);
    PrefixesExact(rules, input, 2);
  }

  /** A short prefix behind a long one: three bytes that start with the short one are hung up on,
      because the long one waits for two more. */
  lemma {:induction false} ShortRuleStarved(target: string, later: string)
    ensures var rules := [PrefixRule(Hex([1, 2, 3, 4, 5]), target), PrefixRule(Hex([5]), later)];
            var input: seq<byte> := [5, 5, 5];
            Applies(rules[1], input) && !Applies(rules[0], input) && TryPrefixes(rules, 0, input, 3) == Hangup
  {
    var p1: seq<byte>, p2: seq<byte> := [1, 2, 3, 4, 5], [5];
    var rules := [PrefixRule(Hex(p1), target), PrefixRule(Hex(p2), later)];
    var input: seq<byte> := [5, 5, 5];
    HexPlain(p1);
    HexPlain(p2);
    hide HexBytes, Hex;
    assert PrefixOf(rules[0]) == p1 && PrefixOf(rules[1]) == p2;
    assert input[..1] == p2;
    assert UsedBefore(rules, 1) == 5;
    ShortOfBytes(rules, 0, input);
  }

  lemma {:induction false} HexPlain(bs: seq<byte>)
    ensures HexBytes(Hex(bs)) == Some(bs)
  {
    NoSpacesInHex(bs);
    HexRoundTrip(bs, Hex(bs));
  }

  lemma {:induction false} NoSpacesInHex(bs: seq<byte>)
    ensures NoSpaces(Hex(bs)) == Hex(bs)
  {
    hide NoSpaces, HexDigit;
    assert NoSpaces("") == "" by { NoSpacesEmpty(); }
    if bs != [] {
      var a, b, rest := HexDigit(bs[0] as nat / 16), HexDigit(bs[0] as nat % 16), Hex(bs[1..]);
      NoSpacesInHex(bs[1..]);
      NotSpace(bs[0] as nat / 16);
      NotSpace(bs[0] as nat % 16);
      NoSpacesCons(b, rest);
      NoSpacesCons(a, [b] + rest);
      assert [a, b] + rest == [a] + ([b] + rest);
    }
  }

  lemma NoSpacesEmpty()
    ensures NoSpaces("") == ""
  {
  }

  lemma NotSpace(d: nat)
    requires d < 16
    ensures HexDigit(d) != ' '
  {
    NibbleHex(d);
  }

  lemma NoSpacesCons(c: char, s: string)
    requires c != ' '
    ensures NoSpaces([c] + s) == [c] + NoSpaces(s)
  {
    assert ([c] + s)[1..] == s;
  }

  // ---------- from the bytes to the target ----------

  /** How the header lines end: with a Host line, a blank line, or no further line. */
  datatype Ending = HostLine(line: seq<byte>, value: seq<byte>, tail: seq<byte>) | BlankLine(line: seq<byte>, tail: seq<byte>) | Cut(rest: seq<byte>)

  /** What an HTTP client may have sent: no line at all, or a first line, header lines of no interest,
      and an ending. */
  datatype Request = NoLine(rest: seq<byte>) | Lines(first: seq<byte>, others: seq<seq<byte>>, ending: Ending)

  ghost predicate IsLine(s: seq<byte>) {
    s != [] && s[|s| - 1] == 10 && forall i :: 0 <= i < |s| - 1 ==> s[i] != 10
  }

  ghost predicate EndingOk(c: Config, e: Ending) {
    match e
    case HostLine(line, value, _) => IsLine(line) && c.header(line) == Host(value)
    case BlankLine(line, _) => IsLine(line) && c.header(line) == Blank
    case Cut(rest) => Unbroken(rest)
  }

  ghost predicate OthersOk(c: Config, others: seq<seq<byte>>) {
    forall i :: 0 <= i < |others| ==> IsLine(others[i]) && c.header(others[i]) == Other
  }

  ghost predicate RequestOk(c: Config, r: Request) {
    match r
    case NoLine(rest) => Unbroken(rest)
    case Lines(first, others, ending) => IsLine(first) && OthersOk(c, others) && EndingOk(c, ending)
  }

  function EndingBytes(e: Ending): seq<byte> {
    match e
    case HostLine(line, _, tail) => line + tail
    case BlankLine(line, tail) => line + tail
    case Cut(rest) => rest
  }

  function RequestBytes(r: Request): seq<byte> {
    match r
    case NoLine(rest) => rest
    case Lines(first, others, ending) => first + (Concat(others) + EndingBytes(ending))
  }

  /** A target without a name is the fallback, any other is itself. */
  predicate Named(c: Config, target: string, name: string) {
    name == if target == "" then c.fallback else target
  }

  /** The first line is needed to ask for a route at all; without a Host line it is asked for the empty
      host; without a route the HTTP default is the target. */
  predicate Wanted(c: Config, r: Request, name: string) {
    match r
    case NoLine(_) => Named(c, c.httpDefault, name)
    case Lines(_, _, ending) =>
      match c.route(if ending.HostLine? then ending.value else [])
      case None => Named(c, c.httpDefault, name)
      case Some(target) => Named(c, target, name)
  }

  /** The connection on which the peer sends input and then ends goes to the target of this name: that
      of the first prefix rule that takes it; else, when its first three bytes open one of the
      methods, what the request in the remaining bytes asks for; else the fallback. */
  ghost predicate GoesTo(c: Config, input: seq<byte>, name: string) {
    3 <= |input| &&
    ((exists k :: 0 <= k < |c.prefixes| && FirstTaker(c, input, k) && Named(c, c.prefixes[k].target, name))
     || (NoTaker(c, input) && if IsHttp(c, input) then Requests(c, input[UsedBefore(c.prefixes, |c.prefixes|)..], name)
                              else name == c.fallback))
  }

  ghost predicate FirstTaker(c: Config, input: seq<byte>, k: nat)
    requires k < |c.prefixes|
  {
    Takes(c.prefixes, k, input) && forall j :: 0 <= j < k ==> !Takes(c.prefixes, j, input)
  }

  /** No rule takes the connection, and the peer has sent all that they read. */
  ghost predicate NoTaker(c: Config, input: seq<byte>) {
    UsedBefore(c.prefixes, |c.prefixes|) <= |input| && forall j :: 0 <= j < |c.prefixes| ==> !Takes(c.prefixes, j, input)
  }

  ghost predicate IsHttp(c: Config, input: seq<byte>)
    requires 3 <= |input|
  {
    exists m <- c.methods :: 3 <= |m| && m[0] == input[0] && m[1] == input[1] && m[2] == input[2]
  }

  ghost predicate Requests(c: Config, stream: seq<byte>, name: string) {
    exists r: Request :: RequestOk(c, r) && stream == RequestBytes(r) && Wanted(c, r, name)
  }

  lemma LineFirst(line: seq<byte>, rest: seq<byte>)
    requires IsLine(line)
    ensures NewlineAt(line + rest) == Some(|line| - 1)
    ensures (line + rest)[..|line|] == line && (line + rest)[|line|..] == rest
  {
    hide NewlineAt;
    var s := line + rest;
    assert s[|line| - 1] == NEWLINE;
    assert forall i :: 0 <= i < |line| - 1 ==> s[i] == line[i];
  }

  lemma HostOfLine(c: Config, line: seq<byte>, rest: seq<byte>)
    requires IsLine(line)
    ensures HostOf(c, line + rest) == match c.header(line)
                                      case Blank => []
                                      case Host(value) => value
                                      case Other => HostOf(c, rest)
  {
    hide NewlineAt;
    LineFirst(line, rest);
  }

  lemma {:induction false} HostIsEnding(c: Config, others: seq<seq<byte>>, e: Ending)
    requires OthersOk(c, others) && EndingOk(c, e)
    ensures HostOf(c, Concat(others) + EndingBytes(e)) == if e.HostLine? then e.value else []
  {
    hide NewlineAt, IsLine, HostOf, OthersOk;
    if others == [] {
      assert Concat(others) + EndingBytes(e) == EndingBytes(e);
      match e
      case HostLine(line, _, tail) => HostOfLine(c, line, tail);
      case BlankLine(line, tail) => HostOfLine(c, line, tail);
      case Cut(rest) => HostOfNothing(c, rest);
    } else {
      OthersRest(c, others);
      Regroup(others[0], Concat(others[1..]), EndingBytes(e));
      HostOfLine(c, others[0], Concat(others[1..]) + EndingBytes(e));
      HostIsEnding(c, others[1..], e);
    }
  }

  lemma HostOfNothing(c: Config, rest: seq<byte>)
    requires Unbroken(rest)
    ensures HostOf(c, rest) == []
  {
  }

  lemma OthersRest(c: Config, others: seq<seq<byte>>)
    requires OthersOk(c, others) && others != []
    ensures OthersOk(c, others[1..]) && IsLine(others[0]) && c.header(others[0]) == Other
  {
  }

  lemma OthersMore(c: Config, line: seq<byte>, more: seq<seq<byte>>, tail: seq<byte>)
    requires OthersOk(c, more) && IsLine(line) && c.header(line) == Other
    ensures OthersOk(c, [line] + more) && Concat([line] + more) + tail == line + (Concat(more) + tail)
  {
    assert ([line] + more)[1..] == more;
    Regroup(line, Concat(more), tail);
  }

  lemma NoOthers(c: Config, lines: seq<byte>)
    ensures OthersOk(c, []) && Concat([]) + lines == lines
  {
  }

  /** Any bytes read as header lines in one way. */
  lemma {:induction false} Parse(c: Config, lines: seq<byte>) returns (others: seq<seq<byte>>, e: Ending)
    ensures OthersOk(c, others) && EndingOk(c, e) && lines == Concat(others) + EndingBytes(e)
    decreases |lines|
  {
    hide NewlineAt, Concat, OthersOk;
    NoOthers(c, lines);
    var k := NewlineAt(lines);
    if k.None? {
      others, e := [], Cut(lines);
    } else {
      var line, tail := lines[..k.value + 1], lines[k.value + 1..];
      assert lines == line + tail && IsLine(line);
      hide IsLine;
      match c.header(line)
      case Host(value) =>
        others, e := [], HostLine(line, value, tail);
      case Blank =>
        others, e := [], BlankLine(line, tail);
      case Other =>
        var more;
        more, e := Parse(c, tail);
        others := [line] + more;
        OthersMore(c, line, more, EndingBytes(e));
    }
  }

  lemma RequestsIs(c: Config, stream: seq<byte>, name: string)
    ensures Requests(c, stream, name) <==> Named(c, HttpTarget(c, stream), name)
  {
    forall r: Request | RequestOk(c, r) && stream == RequestBytes(r)
      ensures Wanted(c, r, name) <==> Named(c, HttpTarget(c, stream), name)
    {
      RequestDecides(c, r, name);
    }
    var r := ParseRequest(c, stream);
  }

  lemma RequestDecides(c: Config, r: Request, name: string)
    requires RequestOk(c, r)
    ensures Wanted(c, r, name) <==> Named(c, HttpTarget(c, RequestBytes(r)), name)
  {
    hide NewlineAt, HostOf, IsLine, EndingOk, OthersOk;
    match r
    case NoLine(rest) => assert NewlineAt(rest).None?;
    case Lines(first, others, ending) =>
      LineFirst(first, Concat(others) + EndingBytes(ending));
      HostIsEnding(c, others, ending);
  }

  lemma ParseRequest(c: Config, stream: seq<byte>) returns (r: Request)
    ensures RequestOk(c, r) && stream == RequestBytes(r)
  {
    hide NewlineAt;
    var k := NewlineAt(stream);
    if k.None? {
      r := NoLine(stream);
    } else {
      var first, rest := stream[..k.value + 1], stream[k.value + 1..];
      var others, e := Parse(c, rest);
      r := Lines(first, others, e);
      assert stream == first + rest && IsLine(first);
    }
  }

  lemma IsHttpIs(c: Config, input: seq<byte>)
    requires 3 <= |input|
    ensures IsHttp(c, input) <==> LooksHttp(c, input[..3])
  {
    forall m <- c.methods | 3 <= |m|
      ensures m[..3] == input[..3] <==> m[0] == input[0] && m[1] == input[1] && m[2] == input[2]
    {
      var a, b := m[..3], input[..3];
      assert a[0] == m[0] && a[1] == m[1] && a[2] == m[2];
      assert b[0] == input[0] && b[1] == input[1] && b[2] == input[2];
    }
  }

  lemma {:induction false} FirstOrNone(c: Config, input: seq<byte>) returns (k: nat)
    ensures k <= |c.prefixes| && forall j :: 0 <= j < k ==> !Takes(c.prefixes, j, input)
    ensures k < |c.prefixes| ==> Takes(c.prefixes, k, input)
  {
    hide Takes;
    k := 0;
    while k < |c.prefixes| && !Takes(c.prefixes, k, input)
      invariant 0 <= k <= |c.prefixes| && forall j :: 0 <= j < k ==> !Takes(c.prefixes, j, input)
    {
      k := k + 1;
    }
  }

  /** Decide and Resolve, which name the target, do so by that relation and nothing else. */
  lemma DecideGoes(c: Config, input: seq<byte>, name: string)
    ensures GoesTo(c, input, name) <==> Decide(c, input).Some? && name == Resolve(c, Decide(c, input).value)
  {
    hide TryPrefixes, Takes, UsedBefore, HttpTarget, LooksHttp, IsHttp, Requests;
    if 3 <= |input| {
      var k := FirstOrNone(c, input);
      PrefixesExact(c.prefixes, input, k);
      if k < |c.prefixes| {
        assert FirstTaker(c, input, k) && !NoTaker(c, input);
        assert forall j :: 0 <= j < |c.prefixes| && FirstTaker(c, input, j) ==> j == k;
      } else {
        assert forall j :: 0 <= j < |c.prefixes| ==> !FirstTaker(c, input, j);
        if NoTaker(c, input) {
          IsHttpIs(c, input);
          RequestsIs(c, input[UsedBefore(c.prefixes, k)..], name);
        }
      }
    }
  }

  /** So from the bytes of a request to its target: whatever lines come before it, the first Host line
      decides by its route, and with no route, no Host before a blank line or the end, or no line at
      all, it is as Wanted says. */
  lemma {:induction false} RequestGoes(c: Config, input: seq<byte>, r: Request, name: string)
    requires 3 <= |input| && NoTaker(c, input) && IsHttp(c, input)
    requires RequestOk(c, r) && input[UsedBefore(c.prefixes, |c.prefixes|)..] == RequestBytes(r)
    ensures GoesTo(c, input, name) <==> Wanted(c, r, name)
  {
    hide Takes, UsedBefore, IsHttp, RequestOk, RequestBytes, Wanted;
    var stream := input[UsedBefore(c.prefixes, |c.prefixes|)..];
    RequestsIs(c, stream, name);
    RequestDecides(c, r, name);
    assert forall j :: 0 <= j < |c.prefixes| ==> !FirstTaker(c, input, j);
    hide NoTaker, HttpTarget;
  }

  /** And a connection is hung up on exactly when it has no such target: when it ends within its first
      three bytes, or within what the prefix rules read and before any of them takes it. */
  lemma {:induction false} HungUpExactly(c: Config, input: seq<byte>)
    ensures (forall name :: !GoesTo(c, input, name))
            <==> |input| < 3 || (UsedBefore(c.prefixes, |c.prefixes|) > |input|
                                 && forall j :: 0 <= j < |c.prefixes| ==> !Takes(c.prefixes, j, input))
  {
    hide TryPrefixes, Takes, UsedBefore, HttpTarget, LooksHttp, GoesTo;
    if 3 <= |input| {
      var k := FirstOrNone(c, input);
      PrefixesExact(c.prefixes, input, k);
    }
    forall name ensures GoesTo(c, input, name) <==> Decide(c, input).Some? && name == Resolve(c, Decide(c, input).value) {
      DecideGoes(c, input, name);
    }
    if Decide(c, input).Some? { assert GoesTo(c, input, Resolve(c, Decide(c, input).value)); }
  }

  lemma Regroup(a: seq<byte>, b: seq<byte>, c: seq<byte>)
    ensures a + (b + c) == a + b + c
  {
  }

  // ---------- the connection ----------

  /** The peer's bytes still to be read; a read takes as many as it likes and may report the end
      with the last of them. */
  class Conn {
    var rest: seq<byte>
    var closed: bool

    constructor (input: seq<byte>)
      ensures rest == input && !closed
    {
      rest, closed := input, false;
    }

    method Read(room: nat) returns (p: seq<byte>, eof: bool)
      modifies this`rest
      ensures p + rest == old(rest) && |p| <= room
      ensures 0 < room && p == [] ==> eof
      ensures eof ==> rest == []
    {
      if rest == [] {
        return [], true;
      }
      var n :| 0 <= n <= room && n <= |rest| && (0 < room ==> 0 < n);
      p, rest := rest[..n], rest[n..];
      eof := false;
      if * {
        eof := rest == [];
      }
    }

    method Close()
      modifies this`closed
      ensures closed
    {
      closed := true;
    }
  }

  /** recReader: everything read through it is kept. */
  class Recorder {
    const conn: Conn
    var seen: seq<byte>

    constructor (conn: Conn)
      ensures this.conn == conn && seen == []
    {
      this.conn := conn;
      seen := [];
    }

    method Read(room: nat) returns (p: seq<byte>, eof: bool)
      modifies this`seen, conn`rest
      ensures seen == old(seen) + p
      ensures p + conn.rest == old(conn.rest) && |p| <= room
      ensures 0 < room && p == [] ==> eof
      ensures eof ==> conn.rest == []
    {
      p, eof := conn.Read(room);
      seen := seen + p;
    }

    /** io.ReadFull */
    method ReadFull(n: nat) returns (p: seq<byte>, ok: bool)
      modifies this`seen, conn`rest
      ensures seen == old(seen) + p && p + conn.rest == old(conn.rest)
      ensures ok <==> n <= |old(conn.rest)|
      ensures ok ==> p == old(conn.rest)[..n]
    {
      p := [];
      var eof := false;
      while |p| < n && !eof
        invariant |p| <= n && seen == old(seen) + p && p + conn.rest == old(conn.rest)
        invariant eof ==> conn.rest == []
        decreases |conn.rest|, !eof
      {
        ghost var before := conn.rest;
        var chunk;
        chunk, eof := Read(n - |p|);
        assert |before| == |chunk| + |conn.rest|;
        p := p + chunk;
      }
      ok := |p| >= n;
      assert |p| + |conn.rest| == |old(conn.rest)|;
    }
  }

  /** bufio.Reader over the recorder: it reads ahead. */
  class LineReader {
    const rec: Recorder
    var buf: seq<byte>
    var eof: bool

    constructor (rec: Recorder)
      ensures this.rec == rec && buf == [] && !eof
    {
      this.rec := rec;
      buf, eof := [], false;
    }

    /** What the lines are cut from. */
    function Ahead(): seq<byte>
      reads this, rec.conn
    {
      buf + rec.conn.rest
    }

    method Fill()
      requires |buf| < BUFFER && !eof
      modifies this, rec`seen, rec.conn`rest
      ensures Ahead() == old(Ahead()) && old(buf) <= buf
      ensures rec.seen + rec.conn.rest == old(rec.seen + rec.conn.rest)
      ensures if eof then rec.conn.rest == [] else |rec.conn.rest| < |old(rec.conn.rest)|
    {
      var p;
      ghost var before := rec.conn.rest;
      p, eof := rec.Read(BUFFER - |buf|);
      assert |before| == |p| + |rec.conn.rest|;
      Regroup(buf, p, rec.conn.rest);
      Regroup(old(rec.seen), p, rec.conn.rest);
      buf := buf + p;
    }

    /** A full buffer is set aside, otherwise more is read into it. */
    method More(acc: seq<byte>) returns (acc': seq<byte>)
      requires !eof && Unbroken(acc) && Unbroken(buf)
      modifies this, rec`seen, rec.conn`rest
      ensures acc' + (buf + rec.conn.rest) == acc + (old(buf) + old(rec.conn.rest)) && Unbroken(acc')
      ensures rec.seen + rec.conn.rest == old(rec.seen + rec.conn.rest)
      ensures eof ==> rec.conn.rest == []
      ensures |rec.conn.rest| < |old(rec.conn.rest)| || (rec.conn.rest == old(rec.conn.rest) && |buf| < |old(buf)|) || eof
      ensures |rec.conn.rest| <= |old(rec.conn.rest)|
    {
      acc' := acc;
      if |buf| >= BUFFER {
        Regroup(acc, buf, rec.conn.rest);
        assert [] + rec.conn.rest == rec.conn.rest;
        UnbrokenJoin(acc, buf);
        acc' := acc + buf;
        buf := [];
      } else {
        Fill();
      }
    }

    /** ReadString('\n') */
    method ReadLine() returns (line: seq<byte>, ok: bool)
      requires eof ==> rec.conn.rest == []
      modifies this, rec`seen, rec.conn`rest
      ensures eof ==> rec.conn.rest == []
      ensures rec.seen + rec.conn.rest == old(rec.seen + rec.conn.rest)
      ensures ok <==> NewlineAt(old(Ahead())).Some?
      ensures ok ==> var k := NewlineAt(old(Ahead())).value;
                     line == old(Ahead())[..k + 1] && Ahead() == old(Ahead())[k + 1..]
    {
      hide NewlineAt, Unbroken;
      var acc: seq<byte> := [];
      assert Unbroken(acc) by { NothingUnbroken(); }
      ghost var all, stream := Ahead(), rec.seen + rec.conn.rest;
      assert [] + all == all;
      var k := NewlineAt(buf);
      while k.None? && !eof
        invariant k == NewlineAt(buf)
        invariant eof ==> rec.conn.rest == []
        invariant acc + (buf + rec.conn.rest) == all
        invariant rec.seen + rec.conn.rest == stream
        invariant Unbroken(acc)
        decreases |rec.conn.rest|, !eof, |buf|
      {
        acc := More(acc);
        k := NewlineAt(buf);
      }
      if k.Some? {
        LineFound(all, acc, buf, rec.conn.rest, k.value);
        line := acc + buf[..k.value + 1];
        buf := buf[k.value + 1..];
        return line, true;
      }
      LineNotFound(all, acc, buf, rec.conn.rest);
      line := acc + buf;
      buf, eof := [], false;
      return line, false;
    }
  }

  lemma NothingUnbroken()
    ensures Unbroken([])
  {
  }

  lemma UnbrokenJoin(a: seq<byte>, b: seq<byte>)
    requires Unbroken(a) && Unbroken(b)
    ensures Unbroken(a + b)
  {
  }

  lemma LineFound(all: seq<byte>, acc: seq<byte>, buf: seq<byte>, rest: seq<byte>, k: nat)
    requires all == acc + (buf + rest) && Unbroken(acc) && NewlineAt(buf) == Some(k)
    ensures var at := |acc| + k;
            NewlineAt(all) == Some(at) && all[..at + 1] == acc + buf[..k + 1] && all[at + 1..] == buf[k + 1..] + rest
  {
    hide NewlineAt;
    var at := |acc| + k;
    assert forall i :: 0 <= i < |acc| ==> all[i] == acc[i];
    assert forall i :: |acc| <= i < |acc| + |buf| ==> all[i] == buf[i - |acc|];
    assert all[at] == NEWLINE;
    assert forall i :: 0 <= i < at ==> all[i] != NEWLINE;
  }

  lemma LineNotFound(all: seq<byte>, acc: seq<byte>, buf: seq<byte>, rest: seq<byte>)
    requires all == acc + (buf + rest) && rest == [] && Unbroken(acc) && Unbroken(buf)
    ensures NewlineAt(all).None?
  {
    assert forall i :: 0 <= i < |all| ==> all[i] == if i < |acc| then acc[i] else buf[i - |acc|];
  }

  /** The connection a target gets: first the bytes read so far, then the rest. */
  class ReplayConn {
    const conn: Conn
    const replay: seq<byte>
    var read: nat

    ghost predicate Valid()
      reads this
    {
      read <= |replay|
    }

    function Ahead(): seq<byte>
      requires Valid()
      reads this, conn
    {
      replay[read..] + conn.rest
    }

    constructor (conn: Conn, replay: seq<byte>)
      ensures this.conn == conn && this.replay == replay && Valid()
      ensures Ahead() == replay + conn.rest
    {
      this.conn := conn;
      this.replay := replay;
      read := 0;
    }

    method Read(room: nat) returns (p: seq<byte>, eof: bool)
      requires Valid()
      modifies this`read, conn`rest
      ensures Valid() && p + Ahead() == old(Ahead()) && |p| <= room
      ensures 0 < room && p == [] ==> eof
      ensures eof ==> Ahead() == []
    {
      if read < |replay| {
        var n := Min(room, |replay| - read);
        p := replay[read..read + n];
        read := read + n;
        assert p + replay[read..] == old(replay[read..]);
        return p, false;
      }
      p, eof := conn.Read(room);
    }

    /** However the target cuts its reads, it gets the peer's bytes in order. */
    method ReadAll(rooms: seq<nat>) returns (got: seq<byte>)
      requires Valid()
      modifies this`read, conn`rest
      ensures Valid() && got + Ahead() == old(Ahead())
    {
      got := [];
      for i := 0 to |rooms|
        invariant Valid() && got + Ahead() == old(Ahead())
      {
        var p, eof := Read(rooms[i]);
        Regroup(got, p, Ahead());
        got := got + p;
      }
    }
  }

  // ---------- dispatch ----------

  datatype Outcome = HungUp | Handed(target: string, conn: ReplayConn)

  method MatchMethod(c: Config, head: seq<byte>) returns (hit: bool)
    requires |head| == 3
    ensures hit <==> LooksHttp(c, head)
  {
    for i := 0 to |c.methods|
      invariant forall j :: 0 <= j < i ==> !(3 <= |c.methods[j]| && c.methods[j][..3] == head)
    {
      if 3 <= |c.methods[i]| && c.methods[i][..3] == head {
        return true;
      }
    }
    return false;
  }

  /** The header lines up to the Host, a blank line or the end. */
  method FindHost(c: Config, br: LineReader) returns (host: seq<byte>)
    requires br.eof ==> br.rec.conn.rest == []
    modifies br, br.rec`seen, br.rec.conn`rest
    ensures br.rec.seen + br.rec.conn.rest == old(br.rec.seen + br.rec.conn.rest)
    ensures host == HostOf(c, old(br.Ahead()))
  {
    hide NewlineAt;
    ghost var lines, stream := br.Ahead(), br.rec.seen + br.rec.conn.rest;
    while true
      invariant br.eof ==> br.rec.conn.rest == []
      invariant br.rec.seen + br.rec.conn.rest == stream
      invariant HostOf(c, lines) == HostOf(c, br.Ahead())
      decreases |br.Ahead()|
    {
      ghost var before := br.Ahead();
      var line, ok := br.ReadLine();
      if !ok {
        return [];
      }
      assert |br.Ahead()| < |before|;
      match c.header(line)
      case Blank => return [];
      case Host(value) => return value;
      case Other =>
    }
  }

  method MatchHttp(c: Config, rec: Recorder) returns (target: string)
    modifies rec`seen, rec.conn`rest
    ensures rec.seen + rec.conn.rest == old(rec.seen + rec.conn.rest)
    ensures target == HttpTarget(c, old(rec.conn.rest))
  {
    hide NewlineAt, HostOf;
    var br := new LineReader(rec);
    assert br.Ahead() == rec.conn.rest;
    var line, ok := br.ReadLine();
    if !ok {
      return c.httpDefault;
    }
    var host := FindHost(c, br);
    match c.route(host)
    case None => return c.httpDefault;
    case Some(t) => return t;
  }

  /** queued: the target's queue has room within ten seconds. */
  method Handoff(c: Config, conn: Conn, target: string, replay: seq<byte>, queued: bool) returns (r: Outcome)
    modifies conn`closed
    ensures if queued then r.Handed? && r.target == Resolve(c, target) && fresh(r.conn) && r.conn.Valid() && r.conn.conn == conn
                           && r.conn.Ahead() == replay + conn.rest && conn.closed == old(conn.closed)
            else r.HungUp? && conn.closed
  {
    if queued {
      var rc := new ReplayConn(conn, replay);
      return Handed(Resolve(c, target), rc);
    }
    conn.Close();
    return HungUp;
  }

  /** One usable prefix: what it needs beyond the first three bytes is read and compared. */
  method TryPrefix(rec: Recorder, head: seq<byte>, prefix: seq<byte>) returns (ok: bool, hit: bool)
    requires 3 == |head| <= |rec.seen| && head == rec.seen[..3]
    modifies rec`seen, rec.conn`rest
    ensures rec.seen + rec.conn.rest == old(rec.seen + rec.conn.rest)
    ensures var input, used, more := old(rec.seen + rec.conn.rest), old(|rec.seen|), if |prefix| > 3 then |prefix| - 3 else 0;
            && (ok <==> used + more <= |input|)
            && (ok ==> |rec.seen| == used + more && hit == StartsWith(input[..3] + input[used..used + more], prefix))
    ensures |rec.seen| >= 3 && head == rec.seen[..3]
  {
    ghost var input, used := rec.seen + rec.conn.rest, |rec.seen|;
    var cmp := head;
    if |prefix| > 3 {
      var rest;
      rest, ok := rec.ReadFull(|prefix| - 3);
      Regroup(input[..used], rest, rec.conn.rest);
      if !ok {
        return false, false;
      }
      assert rest == input[used..used + |rest|];
      cmp := head + rest;
    } else {
      assert input[..3] + input[used..used] == head;
    }
    return true, StartsWith(cmp, prefix);
  }

  /** The prefix rules in order; each long one reads on. */
  method TryRules(c: Config, rec: Recorder, head: seq<byte>) returns (v: Verdict)
    requires |rec.seen| == 3 && head == rec.seen
    modifies rec`seen, rec.conn`rest
    ensures rec.seen + rec.conn.rest == old(rec.seen + rec.conn.rest)
    ensures v == TryPrefixes(c.prefixes, 0, old(rec.seen + rec.conn.rest), 3)
    ensures v.Next? ==> |rec.seen| == v.used
  {
    hide StartsWith, HexBytes;
    ghost var input := rec.seen + rec.conn.rest;
    assert rec.seen[..3] == rec.seen;
    for i := 0 to |c.prefixes|
      invariant 3 <= |rec.seen| && head == rec.seen[..3] && rec.seen + rec.conn.rest == input
      invariant TryPrefixes(c.prefixes, 0, input, 3) == TryPrefixes(c.prefixes, i, input, |rec.seen|)
    {
      var prefix := ParseHex(c.prefixes[i].prefix);
      if prefix.None? || prefix.value == [] {
        continue;
      }
      var ok, hit := TryPrefix(rec, head, prefix.value);
      if !ok {
        return Hangup;
      }
      if hit {
        return Goes(i);
      }
    }
    return Next(|rec.seen|);
  }

  /** Whatever the configuration, the input and the chunking: the target depends on the bytes alone,
      and the connection it gets yields exactly the bytes the peer sent. */
  method Dispatch(c: Config, conn: Conn, queued: bool) returns (r: Outcome)
    requires !conn.closed
    modifies conn
    ensures var input := old(conn.rest);
            match Decide(c, input)
            case None => r.HungUp? && conn.closed
            case Some(target) =>
              if queued then r.Handed? && r.target == Resolve(c, target) && fresh(r.conn) && r.conn.Valid()
                             && r.conn.conn == conn && r.conn.Ahead() == input && !conn.closed
              else r.HungUp? && conn.closed
    ensures r.Handed? ==> GoesTo(c, old(conn.rest), r.target)
    ensures queued && r.HungUp? ==> forall name :: !GoesTo(c, old(conn.rest), name)
  {
    hide TryPrefixes, HttpTarget, LooksHttp, GoesTo;
    ghost var input := conn.rest;
    forall name ensures GoesTo(c, input, name) <==> Decide(c, input).Some? && name == Resolve(c, Decide(c, input).value) {
      DecideGoes(c, input, name);
    }
    var rec := new Recorder(conn);
    var head, ok := rec.ReadFull(3);
    if !ok {
      conn.Close();
      return HungUp;
    }
    assert rec.seen == head == input[..3];
    var v := TryRules(c, rec, head);
    var target: string;
    match v {
      case Hangup =>
        conn.Close();
        return HungUp;
      case Goes(k) =>
        target := c.prefixes[k].target;
      case Next(used) =>
        assert conn.rest == input[used..];
        var http := MatchMethod(c, head);
        if http {
          target := MatchHttp(c, rec);
        } else {
          target := c.fallback;
        }
    }
    r := Handoff(c, conn, target, rec.seen, queued);
  }
}
