/** The memcache text protocol: what requests a stream of bytes holds. */
module Memcache {
  import opened Common

  const MAX_KEY := 250
  const MAX_VALUE := 1_048_576
  const U32 := 0x1_0000_0000
  const U64 := 0x1_0000_0000_0000_0000

  datatype Reply = Error | BadFormat | TooLarge

  datatype Request =
    | Version
    | Stats
    | Get(keys: seq<string>)
    | Store(cmd: string, key: string, flags: nat, exptime: nat, noreply: bool, data: string)
    | Delete(key: string, noreply: bool)
    | Arith(incr: bool, key: string, delta: nat, noreply: bool)
    | Rejected(reply: Reply)

  /** What a command line asks for: a storage command is whole only with its data block. */
  datatype Head =
    | Blank
    | Quit
    | Whole(req: Request)
    | Block(cmd: string, key: string, flags: nat, exptime: nat, nbytes: nat, noreply: bool)

  // ---------------------------------------------------------------- lines and words

  predicate CrlfAt(s: string, i: nat) {
    i + 1 < |s| && s[i] == '\r' && s[i + 1] == '\n'
  }

  /** Where the first line end is. */
  function FindCrlf(s: string): (r: Option<nat>)
    ensures r.Some? ==> CrlfAt(s, r.value)
    ensures forall i :: CrlfAt(s, i) ==> r.Some? && r.value <= i
  {
    if |s| < 2 then None
    else if CrlfAt(s, 0) then Some(0)
    else
      var r := FindCrlf(s[1..]);
      assert forall i :: i > 0 && CrlfAt(s, i) ==> CrlfAt(s[1..], i - 1);
      if r.None? then None else Some(r.value + 1)
  }

  /** How many characters come before the first space. */
  function WordEnd(s: string): (n: nat)
    ensures n <= |s| && ' ' !in s[..n] && (n < |s| ==> s[n] == ' ')
  {
    if s == [] || s[0] == ' ' then 0 else
      assert s[..WordEnd(s[1..]) + 1] == [s[0]] + s[1..][..WordEnd(s[1..])];
      WordEnd(s[1..]) + 1
  }

  function Tokens(line: string): (t: seq<string>)
    ensures forall w :: w in t ==> w != [] && ' ' !in w
    decreases |line|
  {
    if line == [] then []
    else if line[0] == ' ' then Tokens(line[1..])
    else [line[..WordEnd(line)]] + Tokens(line[WordEnd(line)..])
  }

  /** Past the spaces at `i`. */
  method SkipSpaces(line: string, start: nat) returns (i: nat)
    requires start <= |line|
    ensures start <= i <= |line| && (i < |line| ==> line[i] != ' ')
    ensures Tokens(line[start..]) == Tokens(line[i..])
  {
    i := start;
    while i < |line| && line[i] == ' '
      invariant start <= i <= |line| && Tokens(line[start..]) == Tokens(line[i..])
    {
      assert line[i..][1..] == line[i + 1..];
      i := i + 1;
    }
  }

  /** Past the word at `i`. */
  method SkipWord(line: string, start: nat) returns (i: nat)
    requires start <= |line|
    ensures i == start + WordEnd(line[start..])
  {
    i := start;
    while i < |line| && line[i] != ' '
      invariant start <= i <= |line| && start + WordEnd(line[start..]) == i + WordEnd(line[i..])
    {
      assert line[i..][1..] == line[i + 1..];
      i := i + 1;
    }
  }

  method Tokenize(line: string) returns (tokens: seq<string>)
    ensures tokens == Tokens(line)
  {
    tokens := [];
    var i := 0;
    assert line[0..] == line;
    while i < |line|
      invariant 0 <= i <= |line| && Tokens(line) == tokens + Tokens(line[i..])
    {
      i := SkipSpaces(line, i);
      if i >= |line| {
        break;
      }
      var start := i;
      i := SkipWord(line, start);
      NextToken(line, start, i);
      tokens := tokens + [line[start..i]];
    }
  }

  lemma NextToken(line: string, start: nat, end: nat)
    requires start < |line| && line[start] != ' ' && end == start + WordEnd(line[start..])
    ensures start < end <= |line| && Tokens(line[start..]) == [line[start..end]] + Tokens(line[end..])
  {
    assert line[start..][..end - start] == line[start..end] && line[start..][end - start..] == line[end..];
  }

  // ---------------------------------------------------------------- numbers

  predicate IsDigit(c: char) {
    '0' <= c <= '9'
  }

  function Digits(s: string): nat
    requires forall c :: c in s ==> IsDigit(c)
  {
    if s == [] then 0
    else
      assert IsDigit(s[|s| - 1]);
      Digits(s[..|s| - 1]) * 10 + (s[|s| - 1] - '0') as nat
  }

  /** A whole token of decimal digits below `bound`. */
  function ParseNumber(s: string, bound: nat): Option<nat> {
    if s != [] && (forall c :: c in s ==> IsDigit(c)) && Digits(s) < bound then Some(Digits(s)) else None
  }

  function ToDigits(n: nat): (s: string)
    ensures s != [] && forall c :: c in s ==> IsDigit(c)
  {
    if n < 10 then ['0' + n as char] else ToDigits(n / 10) + ['0' + (n % 10) as char]
  }

  lemma {:induction false} NumberRoundTrip(n: nat, bound: nat)
    requires n < bound
    ensures ParseNumber(ToDigits(n), bound) == Some(n)
  {
    DigitsRoundTrip(n);
  }

  lemma {:induction false} DigitsRoundTrip(n: nat)
    ensures Digits(ToDigits(n)) == n
  {
    var s := ToDigits(n);
    if n < 10 {
      assert s[..0] == [];
    } else {
      DigitsRoundTrip(n / 10);
      assert s[..|s| - 1] == ToDigits(n / 10);
    }
  }

  function Zeros(k: nat): (s: string)
    ensures |s| == k && forall c :: c in s ==> IsDigit(c)
  {
    seq(k, _ => '0')
  }

  lemma {:induction false} LeadingZeros(k: nat, w: string)
    requires forall c :: c in w ==> IsDigit(c)
    ensures Digits(Zeros(k) + w) == Digits(w)
  {
    var s := Zeros(k) + w;
    if w != [] {
      LeadingZeros(k, w[..|w| - 1]);
      assert s[..|s| - 1] == Zeros(k) + w[..|w| - 1];
    } else if k > 0 {
      LeadingZeros(k - 1, w);
      assert s[..|s| - 1] == Zeros(k - 1) + w;
    }
  }

  /** A token of digits is a number as to_chars writes it, after any number of zeros. */
  lemma {:induction false} DigitsAreCanonical(s: string) returns (k: nat)
    requires s != [] && forall c :: c in s ==> IsDigit(c)
    ensures s == Zeros(k) + ToDigits(Digits(s))
  {
    var m := |s| - 1;
    assert IsDigit(s[m]);
    if m == 0 {
      assert s[..0] == [];
      k := 0;
    } else {
      k := DigitsAreCanonical(s[..m]);
      k := OneMoreDigit(s[..m], s[m], k);
      assert s == s[..m] + [s[m]];
    }
  }

  lemma OneMoreDigit(w: string, d: char, k: nat) returns (k': nat)
    requires (forall c :: c in w ==> IsDigit(c)) && IsDigit(d) && w == Zeros(k) + ToDigits(Digits(w))
    ensures w + [d] == Zeros(k') + ToDigits(Digits(w) * 10 + (d - '0') as nat)
  {
    k' := k;
    if Digits(w) == 0 {
      assert w == Zeros(k + 1);
      k' := k + 1;
    }
  }

  /** What parses as a number, exactly. */
  lemma NumberParses(s: string, bound: nat, n: nat)
    ensures ParseNumber(s, bound) == Some(n) <==> n < bound && exists k :: s == Zeros(k) + ToDigits(n)
  {
    if ParseNumber(s, bound) == Some(n) {
      var k := DigitsAreCanonical(s);
    }
    forall k | s == Zeros(k) + ToDigits(n) ensures Digits(ToDigits(n)) == n && ParseNumber(s, n + 1) == Some(n) {
      DigitsRoundTrip(n);
      LeadingZeros(k, ToDigits(n));
    }
  }

  // ---------------------------------------------------------------- requests

  function Lower(s: string): string {
    seq(|s|, i requires 0 <= i < |s| => if 'A' <= s[i] <= 'Z' then s[i] + 32 as char else s[i])
  }

  predicate StorageCommand(cmd: string) {
    cmd in ["set", "add", "replace", "append", "prepend"]
  }

  function StorageHead(cmd: string, t: seq<string>): Head {
    if |t| < 5 then Whole(Rejected(Error))
    else if |t[1]| > MAX_KEY then Whole(Rejected(BadFormat))
    else
      var flags, exptime, nbytes := ParseNumber(t[2], U32), ParseNumber(t[3], U64), ParseNumber(t[4], U32);
      if flags.None? || exptime.None? || nbytes.None? then Whole(Rejected(Error))
      else if nbytes.value > MAX_VALUE then Whole(Rejected(TooLarge))
      else Block(cmd, t[1], flags.value, exptime.value, nbytes.value, |t| >= 6 && t[5] == "noreply")
  }

  function HeadOf(t: seq<string>): Head {
    if t == [] then Blank
    else
      var cmd := Lower(t[0]);
      if cmd == "quit" then Quit
      else if cmd == "version" then Whole(Version)
      else if cmd == "stats" then Whole(Stats)
      else if cmd == "get" || cmd == "gets" then
        Whole(if |t| == 1 then Rejected(Error) else Get(t[1..]))
      else if StorageCommand(cmd) then StorageHead(cmd, t)
      else if cmd == "delete" then
        Whole(if |t| < 2 then Rejected(Error) else Delete(t[1], |t| >= 3 && t[2] == "noreply"))
      else if cmd == "incr" || cmd == "decr" then
        Whole(if |t| < 3 || ParseNumber(t[2], U64).None? then Rejected(Error)
              else Arith(cmd == "incr", t[1], ParseNumber(t[2], U64).value, |t| >= 4 && t[3] == "noreply"))
      else Whole(Rejected(Error))
  }

  // Framing is the same whatever makes a head of a line's words; the server's own is HeadOf.

  /** What comes first in a stream: the end of it, or a line with its request, if any, and the rest. */
  datatype Framed = End | Next(req: Option<Request>, rest: string)

  function First(head: seq<string> -> Head, s: string): (f: Framed)
    ensures f.Next? ==> |f.rest| < |s|
  {
    match FindCrlf(s)
    case None => End
    case Some(i) => Frame(head(Tokens(s[..i])), s[i + 2..])
  }

  /** A command line of head `h` with `rest` after it. */
  function Frame(h: Head, rest: string): (f: Framed)
    ensures f.Next? ==> |f.rest| <= |rest|
  {
    match h
    case Blank => Next(None, rest)
    case Quit => End
    case Whole(req) => Next(Some(req), rest)
    case Block(cmd, key, flags, exptime, nbytes, noreply) =>
      if |rest| < nbytes + 2 then End
      else Next(Some(Store(cmd, key, flags, exptime, noreply, rest[..nbytes])), rest[nbytes + 2..])
  }

  /** The requests of a whole stream, up to a quit or the last one that is all there. */
  function Requests(head: seq<string> -> Head, s: string): seq<Request>
    decreases |s|
  {
    match First(head, s)
    case End => []
    case Next(req, rest) => (if req.Some? then [req.value] else []) + Requests(head, rest)
  }

  /** A line end once found stays the first, whatever arrives after it. */
  lemma CrlfStays(s: string, more: string)
    requires FindCrlf(s).Some?
    ensures FindCrlf(s + more) == FindCrlf(s)
    ensures var i := FindCrlf(s).value; (s + more)[..i] == s[..i] && (s + more)[i + 2..] == s[i + 2..] + more
  {
    var i, j := FindCrlf(s).value, FindCrlf(s + more);
    assert CrlfAt(s + more, i);
    assert CrlfAt(s + more, j.value) && j.value <= i;
    assert CrlfAt(s, j.value);
  }
}
