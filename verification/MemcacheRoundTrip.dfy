/** A client's requests, written out as the protocol has them, are the requests the server frames. */
module MemcacheRoundTrip {
  import opened Common
  import opened Memcache
  import MemcacheServer

  // ---------------------------------------------------------------- lines

  predicate Word(w: string) {
    w != [] && forall c :: c in w ==> c != ' ' && c != '\r' && c != '\n'
  }

  function Join(words: seq<string>): string {
    if words == [] then []
    else if |words| == 1 then words[0]
    else words[0] + " " + Join(words[1..])
  }

  lemma {:induction false} WordEnds(w: string, rest: string)
    requires ' ' !in w && (rest == [] || rest[0] == ' ')
    ensures WordEnd(w + rest) == |w|
  {
    if w == [] {
      assert w + rest == rest;
    } else {
      assert w[0] in w;
      WordEnds(w[1..], rest);
      assert (w + rest)[1..] == w[1..] + rest;
    }
  }

  lemma {:induction false} FirstToken(w: string, rest: string)
    requires Word(w) && (rest == [] || rest[0] == ' ')
    ensures Tokens(w + rest) == [w] + Tokens(rest)
  {
    assert w[0] in w;
    WordEnds(w, rest);
    assert (w + rest)[..|w|] == w && (w + rest)[|w|..] == rest;
  }

  lemma {:induction false} TokensOfJoin(words: seq<string>)
    requires forall w :: w in words ==> Word(w)
    ensures Tokens(Join(words)) == words
  {
    if |words| == 1 {
      assert words[0] in words;
      FirstToken(words[0], []);
      assert words[0] + [] == words[0];
    } else if |words| > 1 {
      assert words[0] in words;
      var rest := " " + Join(words[1..]);
      FirstToken(words[0], rest);
      assert words[0] + " " + Join(words[1..]) == words[0] + rest;
      assert rest[1..] == Join(words[1..]);
      TokensOfJoin(words[1..]);
    }
  }

  lemma {:induction false} NoCrInJoin(words: seq<string>)
    requires forall w :: w in words ==> Word(w)
    ensures '\r' !in Join(words)
  {
    if words != [] {
      assert words[0] in words;
      NoCrInJoin(words[1..]);
    }
  }

  lemma LineEnds(line: string, rest: string)
    requires '\r' !in line
    ensures FindCrlf(line + "\r\n" + rest) == Some(|line|)
  {
    var s := line + "\r\n" + rest;
    assert CrlfAt(s, |line|);
    assert forall i :: 0 <= i < |line| ==> s[i] == line[i] && line[i] in line;
  }

  // ---------------------------------------------------------------- requests

  /** Requests a client can put in the protocol: words for keys, numbers and sizes in range. */
  predicate Sendable(r: Request) {
    match r
    case Version => true
    case Stats => true
    case Get(keys) => keys != [] && forall k :: k in keys ==> Word(k)
    case Store(cmd, key, flags, exptime, _, data) =>
      StorageCommand(cmd) && Word(key) && |key| <= MAX_KEY && flags < U32 && exptime < U64 && |data| <= MAX_VALUE
    case Delete(key, _) => Word(key)
    case Arith(_, key, delta, _) => Word(key) && delta < U64
    case Rejected(_) => false
  }

  function Quiet(noreply: bool): seq<string> {
    if noreply then ["noreply"] else []
  }

  function StoreLine(r: Request): seq<string>
    requires r.Store?
  {
    [r.cmd, r.key, ToDigits(r.flags), ToDigits(r.exptime), ToDigits(|r.data|)] + Quiet(r.noreply)
  }

  function Words(r: Request): seq<string>
    requires Sendable(r)
  {
    match r
    case Version => ["version"]
    case Stats => ["stats"]
    case Get(keys) => ["get"] + keys
    case Store(_, _, _, _, _, _) => StoreLine(r)
    case Delete(key, noreply) => ["delete", key] + Quiet(noreply)
    case Arith(incr, key, delta, noreply) => [if incr then "incr" else "decr", key, ToDigits(delta)] + Quiet(noreply)
  }

  function Encode(r: Request): string
    requires Sendable(r)
  {
    Join(Words(r)) + "\r\n" + if r.Store? then r.data + "\r\n" else []
  }

  function EncodeAll(rs: seq<Request>): string
    requires forall r :: r in rs ==> Sendable(r)
  {
    if rs == [] then [] else Encode(rs[0]) + EncodeAll(rs[1..])
  }

  predicate IsLower(s: string) {
    forall c :: c in s ==> 'a' <= c <= 'z'
  }

  lemma LowerStays(s: string)
    requires IsLower(s)
    ensures Lower(s) == s
  {
    assert forall i :: 0 <= i < |s| ==> s[i] in s;
  }

  lemma DigitsAreWords(n: nat)
    ensures Word(ToDigits(n))
  {
    assert forall c :: c in ToDigits(n) ==> IsDigit(c);
  }

  lemma CommandsAreWords(cmd: string)
    requires cmd in ["version", "stats", "get", "delete", "incr", "decr", "noreply"] || StorageCommand(cmd)
    ensures Word(cmd) && IsLower(cmd)
  {
  }

  lemma StoreWords(r: Request)
    requires r.Store? && StorageCommand(r.cmd) && Word(r.key)
    ensures forall w :: w in StoreLine(r) ==> Word(w)
  {
    CommandsAreWords(r.cmd);
    CommandsAreWords("noreply");
    DigitsAreWords(r.flags);
    DigitsAreWords(r.exptime);
    DigitsAreWords(|r.data|);
  }

  lemma OtherWords(r: Request)
    requires !r.Store? && Sendable(r)
    ensures forall w :: w in Words(r) ==> Word(w)
  {
    CommandsAreWords(Words(r)[0]);
    CommandsAreWords("noreply");
    if r.Arith? {
      DigitsAreWords(r.delta);
    }
  }

  lemma StoreHeadOfWords(r: Request)
    requires r.Store? && Sendable(r)
    ensures HeadOf(Words(r)) == Block(r.cmd, r.key, r.flags, r.exptime, |r.data|, r.noreply)
  {
    CommandsAreWords(r.cmd);
    LowerStays(r.cmd);
    NumberRoundTrip(r.flags, U32);
    NumberRoundTrip(r.exptime, U64);
    NumberRoundTrip(|r.data|, U32);
    assert HeadOf(Words(r)) == StorageHead(r.cmd, Words(r));
  }

  lemma ArithHeadOfWords(r: Request)
    requires r.Arith? && Sendable(r)
    ensures HeadOf(Words(r)) == Whole(r)
  {
    CommandsAreWords(Words(r)[0]);
    LowerStays(Words(r)[0]);
    NumberRoundTrip(r.delta, U64);
  }

  lemma DeleteHeadOfWords(r: Request)
    requires r.Delete? && Sendable(r)
    ensures HeadOf(Words(r)) == Whole(r)
  {
    CommandsAreWords("delete");
    LowerStays("delete");
  }

  lemma OtherHeadOfWords(r: Request)
    requires !r.Store? && Sendable(r)
    ensures HeadOf(Words(r)) == Whole(r)
  {
    if r.Arith? {
      ArithHeadOfWords(r);
    } else if r.Delete? {
      DeleteHeadOfWords(r);
    } else {
      CommandsAreWords(Words(r)[0]);
      LowerStays(Words(r)[0]);
    }
  }

  lemma FirstLine(words: seq<string>, after: string)
    requires forall w :: w in words ==> Word(w)
    ensures First(HeadOf, Join(words) + "\r\n" + after) == Frame(HeadOf(words), after)
  {
    var line := Join(words);
    TokensOfJoin(words);
    NoCrInJoin(words);
    LineEnds(line, after);
    var s := line + "\r\n" + after;
    assert s[..|line|] == line && s[|line| + 2..] == after;
  }

  lemma StoreRoundTrip(r: Request, rest: string)
    requires Sendable(r) && r.Store?
    ensures First(HeadOf, Encode(r) + rest) == Next(Some(r), rest)
  {
    var line, after := Join(Words(r)) + "\r\n", r.data + "\r\n" + rest;
    StoreWords(r);
    FirstLine(Words(r), after);
    StoreHeadOfWords(r);
    assert Encode(r) + rest == line + after;
    assert after[..|r.data|] == r.data && after[|r.data| + 2..] == rest;
  }

  lemma OtherRoundTrip(r: Request, rest: string)
    requires Sendable(r) && !r.Store?
    ensures First(HeadOf, Encode(r) + rest) == Next(Some(r), rest)
  {
    OtherWords(r);
    FirstLine(Words(r), rest);
    OtherHeadOfWords(r);
    assert Encode(r) == Join(Words(r)) + "\r\n";
  }

  /** A data block may hold line ends: its length alone says where it stops. */
  lemma FrameRoundTrip(r: Request, rest: string)
    requires Sendable(r)
    ensures First(HeadOf, Encode(r) + rest) == Next(Some(r), rest)
  {
    if r.Store? {
      StoreRoundTrip(r, rest);
    } else {
      OtherRoundTrip(r, rest);
    }
  }

  // ---------------------------------------------------------------- refused storage commands

  predicate InRange(s: string, bound: nat) {
    ParseNumber(s, bound).Some?
  }

  /** The commands a data block follows: the five the server takes, and the protocol's `cas`. */
  predicate CarriesData(cmd: string) {
    StorageCommand(cmd) || cmd == "cas"
  }

  /** The words of a storage command line whose arguments the server refuses. */
  predicate RefusedLine(t: seq<string>) {
    || |t| < 5 || |t[1]| > MAX_KEY
    || !InRange(t[2], U32) || !InRange(t[3], U64) || !InRange(t[4], U32)
    || ParseNumber(t[4], U32).value > MAX_VALUE
  }

  predicate Refused(t: seq<string>)
    requires t != []
  {
    Lower(t[0]) == "cas" || RefusedLine(t)
  }

  function ReplyTo(t: seq<string>): Reply
    requires t != [] && Refused(t)
  {
    if Lower(t[0]) == "cas" || |t| < 5 then Error
    else if |t[1]| > MAX_KEY then BadFormat
    else if !InRange(t[2], U32) || !InRange(t[3], U64) || !InRange(t[4], U32) then Error
    else TooLarge
  }

  lemma StorageHeadOf(t: seq<string>)
    requires t != [] && StorageCommand(Lower(t[0]))
    ensures HeadOf(t) == StorageHead(Lower(t[0]), t)
  {
  }

  lemma LineThenRest(line: string, after: string)
    requires FindCrlf(line + "\r\n") == Some(|line|)
    ensures First(HeadOf, line + "\r\n" + after) == Frame(HeadOf(Tokens(line)), after)
  {
    var s := line + "\r\n" + after;
    CrlfStays(line + "\r\n", after);
    assert s[..|line|] == line && s[|line| + 2..] == after;
  }

  lemma CasHeadOf(t: seq<string>)
    requires t != [] && Lower(t[0]) == "cas"
    ensures HeadOf(t) == Whole(Rejected(Error))
  {
  }

  /** The frame of a storage command line of words `t`: refused, everything after it is still to be read. */
  predicate ReadsOnIfRefused(t: seq<string>, after: string, f: Framed)
    requires t != []
  {
    && (Refused(t) <==> f.Next? && f.rest == after)
    && (Refused(t) ==> f.req == Some(Rejected(ReplyTo(t))))
    && (!Refused(t) ==>
          var n := ParseNumber(t[4], U32).value;
          if |after| < n + 2 then f == End
          else f.Next? && f.rest == after[n + 2..] && f.req.Some? && f.req.value.Store? &&
               f.req.value.key == t[1] && f.req.value.data == after[..n])
  }

  lemma StorageFrame(t: seq<string>, after: string)
    requires t != [] && StorageCommand(Lower(t[0]))
    ensures ReadsOnIfRefused(t, after, Frame(StorageHead(Lower(t[0]), t), after))
  {
  }

  lemma DataFrame(t: seq<string>, after: string)
    requires t != [] && CarriesData(Lower(t[0]))
    ensures ReadsOnIfRefused(t, after, Frame(HeadOf(t), after))
  {
    if Lower(t[0]) == "cas" {
      CasHeadOf(t);
    } else {
      StorageHeadOf(t);
      StorageFrame(t, after);
    }
  }

  /**
    What follows a line of one of the protocol's six storage commands is framed as commands exactly if
    the command is `cas`, which the server knows but does not take, or the line is refused: too few
    words, too long a key, a number that is not all digits or out of range, or too much data.
    Otherwise exactly the bytes it announces and two more are taken as its data block.
   */
  lemma RefusedDataIsReadOn(line: string, after: string)
    requires FindCrlf(line + "\r\n") == Some(|line|)
    requires Tokens(line) != [] && CarriesData(Lower(Tokens(line)[0]))
    ensures ReadsOnIfRefused(Tokens(line), after, First(HeadOf, line + "\r\n" + after))
  {
    LineThenRest(line, after);
    DataFrame(Tokens(line), after);
  }

  /** A well-formed `cas` of `n` bytes. */
  function CasLine(key: string, n: nat): seq<string> {
    ["cas", key, "0", "0", ToDigits(n), "7"]
  }

  lemma CasWords(key: string, n: nat)
    requires Word(key)
    ensures forall w :: w in CasLine(key, n) ==> Word(w)
    ensures HeadOf(CasLine(key, n)) == Whole(Rejected(Error))
  {
    DigitsAreWords(n);
    LowerStays("cas");
    CasHeadOf(CasLine(key, n));
  }

  /** The server answers a `cas` with an error, and goes on to read its data block as commands. */
  lemma CasDataIsReadOn(key: string, data: string, after: string)
    requires Word(key)
    ensures First(HeadOf, Join(CasLine(key, |data|)) + "\r\n" + (data + "\r\n" + after)) ==
            Next(Some(Rejected(Error)), data + "\r\n" + after)
  {
    CasWords(key, |data|);
    FirstLine(CasLine(key, |data|), data + "\r\n" + after);
  }

  /** A line refused for its number: a time in the past, which the protocol allows. */
  lemma NegativeTimeIsRefused(key: string, after: string)
    requires Word(key)
    ensures First(HeadOf, Join(["set", key, "0", "-1", "5"]) + "\r\n" + after) == Next(Some(Rejected(
              if |key| > MAX_KEY then BadFormat else Error)), after)
  {
    var words := ["set", key, "0", "-1", "5"];
    CommandsAreWords("set");
    LowerStays("set");
    FirstLine(words, after);
    StorageHeadOf(words);
    assert '-' in words[3];
  }

  /** The server frames exactly what the client sent, in order. */
  lemma {:induction false} ConversationRoundTrip(rs: seq<Request>)
    requires forall r :: r in rs ==> Sendable(r)
    ensures Requests(HeadOf, EncodeAll(rs)) == rs
  {
    if rs != [] {
      FrameRoundTrip(rs[0], EncodeAll(rs[1..]));
      ConversationRoundTrip(rs[1..]);
    }
  }

  /** And does so however the network cuts the stream. */
  method Converse(rs: seq<Request>, sizes: seq<nat>) returns (served: seq<Request>)
    requires forall r :: r in rs ==> Sendable(r)
    ensures served == rs
  {
    ConversationRoundTrip(rs);
    served := MemcacheServer.ServeConnection(EncodeAll(rs), sizes);
  }
}
