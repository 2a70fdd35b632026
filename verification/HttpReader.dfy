/** The proxy's reader loops over a byte stream that arrives in pieces of arbitrary size. */
module HttpReader {
  import opened Wrappers
  import opened Headers
  import opened HeaderFields

  const CHUNK: nat := 4096
  const MAX_HEADER_BYTES: nat := 65536

  /** The longest head that no cutting of the stream can push over the limit. */
  const SAFE_HEAD_BYTES: nat := MAX_HEADER_BYTES + 1 - CHUNK

  /** How many bytes the next read of at most `n` delivers: none at the end of the stream, else what the network has
      ready, which is what `plan` says. An exhausted plan delivers as much as was asked for. */
  function Delivered(rest: Bytes, plan: seq<nat>, n: nat): (k: nat)
    requires n > 0
    ensures k <= |rest| && k <= n
    ensures k == 0 <==> rest == ""
  {
    Min(|rest|, Min(n, if plan == [] then n else Max(1, plan[0])))
  }

  function Later(plan: seq<nat>): seq<nat> {
    if plan == [] then [] else plan[1..]
  }

  datatype HeadRead = HeadRead(head: Bytes, tail: Bytes, rest: Bytes, plan: seq<nat>)

  function HeadOf(buffer: Bytes, rest: Bytes, plan: seq<nat>): HeadRead {
    match Find(buffer, DELIMITER)
    case None => HeadRead(buffer, "", rest, plan)
    case Some(i) => HeadRead(buffer[..i + 4], buffer[i + 4..], rest, plan)
  }

  /** What `_read_http_head` returns and leaves behind, from a buffer, the bytes to come and their cutting. */
  function ReadHead(buffer: Bytes, rest: Bytes, plan: seq<nat>): HeadRead
    decreases |rest|
  {
    if Find(buffer, DELIMITER).Some? then HeadOf(buffer, rest, plan)
    else
      var k := Delivered(rest, plan, CHUNK);
      if k == 0 then HeadOf(buffer, rest, Later(plan))
      else if |buffer| + k > MAX_HEADER_BYTES then HeadRead("", "", rest[k..], Later(plan))
      else ReadHead(buffer + rest[..k], rest[k..], Later(plan))
  }

  /** Decimal digits only. */
  function Digits(s: Bytes): (n: Option<nat>)
  {
    if s == "" then None
    else
      var last := s[|s| - 1];
      if !('0' <= last <= '9') then None
      else if |s| == 1 then Some(last as int - '0' as int)
      else match Digits(s[..|s| - 1])
        case None => None
        case Some(n) => Some(10 * n + (last as int - '0' as int))
  }

  /** `_extract_content_length`. */
  function ContentLength(head: Bytes): Option<nat> {
    match HeaderValue(head, "content-length")
    case None => None
    case Some(value) => Digits(value)
  }

  /** A numeral has the value of its digits at their places; nothing else has one. */
  lemma {:induction false} DigitsMean(s: Bytes)
    ensures Digits(s) == if Numeral(s) then Some(PlaceValue(s)) else None
    decreases |s|
  {
    hide Digits, Digital, PlaceValue;
    if s == "" {
      NoDigits();
    } else {
      var front, last := s[..|s| - 1], s[|s| - 1];
      assert s == front + [last];
      DigitsMean(front);
      DigitsSnoc(front, last);
      DigitalSnoc(front, last);
      NoPlaces();
      if Digital(s) {
        PlaceSnoc(front, last);
      }
    }
  }

  lemma NoDigits()
    ensures Digits("").None?
  {}

  lemma DigitsSnoc(front: Bytes, last: char)
    ensures Digits(front + [last])
         == if !('0' <= last <= '9') then None
            else if front == "" then Some(last as int - '0' as int)
            else match Digits(front)
              case None => None
              case Some(n) => Some(10 * n + (last as int - '0' as int))
  {
    var s := front + [last];
    assert s[..|s| - 1] == front;
  }

  lemma NoPlaces()
    ensures Digital("") && PlaceValue("") == 0
  {}

  /** Reading back the decimal notation of a number gives that number. */
  lemma DigitsOfDecimal(n: nat)
    ensures Digits(Decimal(n)) == Some(n)
  {
    hide Digits, Decimal, PlaceValue;
    DecimalMeans(n);
    DigitsMean(Decimal(n));
  }

  /** The length a head announces: the value of its first Content-Length field, when that is a numeral. */
  lemma ContentLengthMeans(head: Bytes)
    ensures ContentLength(head)
         == match ValueIn(Split(head), "content-length")
            case Some(value) => if Numeral(value) then Some(PlaceValue(value)) else None
            case None => None
  {
    hide Digits, PlaceValue, Split, ValueIn, Numeral;
    match HeaderValue(head, "content-length")
    case None =>
    case Some(value) => DigitsMean(value);
  }

  datatype Response = Ok(bytes: Bytes) | Failed

  /** The response made from a head and everything that follows it. */
  function Framing(head: Bytes, after: Bytes): Response {
    if head == "" then Failed
    else match ContentLength(head)
      case None => Ok(RewriteResponse(head) + after)
      case Some(n) => if n <= |after| then Ok(RewriteResponse(head) + after[..n]) else Failed
  }

  function ReadResponse(stream: Bytes, plan: seq<nat>): Response {
    var r := ReadHead("", stream, plan);
    Framing(r.head, r.tail + r.rest)
  }

  /** A stream reader: the bytes not yet read and how the network will cut them. */
  class StreamReader {
    var rest: Bytes
    var plan: seq<nat>

    constructor (stream: Bytes, cuts: seq<nat>)
      ensures rest == stream && plan == cuts
    {
      rest := stream;
      plan := cuts;
    }

    method Read(n: nat) returns (chunk: Bytes)
      requires n > 0
      modifies this
      ensures chunk == old(rest)[..Delivered(old(rest), old(plan), n)]
      ensures rest == old(rest)[Delivered(old(rest), old(plan), n)..]
      ensures plan == Later(old(plan))
      ensures chunk + rest == old(rest) && |chunk| <= n && (chunk == "" <==> old(rest) == "")
    {
      var k := Delivered(rest, plan, n);
      chunk := rest[..k];
      rest := rest[k..];
      plan := Later(plan);
    }

    method ReadHttpHead() returns (head: Bytes, tail: Bytes)
      modifies this
      ensures HeadRead(head, tail, rest, plan) == ReadHead("", old(rest), old(plan))
    {
      hide Find, Delivered;
      var buffer := "";
      while Find(buffer, DELIMITER).None?
        invariant ReadHead(buffer, rest, plan) == ReadHead("", old(rest), old(plan))
        decreases |rest|
      {
        ghost var before, cuts := rest, plan;
        var chunk := Read(CHUNK);
        if chunk == "" {
          assert before[0..] == before;
          assert ReadHead(buffer, before, cuts) == HeadOf(buffer, rest, plan);
          return buffer, "";
        }
        if |buffer + chunk| > MAX_HEADER_BYTES {
          return "", "";
        }
        buffer := buffer + chunk;
      }
      var i := Find(buffer, DELIMITER).value;
      assert i + 4 <= |buffer| by { FoundWithin(buffer); }
      return buffer[..i + 4], buffer[i + 4..];
    }

    method ReadFullResponse() returns (response: Response)
      modifies this
      ensures response == ReadResponse(old(rest), old(plan))
    {
      hide ReadHead, ContentLength, RewriteResponse, Digits, Delivered, Later;
      ghost var stream, cuts := rest, plan;
      var header, prefix := ReadHttpHead();
      ghost var after := prefix + rest;
      assert ReadResponse(stream, cuts) == Framing(header, after);
      if header == "" {
        return Failed;
      }
      var rewritten := RewriteResponseHeaders(header);
      var length := ContentLength(header);
      if length.None? {
        var body := prefix;
        while true
          invariant body + rest == after
          decreases |rest|
        {
          ghost var before := rest;
          var chunk := Read(CHUNK);
          if chunk == "" {
            break;
          }
          ReadOn(after, body, before, chunk, rest);
          body := body + chunk;
        }
        return Ok(rewritten + body);
      }
      var n := length.value;
      var body := prefix[..Min(n, |prefix|)];
      var remaining := n - |body|;
      assert after[..Min(n, |prefix|)] == body;
      while remaining > 0
        invariant 0 <= remaining == n - |body|
        invariant |body| <= |after| && body == after[..|body|]
        invariant remaining > 0 ==> body + rest == after
        decreases remaining
      {
        ghost var before := rest;
        var chunk := Read(Min(CHUNK, remaining));
        if chunk == "" {
          return Failed;
        }
        ReadOn(after, body, before, chunk, rest);
        body := body + chunk;
        remaining := remaining - |chunk|;
      }
      assert body == after[..n];
      return Ok(rewritten + body);
    }
  }

  lemma ReadOn(after: Bytes, body: Bytes, before: Bytes, chunk: Bytes, rest: Bytes)
    requires body + before == after && chunk + rest == before
    ensures (body + chunk) + rest == after && |body + chunk| <= |after| && body + chunk == after[..|body + chunk|]
  {}

  lemma FoundWithin(s: Bytes)
    requires Find(s, DELIMITER).Some?
    ensures Find(s, DELIMITER).value + 4 <= |s|
  {
    hide Find;
  }

  // ---- What the head reader returns, in terms of the whole stream ----

  /** Where the head of a stream ends, when it does. */
  function HeadEnd(s: Bytes): (e: Option<nat>)
    ensures e.Some? ==> 4 <= e.value <= |s|
  {
    match Find(s, DELIMITER)
    case None => None
    case Some(i) => FoundWithin(s); Some(i + 4)
  }

  /** Nothing lost and nothing repeated: the head up to its end, and the rest of the stream after it. */
  predicate Exact(s: Bytes, r: HeadRead) {
    match HeadEnd(s)
    case None => r.head == s && r.tail + r.rest == ""
    case Some(e) => r.head == s[..e] && r.tail + r.rest == s[e..]
  }

  predicate Rejected(r: HeadRead) {
    r.head == "" && r.tail == ""
  }

  /** Heads that are read the same however the stream is cut. */
  predicate Small(s: Bytes) {
    |s| <= 65536 || (HeadEnd(s).Some? && HeadEnd(s).value <= 61441)
  }

  /** Heads that are refused however the stream is cut. */
  predicate Large(s: Bytes) {
    |s| > 65536 && (HeadEnd(s).Some? ==> HeadEnd(s).value > 65536)
  }

  /** A prefix holds the end of the head exactly when it is long enough. */
  lemma PrefixEnd(s: Bytes, k: nat)
    requires k <= |s|
    ensures HeadEnd(s[..k]) == if HeadEnd(s).Some? && HeadEnd(s).value <= k then HeadEnd(s) else None
  {
    hide Find, At;
    FirstDelimiter(s);
    FirstDelimiter(s[..k]);
    forall i: nat ensures At(s[..k], i, DELIMITER) <==> At(s, i, DELIMITER) && i + 4 <= k {
      AtPrefix(s, k, i);
    }
    if HeadEnd(s).Some? && HeadEnd(s).value <= k {
      FirstAt(s[..k], HeadEnd(s).value - 4, DELIMITER);
    }
  }

  lemma AtPrefix(s: Bytes, k: nat, i: nat)
    requires k <= |s|
    ensures At(s[..k], i, DELIMITER) <==> At(s, i, DELIMITER) && i + 4 <= k
  {
    AtDelimiter(s, i);
    AtDelimiter(s[..k], i);
    AtCrlf(s, i);
    AtCrlf(s, i + 2);
    AtCrlf(s[..k], i);
    AtCrlf(s[..k], i + 2);
  }

  lemma FirstDelimiter(s: Bytes)
    ensures HeadEnd(s).None? <==> forall i: nat :: !At(s, i, DELIMITER)
    ensures HeadEnd(s).Some? ==> At(s, HeadEnd(s).value - 4, DELIMITER)
    ensures HeadEnd(s).Some? ==> forall i: nat :: i < HeadEnd(s).value - 4 ==> !At(s, i, DELIMITER)
  {
    forall i: int ensures At(s, i, DELIMITER) ==> i >= 0 {}
    assert Find(s, DELIMITER).None? <==> forall i: nat :: !At(s, i, DELIMITER);
  }

  lemma DeliveredSome(rest: Bytes, plan: seq<nat>)
    ensures Delivered(rest, plan, CHUNK) <= |rest|
    ensures Delivered(rest, plan, CHUNK) == 0 <==> rest == ""
  {}

  /** One step of the reader, seen on the stream. */
  lemma Step(s: Bytes, k: nat, plan: seq<nat>)
    requires k <= |s|
    ensures HeadEnd(s[..k]).Some? ==> Exact(s, ReadHead(s[..k], s[k..], plan))
    ensures k == |s| ==> Exact(s, ReadHead(s[..k], s[k..], plan))
    ensures HeadEnd(s[..k]).None? && k < |s| ==>
              var n := Delivered(s[k..], plan, CHUNK);
              && 0 < n
              && k + n <= |s|
              && ReadHead(s[..k], s[k..], plan)
                 == if k + n > MAX_HEADER_BYTES then HeadRead("", "", s[k + n..], Later(plan))
                    else ReadHead(s[..k + n], s[k + n..], Later(plan))
  {
    hide Find, Delivered, At;
    DeliveredSome(s[k..], plan);
    PrefixEnd(s, k);
    EndWithin(s);
    assert s[..k] + s[k..] == s;
    if HeadEnd(s[..k]).Some? {
      var e := HeadEnd(s).value;
      assert s[..k][..e] == s[..e];
      assert s[..k][e..] + s[k..] == s[e..];
    } else if k == |s| {
      assert s[..k] == s;
    } else {
      var n := Delivered(s[k..], plan, CHUNK);
      assert s[..k] + s[k..][..n] == s[..k + n];
      assert s[k..][n..] == s[k + n..];
    }
  }

  /** For every cutting the outcome is exact or a refusal; small heads are always read exactly, large ones always
      refused. */
  lemma {:induction false} HeadOutcome(s: Bytes, k: nat, plan: seq<nat>)
    requires k <= |s| && k <= MAX_HEADER_BYTES
    ensures var r := ReadHead(s[..k], s[k..], plan);
            && (Exact(s, r) || Rejected(r))
            && (Small(s) ==> Exact(s, r))
            && (Large(s) ==> Rejected(r))
    decreases |s| - k
  {
    hide ReadHead, HeadEnd, Exact, Delivered;
    Step(s, k, plan);
    PrefixEnd(s, k);
    if HeadEnd(s[..k]).None? && k < |s| {
      var n := Delivered(s[k..], plan, CHUNK);
      AtMost(s[k..], plan);
      if k + n <= MAX_HEADER_BYTES {
        HeadOutcome(s, k + n, Later(plan));
      }
    }
  }

  lemma AtMost(rest: Bytes, plan: seq<nat>)
    ensures Delivered(rest, plan, CHUNK) <= CHUNK
  {}

  lemma HeadOutcomes(s: Bytes, plan: seq<nat>)
    ensures var r := ReadHead("", s, plan);
            && (Exact(s, r) || Rejected(r))
            && (Small(s) ==> Exact(s, r))
            && (Large(s) ==> Rejected(r))
  {
    hide *;
    assert s[..0] == "" && s[0..] == s;
    HeadOutcome(s, 0, plan);
  }

  function Ones(n: nat): (plan: seq<nat>)
    ensures |plan| == n && forall i :: 0 <= i < n ==> plan[i] == 1
  {
    seq(n, _ => 1)
  }

  lemma OneByte(rest: Bytes, n: nat)
    requires rest != "" && n > 0
    ensures Delivered(rest, Ones(n), CHUNK) == 1 && Later(Ones(n)) == Ones(n - 1)
  {}

  /** Fed byte by byte, a head within the limit is read exactly. */
  lemma {:induction false} SlowlyRead(s: Bytes, k: nat)
    requires HeadEnd(s).Some? && k <= HeadEnd(s).value <= MAX_HEADER_BYTES
    ensures Exact(s, ReadHead(s[..k], s[k..], Ones(MAX_HEADER_BYTES - k)))
    decreases HeadEnd(s).value - k
  {
    hide ReadHead, HeadEnd, Exact, Delivered, Ones;
    Step(s, k, Ones(MAX_HEADER_BYTES - k));
    PrefixEnd(s, k);
    EndWithin(s);
    if k < HeadEnd(s).value {
      OneByte(s[k..], MAX_HEADER_BYTES - k);
      SlowlyRead(s, k + 1);
    }
  }

  lemma EndWithin(s: Bytes)
    ensures HeadEnd(s).Some? ==> 4 <= HeadEnd(s).value <= |s|
  {}

  /** Fed byte by byte up to the safe bound and then in full chunks, a head beyond that bound is refused when the stream
      goes on past the limit. */
  lemma {:induction false} QuicklyRefused(s: Bytes, k: nat)
    requires HeadEnd(s).Some? ==> HeadEnd(s).value > SAFE_HEAD_BYTES
    requires |s| > MAX_HEADER_BYTES && k <= SAFE_HEAD_BYTES
    ensures Rejected(ReadHead(s[..k], s[k..], Ones(SAFE_HEAD_BYTES - k)))
    decreases SAFE_HEAD_BYTES - k
  {
    hide ReadHead, HeadEnd, Exact, Delivered, Ones;
    Step(s, k, Ones(SAFE_HEAD_BYTES - k));
    PrefixEnd(s, k);
    if k < SAFE_HEAD_BYTES {
      OneByte(s[k..], SAFE_HEAD_BYTES - k);
      QuicklyRefused(s, k + 1);
    } else {
      FullChunk(s[k..], Ones(0));
    }
  }

  lemma FullChunk(rest: Bytes, plan: seq<nat>)
    requires plan == [] && |rest| >= CHUNK
    ensures Delivered(rest, plan, CHUNK) == CHUNK
  {}

  /** The head read is the same for every cutting of the stream exactly when the head is at most 61441 bytes, or over
      65536, or the whole stream fits the limit. */
  lemma ChunkIndependentIff(s: Bytes)
    ensures (forall p: seq<nat>, q: seq<nat> :: ReadHead("", s, p).head == ReadHead("", s, q).head)
            <==> Small(s) || Large(s)
  {
    hide ReadHead, HeadEnd;
    forall p: seq<nat>, q: seq<nat> ensures Small(s) || Large(s) ==> ReadHead("", s, p).head == ReadHead("", s, q).head {
      HeadOutcomes(s, p);
      HeadOutcomes(s, q);
    }
    if !Small(s) && !Large(s) {
      assert s[..0] == "" && s[0..] == s;
      EndWithin(s);
      SlowlyRead(s, 0);
      QuicklyRefused(s, 0);
      assert ReadHead("", s, Ones(MAX_HEADER_BYTES)).head != ReadHead("", s, Ones(SAFE_HEAD_BYTES)).head;
    }
  }

  // ---- Responses ----

  /** How much of a stream is its head: all of it when it ends before any CRLFCRLF. */
  function HeadSpan(s: Bytes): (e: nat)
    ensures e <= |s|
  {
    match HeadEnd(s)
    case None => |s|
    case Some(e) => e
  }

  /** A response with a head of at most 61441 bytes, or that fits the limit as a whole, is relayed the same for every
      cutting: the rewritten head and exactly the announced number of bytes, an error when the stream is shorter,
      everything when no length is announced. A stream that ends within its head is relayed as a head all the same. */
  lemma ResponseExact(s: Bytes, plan: seq<nat>)
    requires Small(s) && s != ""
    ensures var e := HeadSpan(s);
            ReadResponse(s, plan)
            == match ContentLength(s[..e])
               case None => Ok(RewriteResponse(s[..e]) + s[e..])
               case Some(n) => if e + n <= |s| then Ok(RewriteResponse(s[..e]) + s[e..e + n]) else Failed
    ensures var e := HeadSpan(s);
            match ValueIn(Split(s[..e]), "content-length")
            case Some(value) =>
              if Numeral(value) then
                var n := PlaceValue(value);
                ReadResponse(s, plan) == if e + n <= |s| then Ok(RewriteResponse(s[..e]) + s[e..e + n]) else Failed
              else ReadResponse(s, plan) == Ok(RewriteResponse(s[..e]) + s[e..])
            case None => ReadResponse(s, plan) == Ok(RewriteResponse(s[..e]) + s[e..])
    ensures HeadEnd(s).None? ==>
              ReadResponse(s, plan)
              == match ContentLength(s)
                 case None => Ok(RewriteResponse(s))
                 case Some(n) => if n == 0 then Ok(RewriteResponse(s)) else Failed
  {
    hide ReadHead, HeadEnd, ContentLength, RewriteResponse, Split, ValueIn, Numeral, PlaceValue;
    HeadOutcomes(s, plan);
    EndWithin(s);
    var e := HeadSpan(s);
    ContentLengthMeans(s[..e]);
    var n := ContentLength(s[..e]);
    assert s[..|s|] == s;
    if n.Some? && e + n.value <= |s| {
      assert s[e..][..n.value] == s[e..e + n.value];
    }
  }

  lemma RefusedResponse(s: Bytes, plan: seq<nat>)
    requires Large(s) || s == ""
    ensures ReadResponse(s, plan) == Failed
  {
    hide ReadHead, Exact, HeadEnd, ContentLength, RewriteResponse;
    HeadOutcomes(s, plan);
    if s == "" {
      ReadNothing(plan);
    }
  }

  lemma ReadNothing(plan: seq<nat>)
    ensures ReadHead("", "", plan).head == ""
  {}

  // ---- A relayed response read again ----

  /** The head that was cut off a stream is framed. */
  lemma HeadIsFramed(s: Bytes)
    ensures HeadEnd(s).Some? ==> Framed(s[..HeadSpan(s)])
    ensures HeadEnd(s).None? ==> HeadSpan(s) == |s| && s[..HeadSpan(s)] == s
  {
    hide Find;
    EndWithin(s);
    if HeadEnd(s).Some? {
      PrefixEnd(s, HeadEnd(s).value);
    }
  }

  /** A head of empty lines is left as it is, and announces no length. */
  lemma NoLines(head: Bytes)
    requires HeaderLines(head) == []
    ensures RewriteResponse(head) == head && ContentLength(head).None?
  {
    hide Split;
    EmptyLinesSayNothing(Split(head), "content-length");
  }

  lemma {:induction false} EmptyLinesSayNothing(lines: seq<Bytes>, name: Bytes)
    requires NonEmpty(lines) == []
    ensures ValueIn(lines, name).None?
  {
    if lines != [] {
      EmptyLinesSayNothing(lines[1..], name);
    }
  }

  /** A framed head in front of any bytes ends where it ended alone. */
  lemma FramedPrefix(head: Bytes, after: Bytes)
    requires Framed(head)
    ensures HeadEnd(head + after) == Some(|head|)
  {
    hide Find, At;
    FramedMeans(head);
    var s := head + after;
    assert s[..|head|] == head;
    forall i: nat | i <= |head| - 4 ensures At(s, i, DELIMITER) <==> At(head, i, DELIMITER) {
      AtPrefix(s, |head|, i);
    }
    FirstAt(s, |head| - 4, DELIMITER);
  }

  lemma ContentLengthKept(head: Bytes)
    ensures ContentLength(RewriteResponse(head)) == ContentLength(head)
  {
    hide HeaderValue, RewriteResponse, Digits;
    NotHopByHop();
    ResponseKeepsValues(head, "content-length");
  }

  lemma NotHopByHop()
    ensures "content-length" !in RESPONSE_HOP_BY_HOP
  {}

  /** What the proxy relays is self-delimiting: the same proxy, reading its own output under any cutting and with any
      bytes after it when a length was announced, relays exactly that output again. */
  lemma RelayIsStable(s: Bytes, plan: seq<nat>, more: Bytes, again: seq<nat>)
    requires Small(s) && s != ""
    requires var head := s[..HeadSpan(s)];
             && |RewriteResponse(head)| <= SAFE_HEAD_BYTES
             && (ContentLength(head).None? ==> more == "")
    requires ReadResponse(s, plan).Ok?
    ensures ReadResponse(ReadResponse(s, plan).bytes + more, again) == ReadResponse(s, plan)
  {
    hide *;
    var e := HeadSpan(s);
    var head := s[..e];
    var out := RewriteResponse(head);
    ResponseExact(s, plan);
    HeadIsFramed(s);
    if HeaderLines(head) == [] && !Framed(head) {
      NoLines(head);
      ResponseExact(s, again);
      assert s[..|s|] == s && s + more == s;
      return;
    }
    ResponseFramed(head);
    ResponseIdempotent(head);
    ContentLengthKept(head);
    var n := ContentLength(head);
    var body := if n.Some? then s[e..e + n.value] else s[e..];
    var t := ReadResponse(s, plan).bytes + more;
    assert t == out + (body + more);
    FramedPrefix(out, body + more);
    FramedIsSmall(t);
    ResponseExact(t, again);
    assert t[..|out|] == out;
    assert t[|out|..] == body + more;
    if n.Some? {
      assert t[|out|..|out| + n.value] == body;
    } else {
      assert body + more == body;
    }
  }

  lemma FramedIsSmall(t: Bytes)
    requires HeadEnd(t).Some? && HeadEnd(t).value <= SAFE_HEAD_BYTES
    ensures Small(t) && t != "" && HeadSpan(t) == HeadEnd(t).value
  {
    hide Find;
    EndWithin(t);
  }
}
