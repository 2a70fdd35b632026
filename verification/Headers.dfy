/** Parsing and rewriting of HTTP heads in the proxy. Byte strings are sequences of characters; only the codes below
    128 that appear here have a meaning, so everything proved holds for all byte strings. */
module Headers {
  import opened Wrappers

  type Bytes = string

  const CRLF: Bytes := "\r\n"
  const DELIMITER: Bytes := "\r\n\r\n"

  predicate At(s: Bytes, i: int, sub: Bytes) {
    0 <= i <= |s| - |sub| && s[i..i + |sub|] == sub
  }

  /** `bytes.find`: the first position of `sub`. */
  function Find(s: Bytes, sub: Bytes): (r: Option<nat>)
    requires sub != ""
    ensures r.None? <==> forall i :: !At(s, i, sub)
    ensures r.Some? ==> At(s, r.value, sub) && forall i :: 0 <= i < r.value ==> !At(s, i, sub)
  {
    if |s| < |sub| then None
    else if At(s, 0, sub) then Some(0)
    else
      var rest := Find(s[1..], sub);
      assert forall i :: i >= 1 ==> (At(s, i, sub) <==> At(s[1..], i - 1, sub)) by {
        forall i | i >= 1 ensures At(s, i, sub) <==> At(s[1..], i - 1, sub) {
          if i <= |s| - |sub| {
            assert s[1..][i - 1..i - 1 + |sub|] == s[i..i + |sub|];
          }
        }
      }
      if rest.None? then
        assert forall i :: !At(s, i, sub);
        None
      else
        assert At(s, rest.value + 1, sub);
        assert forall i :: 0 <= i < rest.value + 1 && At(s, i, sub) ==> i >= 1 && At(s[1..], i - 1, sub);
        Some(rest.value + 1)
  }

  /** `bytes.split(b"\r\n")`. */
  function Split(s: Bytes): (lines: seq<Bytes>)
    ensures lines != []
    decreases |s|
  {
    match Find(s, CRLF)
    case None => [s]
    case Some(i) => [s[..i]] + Split(s[i + 2..])
  }

  /** `b"\r\n".join`. */
  function Join(lines: seq<Bytes>): Bytes {
    if lines == [] then ""
    else if |lines| == 1 then lines[0]
    else lines[0] + CRLF + Join(lines[1..])
  }

  predicate IsSpace(c: char) {
    c == ' ' || c == '\t' || c == '\n' || c == '\r' || c == '\U{000B}' || c == '\U{000C}'
  }

  function StripLeft(s: Bytes): Bytes {
    if s != "" && IsSpace(s[0]) then StripLeft(s[1..]) else s
  }

  function StripRight(s: Bytes): Bytes {
    if s != "" && IsSpace(s[|s| - 1]) then StripRight(s[..|s| - 1]) else s
  }

  function Strip(s: Bytes): Bytes {
    StripRight(StripLeft(s))
  }

  function LowerChar(c: char): char {
    if 'A' <= c <= 'Z' then (c as int + 32) as char else c
  }

  function Lower(s: Bytes): Bytes {
    seq(|s|, i requires 0 <= i < |s| => LowerChar(s[i]))
  }

  /** Position of the first colon, or the length when there is none. */
  function Colon(line: Bytes): (i: nat)
    ensures i <= |line|
    ensures forall j :: 0 <= j < i ==> line[j] != ':'
    ensures i < |line| ==> line[i] == ':'
  {
    if line == "" || line[0] == ':' then 0 else 1 + Colon(line[1..])
  }

  /** `_header_name`. */
  function HeaderName(line: Bytes): Option<Bytes> {
    if Colon(line) == |line| then None else Some(Lower(Strip(line[..Colon(line)])))
  }

  function FieldValue(line: Bytes): Bytes
    requires Colon(line) < |line|
  {
    Strip(line[Colon(line) + 1..])
  }

  function ValueIn(lines: seq<Bytes>, name: Bytes): Option<Bytes> {
    if lines == [] then None
    else if HeaderName(lines[0]) == Some(name) then Some(FieldValue(lines[0]))
    else ValueIn(lines[1..], name)
  }

  /** `_header_value`: it searches every line, the start line included. */
  function HeaderValue(head: Bytes, name: Bytes): Option<Bytes> {
    ValueIn(Split(head), name)
  }

  function NonEmpty(lines: seq<Bytes>): seq<Bytes> {
    if lines == [] then []
    else if lines[0] == "" then NonEmpty(lines[1..])
    else [lines[0]] + NonEmpty(lines[1..])
  }

  /** `_header_lines`. */
  function HeaderLines(head: Bytes): seq<Bytes> {
    NonEmpty(Split(head))
  }

  const HOP_BY_HOP: set<Bytes> := {
    "connection", "keep-alive", "proxy-authenticate", "proxy-authorization", "te", "trailer", "transfer-encoding",
    "upgrade"}

  const RESPONSE_HOP_BY_HOP: set<Bytes> := HOP_BY_HOP - {"transfer-encoding"}

  const REQUEST_DROPPED: set<Bytes> := HOP_BY_HOP + {"host"}

  const CLOSE: Bytes := "Connection: close"

  predicate Survives(line: Bytes, dropped: set<Bytes>) {
    HeaderName(line).Some? && HeaderName(line).value !in dropped
  }

  function Surviving(lines: seq<Bytes>, dropped: set<Bytes>): seq<Bytes> {
    if lines == [] then []
    else if Survives(lines[0], dropped) then [lines[0]] + Surviving(lines[1..], dropped)
    else Surviving(lines[1..], dropped)
  }

  /** Keep the start line, insert `added`, keep the surviving fields, close the connection. */
  function Rewrite(head: Bytes, added: seq<Bytes>, dropped: set<Bytes>): Bytes {
    var lines := HeaderLines(head);
    if lines == [] then head
    else Join([lines[0]] + added + Surviving(lines[1..], dropped) + [CLOSE]) + DELIMITER
  }

  function Digit(d: nat): char
    requires d < 10
  {
    ('0' as int + d) as char
  }

  /** Decimal notation of an integer. */
  function Decimal(n: int): (s: Bytes)
    ensures s != "" && forall i :: 0 <= i < |s| ==> s[i] == '-' || '0' <= s[i] <= '9'
    decreases n < 0, if n < 0 then -n else n
  {
    if n < 0 then "-" + Decimal(-n)
    else if n < 10 then [Digit(n)]
    else Decimal(n / 10) + [Digit(n % 10)]
  }

  function HostLine(host: Bytes, port: int): Bytes {
    "Host: " + (host + ":" + Decimal(port))
  }

  /** `_rewrite_request_headers`. */
  function RewriteRequest(head: Bytes, host: Bytes, port: int): Bytes {
    Rewrite(head, [HostLine(host, port)], REQUEST_DROPPED)
  }

  /** `_rewrite_response_headers`. */
  function RewriteResponse(head: Bytes): Bytes {
    Rewrite(head, [], RESPONSE_HOP_BY_HOP)
  }

  // ---- Splitting what was joined ----

  predicate Clean(line: Bytes) {
    Find(line, CRLF).None?
  }

  lemma AtCrlf(s: Bytes, i: int)
    ensures At(s, i, CRLF) <==> 0 <= i <= |s| - 2 && s[i] == '\r' && s[i + 1] == '\n'
  {
    if 0 <= i <= |s| - 2 {
      assert s[i..i + 2] == [s[i], s[i + 1]];
    }
  }

  lemma FirstAt(s: Bytes, i: nat, sub: Bytes)
    requires sub != "" && At(s, i, sub) && forall j :: 0 <= j < i ==> !At(s, j, sub)
    ensures Find(s, sub) == Some(i)
  {
    hide At;
  }

  /** The first CRLF after a line without one is the one that ends it. */
  lemma FirstCrlf(a: Bytes, b: Bytes)
    requires Clean(a)
    ensures Find(a + CRLF + b, CRLF) == Some(|a|)
  {
    hide Find, At;
    var s := a + CRLF + b;
    AtCrlf(s, |a|);
    forall j | 0 <= j < |a| ensures !At(s, j, CRLF) {
      AtCrlf(s, j);
      AtCrlf(a, j);
    }
    FirstAt(s, |a|, CRLF);
  }

  lemma EarlierCrlf(a: Bytes, b: Bytes, i: nat)
    requires Find(a, CRLF) == Some(i)
    ensures i + 2 <= |a| && Find(a + CRLF + b, CRLF) == Some(i)
  {
    hide Find, At;
    var s := a + CRLF + b;
    AtCrlf(a, i);
    AtCrlf(s, i);
    forall j | 0 <= j < i ensures !At(s, j, CRLF) {
      AtCrlf(s, j);
      AtCrlf(a, j);
    }
    FirstAt(s, i, CRLF);
  }

  lemma {:induction false} SplitConcat(a: Bytes, b: Bytes)
    ensures Split(a + CRLF + b) == Split(a) + Split(b)
    decreases |a|
  {
    hide Find, At;
    var s := a + CRLF + b;
    match Find(a, CRLF)
    case None =>
      FirstCrlf(a, b);
      assert s[..|a|] == a && s[|a| + 2..] == b;
    case Some(i) =>
      EarlierCrlf(a, b, i);
      assert s[..i] == a[..i];
      assert s[i + 2..] == a[i + 2..] + CRLF + b;
      SplitConcat(a[i + 2..], b);
      assert [a[..i]] + (Split(a[i + 2..]) + Split(b)) == [a[..i]] + Split(a[i + 2..]) + Split(b);
  }

  lemma {:induction false} SplitIsClean(s: Bytes)
    ensures forall line :: line in Split(s) ==> Clean(line)
    decreases |s|
  {
    match Find(s, CRLF)
    case None =>
    case Some(i) =>
      SplitIsClean(s[i + 2..]);
      forall j ensures !At(s[..i], j, CRLF) {
        AtCrlf(s[..i], j);
        AtCrlf(s, j);
      }
  }

  /** All the lines of several texts. */
  function SplitAll(texts: seq<Bytes>): seq<Bytes> {
    if texts == [] then [] else Split(texts[0]) + SplitAll(texts[1..])
  }

  lemma {:induction false} SplitJoin(texts: seq<Bytes>)
    requires texts != []
    ensures Split(Join(texts)) == SplitAll(texts)
  {
    hide Split;
    if |texts| == 1 {
      assert SplitAll(texts[1..]) == [];
    } else {
      SplitConcat(texts[0], Join(texts[1..]));
      SplitJoin(texts[1..]);
    }
  }

  lemma {:induction false} SplitAllClean(lines: seq<Bytes>)
    requires forall line :: line in lines ==> Clean(line)
    ensures SplitAll(lines) == lines
  {
    if lines != [] {
      assert lines[0] in lines;
      SplitAllClean(lines[1..]);
    }
  }

  lemma {:induction false} SplitAllAppend(a: seq<Bytes>, b: seq<Bytes>)
    ensures SplitAll(a + b) == SplitAll(a) + SplitAll(b)
  {
    if a == [] {
      assert a + b == b;
    } else {
      assert (a + b)[1..] == a[1..] + b;
      SplitAllAppend(a[1..], b);
    }
  }

  /** Joining what was split gives the text back. */
  lemma {:induction false} JoinSplit(s: Bytes)
    ensures Join(Split(s)) == s
    decreases |s|
  {
    match Find(s, CRLF)
    case None =>
    case Some(i) =>
      JoinSplit(s[i + 2..]);
      assert s == s[..i] + CRLF + s[i + 2..];
      assert ([s[..i]] + Split(s[i + 2..]))[1..] == Split(s[i + 2..]);
  }

  // ---- What survives ----

  lemma {:induction false} SurvivingAppend(a: seq<Bytes>, b: seq<Bytes>, dropped: set<Bytes>)
    ensures Surviving(a + b, dropped) == Surviving(a, dropped) + Surviving(b, dropped)
  {
    hide Survives;
    if a == [] {
      assert a + b == b;
    } else {
      assert (a + b)[1..] == a[1..] + b;
      SurvivingAppend(a[1..], b, dropped);
    }
  }

  lemma {:induction false} SurvivingNonEmpty(lines: seq<Bytes>, dropped: set<Bytes>)
    ensures Surviving(NonEmpty(lines), dropped) == Surviving(lines, dropped)
  {
    if lines != [] {
      SurvivingNonEmpty(lines[1..], dropped);
      if lines[0] != "" {
        assert ([lines[0]] + NonEmpty(lines[1..]))[1..] == NonEmpty(lines[1..]);
      }
    }
  }

  lemma {:induction false} SurvivingTwice(lines: seq<Bytes>, dropped: set<Bytes>)
    ensures Surviving(Surviving(lines, dropped), dropped) == Surviving(lines, dropped)
    ensures forall line :: line in Surviving(lines, dropped) ==> line in lines && Survives(line, dropped)
  {
    hide Survives;
    if lines != [] {
      SurvivingTwice(lines[1..], dropped);
      if Survives(lines[0], dropped) {
        assert ([lines[0]] + Surviving(lines[1..], dropped))[1..] == Surviving(lines[1..], dropped);
      }
    }
  }

  lemma {:induction false} NonEmptyAppend(a: seq<Bytes>, b: seq<Bytes>)
    ensures NonEmpty(a + b) == NonEmpty(a) + NonEmpty(b)
  {
    if a == [] {
      assert a + b == b;
    } else {
      assert (a + b)[1..] == a[1..] + b;
      NonEmptyAppend(a[1..], b);
    }
  }

  lemma {:induction false} NonEmptyMembers(lines: seq<Bytes>)
    ensures forall line :: line in NonEmpty(lines) <==> line in lines && line != ""
  {
    if lines != [] {
      NonEmptyMembers(lines[1..]);
    }
  }

  lemma {:induction false} NonEmptyAlready(lines: seq<Bytes>)
    requires forall line :: line in lines ==> line != ""
    ensures NonEmpty(lines) == lines
  {
    if lines != [] {
      assert lines[0] in lines;
      assert forall line :: line in lines[1..] ==> line in lines;
      NonEmptyAlready(lines[1..]);
    }
  }

  lemma {:induction false} ValueInAppend(a: seq<Bytes>, b: seq<Bytes>, name: Bytes)
    ensures ValueIn(a + b, name) == if ValueIn(a, name).Some? then ValueIn(a, name) else ValueIn(b, name)
  {
    hide HeaderName, FieldValue;
    if a == [] {
      assert a + b == b;
    } else {
      assert (a + b)[1..] == a[1..] + b;
      ValueInAppend(a[1..], b, name);
    }
  }

  lemma {:induction false} ValueInNonEmpty(lines: seq<Bytes>, name: Bytes)
    ensures ValueIn(NonEmpty(lines), name) == ValueIn(lines, name)
  {
    if lines != [] {
      ValueInNonEmpty(lines[1..], name);
      if lines[0] != "" {
        assert ([lines[0]] + NonEmpty(lines[1..]))[1..] == NonEmpty(lines[1..]);
      }
    }
  }

  lemma {:induction false} ValueInSurviving(lines: seq<Bytes>, dropped: set<Bytes>, name: Bytes)
    requires name !in dropped
    ensures ValueIn(Surviving(lines, dropped), name) == ValueIn(lines, name)
  {
    hide HeaderName, FieldValue;
    if lines != [] {
      ValueInSurviving(lines[1..], dropped, name);
      if Survives(lines[0], dropped) {
        assert ([lines[0]] + Surviving(lines[1..], dropped))[1..] == Surviving(lines[1..], dropped);
      }
    }
  }

  // ---- The lines of a rewritten head ----

  lemma ColonIs(line: Bytes, i: nat)
    requires i < |line| && line[i] == ':' && forall j :: 0 <= j < i ==> line[j] != ':'
    ensures Colon(line) == i
  {}

  lemma NoCarriageReturn(line: Bytes)
    requires '\r' !in line
    ensures Clean(line)
  {
    forall i ensures !At(line, i, CRLF) {
      AtCrlf(line, i);
    }
  }

  lemma LowerConnection()
    ensures Lower("Connection") == "connection"
  {}

  lemma CloseLine()
    ensures CLOSE != "" && Clean(CLOSE) && HeaderName(CLOSE) == Some("connection")
  {
    hide Clean, Lower, Strip, Colon;
    NoCarriageReturn(CLOSE);
    ColonIs(CLOSE, 10);
    assert CLOSE[..10] == "Connection";
    StripNothing("Connection");
    LowerConnection();
  }

  lemma StripNothing(s: Bytes)
    requires s != "" && !IsSpace(s[0]) && !IsSpace(s[|s| - 1])
    ensures Strip(s) == s
  {}

  /** Every line of a rewritten head: the start line, the lines of what was added, the survivors, the close line and
      the two empty lines that end it. */
  lemma RewrittenLines(head: Bytes, added: seq<Bytes>, dropped: set<Bytes>)
    requires HeaderLines(head) != []
    ensures Split(Rewrite(head, added, dropped))
         == [HeaderLines(head)[0]] + SplitAll(added) + Surviving(HeaderLines(head)[1..], dropped) + [CLOSE, "", ""]
  {
    hide *;
    var start, fields := HeaderLines(head)[0], Surviving(HeaderLines(head)[1..], dropped);
    var lines := [start] + added + fields + [CLOSE];
    var out := Join(lines) + DELIMITER;
    assert out == Rewrite(head, added, dropped) by { RewriteUnfolds(head, added, dropped); }
    TwoCrlf();
    assert out == Join(lines) + CRLF + ("" + CRLF + "");
    SplitConcat(Join(lines), "" + CRLF + "");
    SplitConcat("", "");
    SplitJoin(lines);
    SplitEmpty();
    assert Split(out) == SplitAll(lines) + ["", ""];
    SplitAllAppend([start] + added + fields, [CLOSE]);
    SplitAllAppend([start] + added, fields);
    SplitAllAppend([start], added);
    KeptLinesAreClean(head, dropped);
    CloseLine();
    SplitAllClean([start]);
    SplitAllClean(fields);
    SplitAllClean([CLOSE]);
    assert [CLOSE] + ["", ""] == [CLOSE, "", ""];
  }

  lemma TwoCrlf()
    ensures DELIMITER == CRLF + CRLF
  {}

  lemma RewriteUnfolds(head: Bytes, added: seq<Bytes>, dropped: set<Bytes>)
    requires HeaderLines(head) != []
    ensures Rewrite(head, added, dropped)
         == Join([HeaderLines(head)[0]] + added + Surviving(HeaderLines(head)[1..], dropped) + [CLOSE]) + DELIMITER
  {
    hide HeaderLines, Surviving, Join;
  }

  lemma SplitEmpty()
    ensures Split("") == [""]
  {}

  lemma KeptLinesAreClean(head: Bytes, dropped: set<Bytes>)
    requires HeaderLines(head) != []
    ensures forall line :: line in HeaderLines(head) ==> line != "" && Clean(line)
    ensures forall line :: line in Surviving(HeaderLines(head)[1..], dropped) ==> line != "" && Clean(line)
  {
    hide Split, NonEmpty, Surviving, Clean;
    SplitIsClean(head);
    NonEmptyMembers(Split(head));
    SurvivingTwice(HeaderLines(head)[1..], dropped);
  }

  /** Its non-empty lines. */
  lemma RewrittenHeaderLines(head: Bytes, added: seq<Bytes>, dropped: set<Bytes>)
    requires HeaderLines(head) != []
    ensures HeaderLines(Rewrite(head, added, dropped))
         == [HeaderLines(head)[0]] + NonEmpty(SplitAll(added)) + Surviving(HeaderLines(head)[1..], dropped) + [CLOSE]
  {
    hide *;
    var start, fields := HeaderLines(head)[0], Surviving(HeaderLines(head)[1..], dropped);
    assert start in HeaderLines(head);
    HeaderLinesMeans(Rewrite(head, added, dropped));
    RewrittenLines(head, added, dropped);
    KeptLinesAreClean(head, dropped);
    CloseLine();
    NonEmptyAppend([start] + SplitAll(added) + fields, [CLOSE, "", ""]);
    NonEmptyAppend([start] + SplitAll(added), fields);
    NonEmptyAppend([start], SplitAll(added));
    NonEmptyAlready([start]);
    NonEmptyAlready(fields);
    NonEmptyEnd();
  }

  lemma HeaderLinesMeans(head: Bytes)
    ensures HeaderLines(head) == NonEmpty(Split(head))
  {}

  lemma NonEmptyEnd()
    ensures NonEmpty([CLOSE, "", ""]) == [CLOSE]
  {
    assert [CLOSE, "", ""][1..] == ["", ""];
    assert ["", ""][1..] == [""];
  }

  /** The value found in a rewritten head: the start line is asked first, then what was added, then the survivors. */
  lemma RewrittenValue(head: Bytes, added: seq<Bytes>, dropped: set<Bytes>, name: Bytes)
    requires HeaderLines(head) != []
    ensures HeaderValue(Rewrite(head, added, dropped), name)
         == if ValueIn([HeaderLines(head)[0]], name).Some? then ValueIn([HeaderLines(head)[0]], name)
            else if ValueIn(SplitAll(added), name).Some? then ValueIn(SplitAll(added), name)
            else if ValueIn(Surviving(HeaderLines(head)[1..], dropped), name).Some?
            then ValueIn(Surviving(HeaderLines(head)[1..], dropped), name)
            else ValueIn([CLOSE], name)
  {
    hide *;
    var start, fields := [HeaderLines(head)[0]], Surviving(HeaderLines(head)[1..], dropped);
    var out := Rewrite(head, added, dropped);
    RewrittenHeaderLines(head, added, dropped);
    ValueInLines(out, name);
    ValueInLines(head, name);
    ValueInAppend(start + NonEmpty(SplitAll(added)) + fields, [CLOSE], name);
    ValueInAppend(start + NonEmpty(SplitAll(added)), fields, name);
    ValueInAppend(start, NonEmpty(SplitAll(added)), name);
    ValueInNonEmpty(SplitAll(added), name);
  }

  lemma ValueInLines(head: Bytes, name: Bytes)
    ensures HeaderValue(head, name) == ValueIn(HeaderLines(head), name)
  {
    hide Split, ValueIn, NonEmpty;
    ValueInNonEmpty(Split(head), name);
  }

  predicate Harmless(added: seq<Bytes>, dropped: set<Bytes>) {
    Surviving(SplitAll(added), dropped) == []
  }

  /** Every field whose name is not dropped reads the same after the rewrite. */
  lemma ValuesSurvive(head: Bytes, added: seq<Bytes>, dropped: set<Bytes>, name: Bytes)
    requires "connection" in dropped && Harmless(added, dropped)
    requires name !in dropped
    ensures HeaderValue(Rewrite(head, added, dropped), name) == HeaderValue(head, name)
  {
    hide *;
    HarmlessMeans(added, dropped);
    if HeaderLines(head) == [] {
      RewriteNothing(head, added, dropped);
    } else {
      var start, rest := [HeaderLines(head)[0]], HeaderLines(head)[1..];
      RewrittenValue(head, added, dropped, name);
      ValueInSurviving(SplitAll(added), dropped, name);
      ValueInNone(name);
      ValueInSurviving(rest, dropped, name);
      CloseLine();
      ValueInOne(CLOSE, name);
      ValueInLines(head, name);
      assert HeaderLines(head) == start + rest;
      ValueInAppend(start, rest, name);
    }
  }

  lemma ValueInNone(name: Bytes)
    ensures ValueIn([], name) == None
  {}

  lemma ValueInOne(line: Bytes, name: Bytes)
    ensures HeaderName(line) != Some(name) ==> ValueIn([line], name) == None
    ensures HeaderName(line) == Some(name) ==> ValueIn([line], name) == Some(FieldValue(line))
  {
    hide Strip, Lower;
    ValueInNone(name);
    assert [line][1..] == [];
  }

  /** The surviving fields keep their order, and nothing joins them, exactly when the added lines carry no surviving
      field. */
  lemma OrderSurvivesIff(head: Bytes, added: seq<Bytes>, dropped: set<Bytes>)
    requires HeaderLines(head) != [] && "connection" in dropped
    ensures HeaderLines(Rewrite(head, added, dropped)) != []
    ensures Surviving(HeaderLines(Rewrite(head, added, dropped))[1..], dropped)
         == Surviving(SplitAll(added), dropped) + Surviving(HeaderLines(head)[1..], dropped)
    ensures Harmless(added, dropped) <==>
            Surviving(HeaderLines(Rewrite(head, added, dropped))[1..], dropped)
              == Surviving(HeaderLines(head)[1..], dropped)
  {
    hide Split, SplitAll, NonEmpty, Surviving, Survives, HeaderName, HeaderLines, Rewrite;
    var start, fields := HeaderLines(head)[0], Surviving(HeaderLines(head)[1..], dropped);
    var injected := NonEmpty(SplitAll(added));
    RewrittenHeaderLines(head, added, dropped);
    assert ([start] + injected + fields + [CLOSE])[1..] == injected + fields + [CLOSE];
    SurvivingAppend(injected + fields, [CLOSE], dropped);
    SurvivingAppend(injected, fields, dropped);
    SurvivingNonEmpty(SplitAll(added), dropped);
    SurvivingTwice(HeaderLines(head)[1..], dropped);
    CloseDropped(dropped);
    assert |Surviving(SplitAll(added), dropped) + fields| == |Surviving(SplitAll(added), dropped)| + |fields|;
  }

  lemma CloseDropped(dropped: set<Bytes>)
    requires "connection" in dropped
    ensures Surviving([CLOSE], dropped) == []
  {
    CloseLine();
    DroppedOne(CLOSE, dropped);
  }

  lemma DroppedOne(line: Bytes, dropped: set<Bytes>)
    requires !Survives(line, dropped)
    ensures Surviving([line], dropped) == []
  {
    hide HeaderName;
    assert [line][1..] == [];
  }

  lemma {:induction false} JoinLength(lines: seq<Bytes>)
    requires lines != []
    ensures |Join(lines)| == Total(lines) + 2 * |lines| - 2
  {
    if |lines| == 1 {
      assert lines[1..] == [];
    } else {
      JoinLength(lines[1..]);
    }
  }

  function Total(lines: seq<Bytes>): nat {
    if lines == [] then 0 else |lines[0]| + Total(lines[1..])
  }

  lemma {:induction false} TotalAppend(a: seq<Bytes>, b: seq<Bytes>)
    ensures Total(a + b) == Total(a) + Total(b)
  {
    if a == [] {
      assert a + b == b;
    } else {
      assert (a + b)[1..] == a[1..] + b;
      TotalAppend(a[1..], b);
    }
  }

  /** Rewriting twice equals rewriting once exactly when the head has no line or the added lines carry no surviving
      field. */
  lemma IdempotentIff(head: Bytes, added: seq<Bytes>, dropped: set<Bytes>)
    requires "connection" in dropped
    ensures var once := Rewrite(head, added, dropped);
            Rewrite(once, added, dropped) == once <==> HeaderLines(head) == [] || Harmless(added, dropped)
  {
    hide *;
    if HeaderLines(head) == [] {
      RewriteNothing(head, added, dropped);
    } else {
      var once := Rewrite(head, added, dropped);
      var start, fields := HeaderLines(head)[0], Surviving(HeaderLines(head)[1..], dropped);
      var more := Surviving(SplitAll(added), dropped);
      RewriteUnfolds(head, added, dropped);
      OrderSurvivesIff(head, added, dropped);
      RewrittenHeaderLines(head, added, dropped);
      assert HeaderLines(once)[0] == start;
      RewriteUnfolds(once, added, dropped);
      assert Rewrite(once, added, dropped) == Join([start] + added + (more + fields) + [CLOSE]) + DELIMITER;
      HarmlessMeans(added, dropped);
      if more == [] {
        assert more + fields == fields;
      } else {
        JoinLonger([start] + added, more, fields + [CLOSE]);
        assert [start] + added + (more + fields) + [CLOSE] == [start] + added + more + (fields + [CLOSE]);
        assert [start] + added + fields + [CLOSE] == [start] + added + (fields + [CLOSE]);
      }
    }
  }

  lemma HarmlessMeans(added: seq<Bytes>, dropped: set<Bytes>)
    ensures Harmless(added, dropped) <==> Surviving(SplitAll(added), dropped) == []
  {}

  lemma JoinLonger(a: seq<Bytes>, b: seq<Bytes>, c: seq<Bytes>)
    requires a != [] && b != []
    ensures |Join(a + b + c)| > |Join(a + c)|
  {
    hide Join, Total;
    JoinLength(a + b + c);
    JoinLength(a + c);
    TotalAppend(a + b, c);
    TotalAppend(a, b);
    TotalAppend(a, c);
  }

  lemma RewriteNothing(head: Bytes, added: seq<Bytes>, dropped: set<Bytes>)
    requires HeaderLines(head) == []
    ensures Rewrite(head, added, dropped) == head
  {}

  // ---- Framing ----

  /** `s` ends at its first empty line: the shape of a complete head. */
  predicate Framed(s: Bytes) {
    Find(s, DELIMITER) == Some(|s| - 4)
  }

  lemma AtDelimiter(s: Bytes, i: int)
    ensures At(s, i, DELIMITER) <==> At(s, i, CRLF) && At(s, i + 2, CRLF)
  {
    AtCrlf(s, i);
    AtCrlf(s, i + 2);
    if 0 <= i <= |s| - 4 {
      assert s[i..i + 4] == [s[i], s[i + 1], s[i + 2], s[i + 3]];
    }
  }

  /** Non-empty lines, joined and ended by an empty one, are framed. */
  lemma {:induction false} JoinFramed(lines: seq<Bytes>)
    requires lines != [] && forall line :: line in lines ==> line != "" && Clean(line)
    ensures Framed(Join(lines) + DELIMITER)
  {
    hide *;
    var a, s := lines[0], Join(lines) + DELIMITER;
    assert a in lines;
    TwoCrlf();
    JoinUnfolds(lines);
    if |lines| == 1 {
      assert s == a + CRLF + CRLF;
      FrameLine(a, CRLF);
    } else {
      var t := Join(lines[1..]) + DELIMITER;
      assert forall line :: line in lines[1..] ==> line in lines;
      JoinFramed(lines[1..]);
      assert s == a + CRLF + t;
      assert lines[1] in lines;
      JoinUnfolds(lines[1..]);
      StartsWithLine(lines[1], if |lines| == 2 then CRLF else Join(lines[2..]) + DELIMITER);
      assert t == lines[1] + CRLF + (if |lines| == 2 then CRLF else Join(lines[2..]) + DELIMITER) by {
        assert lines[1..][1..] == lines[2..];
      }
      FrameMore(a, t);
    }
  }

  lemma JoinUnfolds(lines: seq<Bytes>)
    requires lines != []
    ensures Join(lines) == if |lines| == 1 then lines[0] else lines[0] + CRLF + Join(lines[1..])
  {}

  lemma StartsWithLine(a: Bytes, b: Bytes)
    requires a != "" && Clean(a)
    ensures !At(a + CRLF + b, 0, CRLF)
  {
    hide At;
    FirstCrlf(a, b);
  }

  lemma FrameLine(a: Bytes, b: Bytes)
    requires a != "" && Clean(a) && b == CRLF
    ensures Framed(a + CRLF + b)
  {
    hide At, Find;
    var s := a + CRLF + b;
    FirstCrlf(a, b);
    FirstMeans(s, |a|);
    forall j | 0 <= j < |a| ensures !At(s, j, DELIMITER) {
      AtDelimiter(s, j);
    }
    AtDelimiter(s, |a|);
    AtCrlf(s, |a| + 2);
    FirstAt(s, |a|, DELIMITER);
  }

  lemma FirstMeans(s: Bytes, i: nat)
    requires Find(s, CRLF) == Some(i)
    ensures At(s, i, CRLF) && forall j :: 0 <= j < i ==> !At(s, j, CRLF)
  {
    hide At;
  }

  lemma FrameMore(a: Bytes, t: Bytes)
    requires Clean(a) && Framed(t) && !At(t, 0, CRLF)
    ensures Framed(a + CRLF + t)
  {
    hide At, Find;
    var s, n := a + CRLF + t, |a| + 2;
    FirstCrlf(a, t);
    FirstMeans(s, |a|);
    FramedMeans(t);
    forall j | 0 <= j < |s| - 4 ensures !At(s, j, DELIMITER) {
      AtDelimiter(s, j);
      if j == |a| {
        Shifted(a, t, 0);
      } else if j == |a| + 1 {
        AtCrlf(s, j);
      } else if j >= n {
        Shifted(a, t, j - n);
        Shifted(a, t, j - n + 2);
        AtDelimiter(t, j - n);
      }
    }
    Shifted(a, t, |t| - 4);
    Shifted(a, t, |t| - 2);
    AtDelimiter(t, |t| - 4);
    AtDelimiter(s, |s| - 4);
    FirstAt(s, |s| - 4, DELIMITER);
  }

  lemma FramedMeans(t: Bytes)
    requires Framed(t)
    ensures |t| >= 4 && At(t, |t| - 4, DELIMITER) && forall j :: 0 <= j < |t| - 4 ==> !At(t, j, DELIMITER)
  {
    hide At;
  }

  lemma Shifted(a: Bytes, t: Bytes, i: nat)
    ensures At(a + CRLF + t, |a| + 2 + i, CRLF) <==> At(t, i, CRLF)
  {
    AtCrlf(a + CRLF + t, |a| + 2 + i);
    AtCrlf(t, i);
  }

  /** A rewritten head with a start line ends at its first empty line, whatever the input looked like. */
  lemma RewrittenIsFramed(head: Bytes, added: seq<Bytes>, dropped: set<Bytes>)
    requires HeaderLines(head) != []
    requires forall line :: line in added ==> line != "" && Clean(line)
    ensures Framed(Rewrite(head, added, dropped))
  {
    hide *;
    RewriteUnfolds(head, added, dropped);
    KeptLinesAreClean(head, dropped);
    CloseLine();
    assert HeaderLines(head)[0] in HeaderLines(head);
    JoinFramed([HeaderLines(head)[0]] + added + Surviving(HeaderLines(head)[1..], dropped) + [CLOSE]);
  }

  // ---- Requests and responses ----

  lemma LowerHost()
    ensures Lower("Host") == "host"
  {}

  lemma DecimalClean(n: int)
    ensures '\r' !in Decimal(n) && Decimal(n) != ""
  {}

  lemma HostLineMeans(host: Bytes, port: int)
    ensures HeaderName(HostLine(host, port)) == Some("host")
    ensures FieldValue(HostLine(host, port)) == Strip(host + ":" + Decimal(port))
  {
    hide Lower, Strip, Colon, Decimal;
    var line := HostLine(host, port);
    ColonIs(line, 4);
    assert line[..4] == "Host";
    StripNothing("Host");
    LowerHost();
    assert line[5..] == " " + (host + ":" + Decimal(port));
    StripSpace(host + ":" + Decimal(port));
  }

  lemma StripSpace(s: Bytes)
    ensures Strip(" " + s) == Strip(s)
  {
    assert (" " + s)[1..] == s;
  }

  lemma HostLineClean(host: Bytes, port: int)
    requires Clean(host)
    ensures HostLine(host, port) != "" && Clean(HostLine(host, port))
  {
    hide Find, Decimal;
    var line := HostLine(host, port);
    DecimalClean(port);
    assert forall i :: 0 <= i < 6 ==> line[i] != '\r';
    assert forall i :: 0 <= i < |host| ==> line[i + 6] == host[i];
    assert line[6 + |host|] == ':';
    assert forall i :: 0 <= i < |Decimal(port)| ==> line[7 + |host| + i] == Decimal(port)[i];
    NoneAt(host);
    forall i ensures !At(line, i, CRLF) {
      AtCrlf(line, i);
      AtCrlf(host, i - 6);
      if 7 + |host| <= i < |line| {
        assert line[i] == Decimal(port)[i - 7 - |host|];
      }
    }
    NoneAtClean(line);
  }

  lemma NoneAt(s: Bytes)
    requires Clean(s)
    ensures forall i :: !At(s, i, CRLF)
  {
    hide At;
  }

  lemma NoneAtClean(s: Bytes)
    requires forall i :: !At(s, i, CRLF)
    ensures Clean(s)
  {
    hide At;
  }

  lemma HostIsHarmless(host: Bytes, port: int)
    requires Clean(host)
    ensures SplitAll([HostLine(host, port)]) == [HostLine(host, port)]
    ensures Harmless([HostLine(host, port)], REQUEST_DROPPED)
  {
    hide *;
    HarmlessMeans([HostLine(host, port)], REQUEST_DROPPED);
    HostLineClean(host, port);
    HostLineMeans(host, port);
    SplitAllClean([HostLine(host, port)]);
    HostDropped();
    SurvivingOne(HostLine(host, port), REQUEST_DROPPED);
  }

  lemma HostDropped()
    ensures "host" in REQUEST_DROPPED && "connection" in REQUEST_DROPPED && "connection" in RESPONSE_HOP_BY_HOP
  {
    assert "connection" in HOP_BY_HOP;
  }

  lemma SurvivingOne(line: Bytes, dropped: set<Bytes>)
    ensures Survives(line, dropped) <==> HeaderName(line).Some? && HeaderName(line).value !in dropped
    ensures Surviving([line], dropped) == if Survives(line, dropped) then [line] else []
  {
    hide HeaderName;
    assert [line][1..] == [];
  }

  /** A request field outside the host and hop-by-hop names keeps its value. */
  lemma RequestKeepsValues(head: Bytes, host: Bytes, port: int, name: Bytes)
    requires Clean(host) && name !in REQUEST_DROPPED
    ensures HeaderValue(RewriteRequest(head, host, port), name) == HeaderValue(head, name)
  {
    hide HeaderValue, Rewrite, Harmless, Clean, HostLine;
    HostIsHarmless(host, port);
    HostDropped();
    ValuesSurvive(head, [HostLine(host, port)], REQUEST_DROPPED, name);
  }

  lemma NothingIsHarmless(dropped: set<Bytes>)
    ensures Harmless([], dropped)
  {}

  /** A response field outside the hop-by-hop names, Transfer-Encoding included, keeps its value. */
  lemma ResponseKeepsValues(head: Bytes, name: Bytes)
    requires name !in RESPONSE_HOP_BY_HOP
    ensures HeaderValue(RewriteResponse(head), name) == HeaderValue(head, name)
  {
    hide HeaderValue, Rewrite, Harmless;
    NothingIsHarmless(RESPONSE_HOP_BY_HOP);
    HostDropped();
    ValuesSurvive(head, [], RESPONSE_HOP_BY_HOP, name);
  }

  /** A field found among survivors is not a dropped one. */
  lemma {:induction false} DroppedIsAbsent(lines: seq<Bytes>, dropped: set<Bytes>, name: Bytes)
    requires name in dropped
    ensures ValueIn(Surviving(lines, dropped), name) == None
  {
    hide HeaderName, FieldValue;
    if lines != [] {
      DroppedIsAbsent(lines[1..], dropped, name);
      if Survives(lines[0], dropped) {
        assert ([lines[0]] + Surviving(lines[1..], dropped))[1..] == Surviving(lines[1..], dropped);
      }
    }
  }

  /** What the receiver reads for the dropped names when the start line is not itself shaped like one of them: the
      upstream as host, a closing connection and nothing else. */
  lemma RequestDroppedValues(head: Bytes, host: Bytes, port: int, name: Bytes)
    requires HeaderLines(head) != [] && Clean(host)
    requires name in REQUEST_DROPPED && HeaderName(HeaderLines(head)[0]) != Some(name)
    ensures HeaderValue(RewriteRequest(head, host, port), name)
         == if name == "host" then Some(Strip(host + ":" + Decimal(port)))
            else if name == "connection" then Some("close")
            else None
  {
    hide *;
    var line := HostLine(host, port);
    RequestUnfolds(head, host, port);
    RewrittenValue(head, [line], REQUEST_DROPPED, name);
    HostIsHarmless(host, port);
    HostLineMeans(host, port);
    ValueInOne(HeaderLines(head)[0], name);
    ValueInOne(line, name);
    ValueInOne(CLOSE, name);
    DroppedIsAbsent(HeaderLines(head)[1..], REQUEST_DROPPED, name);
    CloseLine();
    CloseValue();
  }

  lemma RequestUnfolds(head: Bytes, host: Bytes, port: int)
    ensures RewriteRequest(head, host, port) == Rewrite(head, [HostLine(host, port)], REQUEST_DROPPED)
  {}

  lemma CloseValue()
    ensures Colon(CLOSE) < |CLOSE| && FieldValue(CLOSE) == "close"
  {
    hide Colon, Strip;
    ColonIs(CLOSE, 10);
    assert CLOSE[11..] == " " + "close";
    StripSpace("close");
    StripNothing("close");
  }

  /** The same for a response: every hop-by-hop name but Transfer-Encoding is gone, and the connection closes. */
  lemma ResponseDroppedValues(head: Bytes, name: Bytes)
    requires HeaderLines(head) != []
    requires name in RESPONSE_HOP_BY_HOP && HeaderName(HeaderLines(head)[0]) != Some(name)
    ensures HeaderValue(RewriteResponse(head), name) == if name == "connection" then Some("close") else None
  {
    hide *;
    ResponseUnfolds(head);
    RewrittenValue(head, [], RESPONSE_HOP_BY_HOP, name);
    SplitAllClean([]);
    ValueInNone(name);
    ValueInOne(HeaderLines(head)[0], name);
    ValueInOne(CLOSE, name);
    DroppedIsAbsent(HeaderLines(head)[1..], RESPONSE_HOP_BY_HOP, name);
    CloseLine();
    CloseValue();
  }

  lemma ResponseUnfolds(head: Bytes)
    ensures RewriteResponse(head) == Rewrite(head, [], RESPONSE_HOP_BY_HOP)
  {}

  /** Rewritten messages are framed: their only empty line is the last one. A head without any line passes unchanged, so
      a framed head stays framed in every case. */
  lemma RequestFramed(head: Bytes, host: Bytes, port: int)
    requires Clean(host)
    ensures HeaderLines(head) != [] || Framed(head) ==> Framed(RewriteRequest(head, host, port))
  {
    hide HeaderLines, Rewrite, Framed, Clean, HostLine;
    HostLineClean(host, port);
    if HeaderLines(head) == [] {
      RewriteNothing(head, [HostLine(host, port)], REQUEST_DROPPED);
    } else {
      RewrittenIsFramed(head, [HostLine(host, port)], REQUEST_DROPPED);
    }
  }

  lemma ResponseFramed(head: Bytes)
    ensures HeaderLines(head) != [] || Framed(head) ==> Framed(RewriteResponse(head))
  {
    hide HeaderLines, Rewrite, Framed, Clean;
    if HeaderLines(head) == [] {
      RewriteNothing(head, [], RESPONSE_HOP_BY_HOP);
    } else {
      RewrittenIsFramed(head, [], RESPONSE_HOP_BY_HOP);
    }
  }

  /** A request rewritten twice equals one rewritten once exactly when the upstream host brings in no field of its own:
      no line of the host line after its first one names a surviving field. */
  lemma RequestIdempotentIff(head: Bytes, host: Bytes, port: int)
    ensures var once := RewriteRequest(head, host, port);
            RewriteRequest(once, host, port) == once
            <==> HeaderLines(head) == [] || Surviving(Split(HostLine(host, port)), REQUEST_DROPPED) == []
  {
    hide *;
    var line := HostLine(host, port);
    RequestUnfolds(head, host, port);
    RequestUnfolds(RewriteRequest(head, host, port), host, port);
    HostDropped();
    IdempotentIff(head, [line], REQUEST_DROPPED);
    HarmlessMeans([line], REQUEST_DROPPED);
    SplitAllOne(line);
  }

  lemma SplitAllOne(text: Bytes)
    ensures SplitAll([text]) == Split(text)
  {
    hide Split;
    assert [text][1..] == [];
    assert SplitAll([]) == [];
  }

  lemma RequestIdempotent(head: Bytes, host: Bytes, port: int)
    requires Clean(host)
    ensures var once := RewriteRequest(head, host, port); RewriteRequest(once, host, port) == once
  {
    hide *;
    RequestIdempotentIff(head, host, port);
    HostIsHarmless(host, port);
    HarmlessMeans([HostLine(host, port)], REQUEST_DROPPED);
    SplitAllOne(HostLine(host, port));
  }

  lemma ResponseIdempotent(head: Bytes)
    ensures RewriteResponse(RewriteResponse(head)) == RewriteResponse(head)
  {
    hide *;
    ResponseUnfolds(head);
    ResponseUnfolds(RewriteResponse(head));
    HostDropped();
    NothingIsHarmless(RESPONSE_HOP_BY_HOP);
    IdempotentIff(head, [], RESPONSE_HOP_BY_HOP);
  }

  /** The surviving fields of a request, in order, are those of the request it was made from. */
  lemma RequestKeepsOrder(head: Bytes, host: Bytes, port: int)
    requires HeaderLines(head) != [] && Clean(host)
    ensures var out := RewriteRequest(head, host, port);
            HeaderLines(out) == [HeaderLines(head)[0], HostLine(host, port)]
                                + Surviving(HeaderLines(head)[1..], REQUEST_DROPPED) + [CLOSE]
    ensures var out := RewriteRequest(head, host, port);
            Surviving(HeaderLines(out)[1..], REQUEST_DROPPED) == Surviving(HeaderLines(head)[1..], REQUEST_DROPPED)
  {
    hide *;
    var line := HostLine(host, port);
    RequestUnfolds(head, host, port);
    HostDropped();
    HostIsHarmless(host, port);
    HostLineClean(host, port);
    NonEmptyAlready([line]);
    RewrittenHeaderLines(head, [line], REQUEST_DROPPED);
    OrderSurvivesIff(head, [line], REQUEST_DROPPED);
    assert [HeaderLines(head)[0]] + [line] == [HeaderLines(head)[0], line];
  }

  lemma ResponseKeepsOrder(head: Bytes)
    requires HeaderLines(head) != []
    ensures HeaderLines(RewriteResponse(head))
         == [HeaderLines(head)[0]] + Surviving(HeaderLines(head)[1..], RESPONSE_HOP_BY_HOP) + [CLOSE]
  {
    hide *;
    ResponseUnfolds(head);
    SplitAllClean([]);
    NonEmptyAlready([]);
    RewrittenHeaderLines(head, [], RESPONSE_HOP_BY_HOP);
    assert [HeaderLines(head)[0]] + [] == [HeaderLines(head)[0]];
  }

  // ---- The loops ----

  lemma SurvivingSnoc(lines: seq<Bytes>, i: nat, dropped: set<Bytes>)
    requires i < |lines|
    ensures Surviving(lines[..i + 1], dropped)
         == Surviving(lines[..i], dropped) + if Survives(lines[i], dropped) then [lines[i]] else []
  {
    hide Survives;
    assert lines[..i + 1] == lines[..i] + [lines[i]];
    SurvivingAppend(lines[..i], [lines[i]], dropped);
    assert [lines[i]][1..] == [];
  }

  method RewriteRequestHeaders(head: Bytes, host: Bytes, port: int) returns (out: Bytes)
    ensures out == RewriteRequest(head, host, port)
  {
    hide HeaderName, HeaderLines, HostLine, Join;
    var lines := HeaderLines(head);
    if lines == [] {
      return head;
    }
    var rewritten := [lines[0], HostLine(host, port)];
    var rest := lines[1..];
    for i := 0 to |rest|
      invariant rewritten == [lines[0]] + [HostLine(host, port)] + Surviving(rest[..i], REQUEST_DROPPED)
    {
      SurvivingSnoc(rest, i, REQUEST_DROPPED);
      var name := HeaderName(rest[i]);
      if name.None? || name.value in HOP_BY_HOP || name.value == "host" {
        continue;
      }
      rewritten := rewritten + [rest[i]];
    }
    assert rest[..|rest|] == rest;
    rewritten := rewritten + [CLOSE];
    out := Join(rewritten) + DELIMITER;
  }

  method RewriteResponseHeaders(head: Bytes) returns (out: Bytes)
    ensures out == RewriteResponse(head)
  {
    hide HeaderName, HeaderLines, Join;
    var lines := HeaderLines(head);
    if lines == [] {
      return head;
    }
    var rewritten := [lines[0]];
    var rest := lines[1..];
    for i := 0 to |rest|
      invariant rewritten == [lines[0]] + Surviving(rest[..i], RESPONSE_HOP_BY_HOP)
    {
      SurvivingSnoc(rest, i, RESPONSE_HOP_BY_HOP);
      var name := HeaderName(rest[i]);
      if name.None? || name.value in RESPONSE_HOP_BY_HOP {
        continue;
      }
      rewritten := rewritten + [rest[i]];
    }
    assert rest[..|rest|] == rest;
    assert [lines[0]] + [] == [lines[0]];
    rewritten := rewritten + [CLOSE];
    out := Join(rewritten) + DELIMITER;
  }

  /** `_header_value`, with its search loop. */
  method SearchHeaderValue(head: Bytes, name: Bytes) returns (value: Option<Bytes>)
    ensures value == HeaderValue(head, name)
  {
    hide Lower, Strip, FieldValue, Split;
    var lines := Split(head);
    for i := 0 to |lines|
      invariant ValueIn(lines, name) == ValueIn(lines[i..], name)
    {
      var headerName := HeaderName(lines[i]);
      assert lines[i..][1..] == lines[i + 1..];
      if headerName == Some(name) {
        return Some(FieldValue(lines[i]));
      }
    }
    return None;
  }
}
