/** Header fields and numbers character by character: what the parsing and rewriting of heads mean in the bytes. */
module HeaderFields {
  import opened Wrappers
  import opened Selections
  import opened Headers

  // ---- Trimming and lower case ----

  /** Blank, tab, line feed, vertical tab, form feed and carriage return. */
  predicate White(c: char) {
    c as int == 32 || 9 <= c as int <= 13
  }

  /** `t` is `s` without the white space around it. */
  ghost predicate Trimmed(s: Bytes, t: Bytes) {
    exists a: nat, b: nat :: TrimmedAt(s, t, a, b)
  }

  ghost predicate TrimmedAt(s: Bytes, t: Bytes, a: nat, b: nat) {
    && a <= b <= |s| && t == s[a..b]
    && (forall i :: 0 <= i < a || b <= i < |s| ==> White(s[i]))
    && (a < b ==> !White(s[a]) && !White(s[b - 1]))
  }

  lemma {:induction false} LeftMeans(s: Bytes) returns (a: nat)
    ensures a <= |s| && StripLeft(s) == s[a..] && (forall i :: 0 <= i < a ==> White(s[i]))
    ensures a < |s| ==> !White(s[a])
  {
    if s != "" && IsSpace(s[0]) {
      var rest := LeftMeans(s[1..]);
      a := rest + 1;
      assert s[1..][rest..] == s[a..];
      forall i | 0 <= i < a ensures White(s[i]) {
        assert i > 0 ==> s[1..][i - 1] == s[i];
      }
    } else {
      a := 0;
    }
  }

  lemma {:induction false} RightMeans(s: Bytes) returns (b: nat)
    ensures b <= |s| && StripRight(s) == s[..b] && (forall i :: b <= i < |s| ==> White(s[i]))
    ensures b > 0 ==> !White(s[b - 1])
    decreases |s|
  {
    if s != "" && IsSpace(s[|s| - 1]) {
      b := RightMeans(s[..|s| - 1]);
    } else {
      b := |s|;
    }
  }

  lemma StripMeans(s: Bytes)
    ensures Trimmed(s, Strip(s))
  {
    var a := LeftMeans(s);
    var left := StripLeft(s);
    var b := RightMeans(left);
    forall i | a + b <= i < |s| ensures White(s[i]) {
      assert left[i - a] == s[i];
    }
    assert b > 0 ==> left[b - 1] == s[a + b - 1];
    assert TrimmedAt(s, Strip(s), a, a + b);
  }

  /** There is only one way to trim, but for where an empty result lies. */
  lemma TrimmedOnce(s: Bytes, t: Bytes, u: Bytes)
    requires Trimmed(s, t) && Trimmed(s, u)
    ensures t == u
  {
    var a: nat, b: nat :| TrimmedAt(s, t, a, b);
    var c: nat, d: nat :| TrimmedAt(s, u, c, d);
    if a < b {
      assert !White(s[a]) && !White(s[b - 1]);
    }
    if c < d {
      assert !White(s[c]) && !White(s[d - 1]);
    }
  }

  /** `name` is `s` with its capital letters, and nothing else, made small. */
  ghost predicate Lowered(s: Bytes, name: Bytes) {
    && |name| == |s|
    && forall i :: 0 <= i < |s| ==>
         name[i] as int == s[i] as int + if 65 <= s[i] as int <= 90 then 32 else 0
  }

  lemma LowerMeans(s: Bytes)
    ensures Lowered(s, Lower(s))
  {}

  // ---- The name and the value of a field ----

  /** The line has a colon, and up to its first one, trimmed and in small letters, it is `name`. */
  ghost predicate HasName(line: Bytes, name: Bytes) {
    exists c: nat, t: Bytes :: ColonAt(line, c) && Trimmed(line[..c], t) && Lowered(t, name)
  }

  ghost predicate ColonAt(line: Bytes, c: nat) {
    c < |line| && line[c] == ':' && ':' !in line[..c]
  }

  /** What follows its first colon is `value`, trimmed. */
  ghost predicate HasValue(line: Bytes, value: Bytes) {
    exists c: nat :: ColonAt(line, c) && Trimmed(line[c + 1..], value)
  }

  lemma ColonMeans(line: Bytes)
    ensures Colon(line) < |line| <==> ':' in line
    ensures Colon(line) < |line| ==> ColonAt(line, Colon(line))
    ensures forall c: nat :: ColonAt(line, c) ==> c == Colon(line)
  {
    var k := Colon(line);
    if ':' in line {
      var i :| 0 <= i < |line| && line[i] == ':';
    }
    forall c: nat | ColonAt(line, c) ensures c == k {
      InPrefix(line, k, c);
    }
  }

  lemma InPrefix(line: Bytes, k: nat, c: nat)
    ensures k < c <= |line| ==> line[k] in line[..c]
  {
    if k < c <= |line| {
      assert line[..c][k] == line[k];
    }
  }

  lemma NameMeans(line: Bytes, name: Bytes)
    ensures HeaderName(line) == Some(name) <==> HasName(line, name)
    ensures HeaderName(line).None? <==> ':' !in line
  {
    hide Colon, Lower, Strip, Trimmed, Lowered;
    ColonMeans(line);
    var k := Colon(line);
    if k < |line| {
      var t := Strip(line[..k]);
      StripMeans(line[..k]);
      LowerMeans(t);
      if HasName(line, name) {
        var c: nat, u: Bytes :| ColonAt(line, c) && Trimmed(line[..c], u) && Lowered(u, name);
        TrimmedOnce(line[..k], t, u);
        LoweredOnce(t, name, Lower(t));
      }
    }
  }

  lemma LoweredOnce(s: Bytes, a: Bytes, b: Bytes)
    requires Lowered(s, a) && Lowered(s, b)
    ensures a == b
  {
    forall i | 0 <= i < |a| ensures a[i] == b[i] {
      assert a[i] as int == b[i] as int;
    }
  }

  /** A lookup finds the first line of that name, and what follows its colon; or there is no such line. */
  lemma {:induction false} LookupMeans(lines: seq<Bytes>, name: Bytes)
    ensures match ValueIn(lines, name)
            case None => forall i :: 0 <= i < |lines| ==> !HasName(lines[i], name)
            case Some(value) => exists k: nat :: FoundAt(lines, name, value, k)
  {
    hide HeaderName, HasName, HasValue, FieldValue;
    if lines != [] {
      NameMeans(lines[0], name);
      if HeaderName(lines[0]) == Some(name) {
        ValueMeans(lines[0]);
        var value := FieldValue(lines[0]);
        assert ValueIn(lines, name) == Some(value);
        assert FoundAt(lines, name, value, 0);
      } else {
        LookupMeans(lines[1..], name);
        match ValueIn(lines[1..], name)
        case None =>
          forall i | 0 <= i < |lines| ensures !HasName(lines[i], name) {
            assert i > 0 ==> lines[1..][i - 1] == lines[i];
          }
        case Some(value) =>
          var k: nat :| FoundAt(lines[1..], name, value, k);
          FoundLater(lines, name, value, k);
          assert ValueIn(lines, name) == Some(value);
      }
    }
  }

  lemma FoundLater(lines: seq<Bytes>, name: Bytes, value: Bytes, k: nat)
    requires lines != [] && !HasName(lines[0], name) && FoundAt(lines[1..], name, value, k)
    ensures FoundAt(lines, name, value, k + 1)
  {
    hide HasName, HasValue;
    assert lines[1..][k] == lines[k + 1];
    forall i | 0 <= i < k + 1 ensures !HasName(lines[i], name) {
      assert i > 0 ==> lines[1..][i - 1] == lines[i];
    }
  }

  ghost predicate FoundAt(lines: seq<Bytes>, name: Bytes, value: Bytes, k: nat) {
    && k < |lines| && HasName(lines[k], name) && HasValue(lines[k], value)
    && forall i :: 0 <= i < k ==> !HasName(lines[i], name)
  }

  lemma ValueMeans(line: Bytes)
    requires HeaderName(line).Some?
    ensures Colon(line) < |line| && HasValue(line, FieldValue(line))
  {
    hide Strip, Trimmed;
    ColonMeans(line);
    StripMeans(line[Colon(line) + 1..]);
  }

  // ---- The lines of a rewritten head ----

  lemma {:induction false} NonEmptySelects(lines: seq<Bytes>)
    ensures Selects(lines, (line: Bytes) => line != "", (line: Bytes) => line, NonEmpty(lines))
  {
    if lines == [] {
      SelectsNothing((line: Bytes) => line != "", (line: Bytes) => line);
    } else {
      NonEmptySelects(lines[1..]);
      SelectsCons(lines, (line: Bytes) => line != "", (line: Bytes) => line, NonEmpty(lines[1..]));
    }
  }

  /** A field survives that has a name other than these. */
  ghost predicate Stays(line: Bytes, names: set<Bytes>) {
    exists name :: HasName(line, name) && name !in names
  }

  lemma StaysMeans(line: Bytes, names: set<Bytes>)
    ensures Survives(line, names) <==> Stays(line, names)
  {
    hide HeaderName, HasName;
    if Survives(line, names) {
      NameMeans(line, HeaderName(line).value);
    }
    if Stays(line, names) {
      var name :| HasName(line, name) && name !in names;
      NameMeans(line, name);
    }
  }

  lemma {:induction false} SurvivingSelects(lines: seq<Bytes>, names: set<Bytes>)
    ensures Selects(lines, (line: Bytes) => Stays(line, names), (line: Bytes) => line, Surviving(lines, names))
  {
    hide Survives, Stays;
    if lines == [] {
      SelectsNothing((line: Bytes) => Stays(line, names), (line: Bytes) => line);
    } else {
      StaysMeans(lines[0], names);
      SurvivingSelects(lines[1..], names);
      SelectsCons(lines, (line: Bytes) => Stays(line, names), (line: Bytes) => line, Surviving(lines[1..], names));
    }
  }

  /** The request that goes upstream, line by line: the start line, the host line, the fields with a name other than these,
      in their order, and the close line. */
  lemma RequestLines(head: Bytes, host: Bytes, port: int)
    requires HeaderLines(head) != [] && Clean(host)
    ensures exists fields ::
              && Selects(HeaderLines(head)[1..],
                         (line: Bytes) => Stays(line, {"connection", "keep-alive", "proxy-authenticate",
                           "proxy-authorization", "te", "trailer", "transfer-encoding", "upgrade", "host"}),
                         (line: Bytes) => line, fields)
              && HeaderLines(RewriteRequest(head, host, port))
                 == [HeaderLines(head)[0], "Host: " + host + ":" + Decimal(port)] + fields + ["Connection: close"]
  {
    hide HeaderLines, RewriteRequest, Surviving, Clean, Decimal, Stays;
    var names := {"connection", "keep-alive", "proxy-authenticate", "proxy-authorization", "te", "trailer",
                  "transfer-encoding", "upgrade", "host"};
    assert REQUEST_DROPPED == names;
    RequestKeepsOrder(head, host, port);
    SurvivingSelects(HeaderLines(head)[1..], names);
    assert "Host: " + host + ":" + Decimal(port) == HostLine(host, port);
  }

  /** The response that goes back; Transfer-Encoding stays. */
  lemma ResponseLines(head: Bytes)
    requires HeaderLines(head) != []
    ensures exists fields ::
              && Selects(HeaderLines(head)[1..],
                         (line: Bytes) => Stays(line, {"connection", "keep-alive", "proxy-authenticate",
                           "proxy-authorization", "te", "trailer", "upgrade"}),
                         (line: Bytes) => line, fields)
              && HeaderLines(RewriteResponse(head)) == [HeaderLines(head)[0]] + fields + ["Connection: close"]
  {
    hide HeaderLines, RewriteResponse, Surviving, Stays;
    var names := {"connection", "keep-alive", "proxy-authenticate", "proxy-authorization", "te", "trailer", "upgrade"};
    assert RESPONSE_HOP_BY_HOP == names;
    ResponseKeepsOrder(head);
    SurvivingSelects(HeaderLines(head)[1..], names);
  }

  // ---- Numbers in decimal notation ----

  predicate Digital(s: Bytes) {
    forall i :: 0 <= i < |s| ==> '0' <= s[i] <= '9'
  }

  predicate Numeral(s: Bytes) {
    s != "" && Digital(s)
  }

  function TenTo(n: nat): (p: nat)
    ensures p >= 1
  {
    if n == 0 then 1 else 10 * TenTo(n - 1)
  }

  /** The digits, each times ten to the power of the number of digits after it. */
  function PlaceValue(s: Bytes): nat
    requires Digital(s)
  {
    if s == "" then 0 else Times(s[0] as int - '0' as int, TenTo(|s| - 1)) + PlaceValue(s[1..])
  }

  function Times(d: nat, p: nat): (n: nat)
    ensures n == d * p
  {
    d * p
  }

  lemma DigitalSnoc(s: Bytes, c: char)
    ensures Digital(s + [c]) <==> Digital(s) && '0' <= c <= '9'
  {
    forall i | 0 <= i < |s| ensures (s + [c])[i] == s[i] {
    }
    assert (s + [c])[|s|] == c;
  }

  lemma DigitalTail(s: Bytes)
    requires s != ""
    ensures Digital(s) <==> '0' <= s[0] <= '9' && Digital(s[1..])
  {
    forall i | 1 <= i < |s| ensures s[1..][i - 1] == s[i] {
    }
    if '0' <= s[0] <= '9' && Digital(s[1..]) {
      forall i | 0 <= i < |s| ensures '0' <= s[i] <= '9' {
        assert i > 0 ==> s[1..][i - 1] == s[i];
      }
    }
  }

  lemma {:induction false} PlaceSnoc(s: Bytes, c: char)
    requires Digital(s) && Digital(s + [c]) && '0' <= c <= '9'
    ensures PlaceValue(s + [c]) == 10 * PlaceValue(s) + (c as int - '0' as int)
  {
    hide Digital, Times;
    if s == "" {
      LastPlace(s + [c]);
    } else {
      DigitalTail(s);
      DigitalSnoc(s[1..], c);
      assert (s + [c])[1..] == s[1..] + [c];
      PlaceSnoc(s[1..], c);
      TimesTen(s[0] as int - '0' as int, TenTo(|s| - 1));
      assert |s + [c]| - 1 == |s|;
    }
  }

  lemma LastPlace(s: Bytes)
    requires |s| == 1 && Digital(s)
    ensures PlaceValue(s) == s[0] as int - '0' as int
  {
    assert s[1..] == [];
  }

  lemma TimesTen(d: nat, p: nat)
    ensures Times(d, 10 * p) == 10 * Times(d, p)
  {}

  /** The decimal notation of a natural number is a numeral of that value and begins with zero only for zero; that of a
      negative one is that of its opposite behind a minus sign. */
  lemma {:induction false} DecimalMeans(n: int)
    ensures n >= 0 ==> Numeral(Decimal(n)) && PlaceValue(Decimal(n)) == n && (Decimal(n)[0] == '0' ==> n == 0)
    ensures n < 0 ==> Decimal(n) == "-" + Decimal(-n)
    decreases n < 0, if n < 0 then -n else n
  {
    if n >= 10 {
      DecimalMeans(n / 10);
      DigitalSnoc(Decimal(n / 10), Digit(n % 10));
      PlaceSnoc(Decimal(n / 10), Digit(n % 10));
    } else if n >= 0 {
      LastPlace([Digit(n)]);
    }
  }
}
