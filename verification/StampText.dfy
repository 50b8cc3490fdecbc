/** The text of the build stamp: what `json.dumps` writes for it, and what reading it back gives.
    A text cut short anywhere never reads back as a stamp. */
module StampText {
  import opened Options

  /** JSON strings are written and read one UTF-16 unit at a time. */
  type Unit = n: nat | n < 0x1_0000
  type Str = seq<Unit>

  datatype Stamp = Stamp(top: Str, rtlDir: Str, mtime: nat, trace: bool, devMode: bool)

  // ---- writing ----

  const HEX := "0123456789abcdef"

  function Escaped(u: Unit): (t: string)
    ensures |t| >= 1
  {
    if u == 0x22 then "\\\""
    else if u == 0x5C then "\\\\"
    else if u == 0x08 then "\\b"
    else if u == 0x0C then "\\f"
    else if u == 0x0A then "\\n"
    else if u == 0x0D then "\\r"
    else if u == 0x09 then "\\t"
    else if 0x20 <= u <= 0x7E then [u as char]
    else "\\u" + [HEX[u / 4096], HEX[u / 256 % 16], HEX[u / 16 % 16], HEX[u % 16]]
  }

  /** The string after its opening quote. */
  function StrTail(s: Str): string {
    if s == [] then "\"" else Escaped(s[0]) + StrTail(s[1..])
  }

  function Decimal(n: nat): (t: string)
    ensures |t| >= 1
  {
    if n < 10 then [HEX[n]] else Decimal(n / 10) + [HEX[n % 10]]
  }

  function BoolText(b: bool): string { if b then "true" else "false" }

  function FirstKey(): string { "\n  \"top\": \"" }
  function TopKey(): string { "{" + FirstKey() }
  function RtlDirKey(): string { ",\n  \"rtl_dir\": \"" }
  function MtimeKey(): string { ",\n  \"filelist_mtime_ns\": " }
  function TraceKey(): string { ",\n  \"trace\": " }
  function DevModeKey(): string { ",\n  \"dev_mode\": " }
  function Close(): string { "\n}" }

  function Dumps(s: Stamp): string {
    TopKey() + StrTail(s.top) + RtlDirKey() + StrTail(s.rtlDir) + MtimeKey() + Decimal(s.mtime)
    + TraceKey() + BoolText(s.trace) + DevModeKey() + BoolText(s.devMode) + Close()
  }

  function FileText(s: Stamp): string { Dumps(s) + "\n" }

  // ---- reading ----

  /** What was read and the text after it. */
  type Parsed<T> = Option<(T, string)>

  function SkipLit(lit: string, t: string): Option<string> {
    if lit <= t then Some(t[|lit|..]) else None
  }

  function HexValue(ch: char): Option<nat> {
    if '0' <= ch <= '9' then Some(ch as int - '0' as int)
    else if 'a' <= ch <= 'f' then Some(ch as int - 'a' as int + 10)
    else if 'A' <= ch <= 'F' then Some(ch as int - 'A' as int + 10)
    else None
  }

  /** One unit of a string, escaped or not. */
  function ReadUnit(t: string): (r: Parsed<Unit>)
    ensures r.Some? ==> |r.value.1| < |t|
  {
    if t == [] then None
    else if t[0] != '\\' then
      if ' ' <= t[0] && t[0] as int < 0x1_0000 then Some((t[0] as int, t[1..])) else None
    else if |t| < 2 then None
    else if t[1] == 'u' then
      if |t| < 6 then None
      else match (HexValue(t[2]), HexValue(t[3]), HexValue(t[4]), HexValue(t[5]))
        case (Some(a), Some(b), Some(c), Some(d)) =>
          var u := a * 4096 + b * 256 + c * 16 + d;
          if u < 0x1_0000 then Some((u, t[6..])) else None
        case _ => None
    else
      var u := match t[1]
        case '\"' => 0x22 case '\\' => 0x5C case '/' => 0x2F case 'b' => 0x08
        case 'f' => 0x0C case 'n' => 0x0A case 'r' => 0x0D case 't' => 0x09
        case _ => 0;
      if u == 0 then None else Some((u, t[2..]))
  }

  function ReadStr(t: string): (r: Parsed<Str>)
    decreases |t|
  {
    if t != [] && t[0] == '\"' then Some(([], t[1..]))
    else match ReadUnit(t)
      case None => None
      case Some((u, rest)) =>
        match ReadStr(rest)
        case None => None
        case Some((s, after)) => Some(([u] + s, after))
  }

  function IsDigit(ch: char): bool { '0' <= ch <= '9' }

  function ReadDigits(t: string, acc: nat): (nat, string) {
    if t != [] && IsDigit(t[0]) then ReadDigits(t[1..], acc * 10 + (t[0] as int - '0' as int)) else (acc, t)
  }

  function ReadNat(t: string): Parsed<nat> {
    if t != [] && IsDigit(t[0]) then Some(ReadDigits(t, 0)) else None
  }

  function ReadBool(t: string): Parsed<bool> {
    if "true" <= t then Some((true, t[4..])) else if "false" <= t then Some((false, t[5..])) else None
  }

  /** A literal, then what follows it. */
  function FieldStr(lit: string, t: string): Parsed<Str> {
    match SkipLit(lit, t) case None => None case Some(r) => ReadStr(r)
  }

  function FieldNat(lit: string, t: string): Parsed<nat> {
    match SkipLit(lit, t) case None => None case Some(r) => ReadNat(r)
  }

  function FieldBool(lit: string, t: string): Parsed<bool> {
    match SkipLit(lit, t) case None => None case Some(r) => ReadBool(r)
  }

  function ReadStamp(t: string): Parsed<Stamp> {
    match FieldStr(TopKey(), t) case None => None case Some((top, t1)) =>
    match FieldStr(RtlDirKey(), t1) case None => None case Some((dir, t2)) =>
    match FieldNat(MtimeKey(), t2) case None => None case Some((mtime, t3)) =>
    match FieldBool(TraceKey(), t3) case None => None case Some((trace, t4)) =>
    match FieldBool(DevModeKey(), t4) case None => None case Some((dev, t5)) =>
    match SkipLit(Close(), t5) case None => None case Some(t6) =>
      Some((Stamp(top, dir, mtime, trace, dev), t6))
  }

  predicate Blank(t: string) {
    forall i :: 0 <= i < |t| ==> t[i] == ' ' || t[i] == '\n' || t[i] == '\r' || t[i] == '\t'
  }

  /** `json.loads` of a stamp file; `None` stands for `ValueError`. */
  function Loads(t: string): Option<Stamp> {
    match ReadStamp(t)
    case Some((s, rest)) => if Blank(rest) then Some(s) else None
    case None => None
  }

  // ---- reading back what was written ----

  lemma HexRoundTrip(d: nat)
    requires d < 16
    ensures HexValue(HEX[d]) == Some(d)
    ensures d < 10 ==> IsDigit(HEX[d]) && HEX[d] as int - '0' as int == d
  {
  }

  lemma HexDigits(u: Unit)
    ensures u / 4096 < 16
    ensures u == u / 4096 * 4096 + u / 256 % 16 * 256 + u / 16 % 16 * 16 + u % 16
  {
    assert u / 256 == u / 4096 * 16 + u / 256 % 16;
    assert u / 16 == u / 256 * 16 + u / 16 % 16;
  }

  lemma HexRead(a: nat, b: nat, d: nat, e: nat, rest: string)
    requires a < 16 && b < 16 && d < 16 && e < 16
    ensures ReadUnit("\\u" + [HEX[a], HEX[b], HEX[d], HEX[e]] + rest) == Some((a * 4096 + b * 256 + d * 16 + e, rest))
  {
    hide HexValue;
    HexRoundTrip(a);
    HexRoundTrip(b);
    HexRoundTrip(d);
    HexRoundTrip(e);
    var t := "\\u" + [HEX[a], HEX[b], HEX[d], HEX[e]] + rest;
    assert t[6..] == rest;
  }

  lemma HexUnit(u: Unit, rest: string)
    requires |Escaped(u)| == 6
    ensures ReadUnit(Escaped(u) + rest) == Some((u, rest))
  {
    hide ReadUnit;
    HexDigits(u);
    HexRead(u / 4096, u / 256 % 16, u / 16 % 16, u % 16, rest);
  }

  lemma UnitRoundTrip(u: Unit, rest: string)
    ensures Escaped(u)[0] != '\"'
    ensures ReadUnit(Escaped(u) + rest) == Some((u, rest))
  {
    hide HexValue;
    var t := Escaped(u) + rest;
    assert t[|Escaped(u)|..] == rest;
    if |Escaped(u)| == 6 { HexUnit(u, rest); }
  }

  lemma {:induction false} StrRoundTrip(s: Str, rest: string)
    ensures ReadStr(StrTail(s) + rest) == Some((s, rest))
    decreases |s|
  {
    hide Escaped, ReadUnit;
    var t := StrTail(s) + rest;
    if s == [] {
      assert t[1..] == rest;
    } else {
      var more := StrTail(s[1..]) + rest;
      assert t == Escaped(s[0]) + more;
      UnitRoundTrip(s[0], more);
      StrRoundTrip(s[1..], rest);
      assert [s[0]] + s[1..] == s;
    }
  }

  lemma {:induction false} DigitsRoundTrip(n: nat, rest: string)
    ensures ReadDigits(Decimal(n) + rest, 0) == ReadDigits(rest, n)
    ensures IsDigit(Decimal(n)[0])
    decreases n
  {
    if n < 10 {
      HexRoundTrip(n);
      assert (Decimal(n) + rest)[1..] == rest;
    } else {
      var more := [HEX[n % 10]] + rest;
      assert Decimal(n) + rest == Decimal(n / 10) + more;
      DigitsRoundTrip(n / 10, more);
      HexRoundTrip(n % 10);
      assert more[1..] == rest;
    }
  }

  lemma NatRoundTrip(n: nat, rest: string)
    requires rest != [] && !IsDigit(rest[0])
    ensures ReadNat(Decimal(n) + rest) == Some((n, rest))
  {
    DigitsRoundTrip(n, rest);
  }

  lemma BoolRoundTrip(b: bool, rest: string)
    ensures ReadBool(BoolText(b) + rest) == Some((b, rest))
  {
    var t := BoolText(b) + rest;
    assert t[|BoolText(b)|..] == rest;
    assert BoolText(b) <= t && (!b ==> t[0] == 'f');
  }

  lemma SkipRoundTrip(lit: string, rest: string)
    ensures SkipLit(lit, lit + rest) == Some(rest)
  {
    assert (lit + rest)[|lit|..] == rest;
  }

  /** Reading a written stamp gives the stamp and whatever text follows it. */
  lemma ReadBack(s: Stamp, rest: string)
    ensures ReadStamp(Dumps(s) + rest) == Some((s, rest))
  {
    hide StrTail, Decimal, BoolText, ReadStr, ReadNat, ReadBool, SkipLit, TopKey, RtlDirKey, MtimeKey, TraceKey, DevModeKey;
    var t6 := Close() + rest;
    var t5 := DevModeKey() + (BoolText(s.devMode) + t6);
    var t4 := TraceKey() + (BoolText(s.trace) + t5);
    var t3 := MtimeKey() + (Decimal(s.mtime) + t4);
    var t2 := RtlDirKey() + (StrTail(s.rtlDir) + t3);
    assert Dumps(s) + rest == TopKey() + (StrTail(s.top) + t2);
    SkipRoundTrip(TopKey(), StrTail(s.top) + t2);
    StrRoundTrip(s.top, t2);
    SkipRoundTrip(RtlDirKey(), StrTail(s.rtlDir) + t3);
    StrRoundTrip(s.rtlDir, t3);
    SkipRoundTrip(MtimeKey(), Decimal(s.mtime) + t4);
    KeyStart(BoolText(s.trace) + t5);
    NatRoundTrip(s.mtime, t4);
    SkipRoundTrip(TraceKey(), BoolText(s.trace) + t5);
    BoolRoundTrip(s.trace, t5);
    SkipRoundTrip(DevModeKey(), BoolText(s.devMode) + t6);
    BoolRoundTrip(s.devMode, t6);
    SkipRoundTrip(Close(), rest);
  }

  lemma KeyStart(rest: string)
    ensures !IsDigit((TraceKey() + rest)[0])
  {
  }

  lemma FileRoundTrip(s: Stamp)
    ensures Loads(FileText(s)) == Some(s) && Loads(Dumps(s)) == Some(s)
  {
    hide Dumps, ReadStamp;
    ReadBack(s, "\n");
    ReadBack(s, "");
    assert Dumps(s) + "" == Dumps(s);
  }

  /** Anything but blanks after a stamp is an error. */
  lemma ExtraTextFails(s: Stamp, rest: string)
    ensures Loads(Dumps(s) + rest) == if Blank(rest) then Some(s) else None
  {
    hide Dumps, ReadStamp;
    ReadBack(s, rest);
  }

  // ---- the format itself ----

  lemma StrTailStep(u: Unit, s: Str)
    ensures StrTail([u] + s) == Escaped(u) + StrTail(s)
  {
    assert ([u] + s)[1..] == s;
  }

  lemma StrTailEnd()
    ensures StrTail([]) == "\""
  {
  }

  /** Quote and backslash are escaped, other printable characters are not. */
  lemma PrintableEscapes()
    ensures Escaped(0x22) == "\\\"" && Escaped(0x5C) == "\\\\" && Escaped(0x2F) == "/" && Escaped(0x54) == "T"
  {
  }

  /** The five short escapes. */
  lemma ShortEscapes()
    ensures Escaped(0x08) == "\\b" && Escaped(0x0C) == "\\f" && Escaped(0x0A) == "\\n"
    ensures Escaped(0x0D) == "\\r" && Escaped(0x09) == "\\t"
  {
  }

  /** Everything else is escaped by its number. */
  lemma NumericEscapes()
    ensures Escaped(0xE9) == "\\u00e9"
  {
    assert HEX[0] == '0' && HEX[14] == 'e' && HEX[9] == '9';
    assert 0xE9 / 4096 == 0 && 0xE9 / 256 % 16 == 0 && 0xE9 / 16 % 16 == 14 && 0xE9 % 16 == 9;
  }

  lemma NumberIs()
    ensures Decimal(1042) == "1042"
  {
    assert Decimal(1) == "1";
    assert Decimal(10) == "10";
    assert Decimal(104) == "104";
  }

  /** The text of one stamp, as `json.dumps` with an indent of 2 gives it, and the newline after it. */
  lemma ExampleText()
    ensures FileText(Stamp([0x54, 0x22, 0x5C, 0xE9], [0x2F, 0x0A], 1042, true, false))
      == "{" + "\n  \"top\": \"" + "T\\\"\\\\\\u00e9\""
       + ",\n  \"rtl_dir\": \"" + "/\\n\""
       + ",\n  \"filelist_mtime_ns\": " + "1042"
       + ",\n  \"trace\": " + "true"
       + ",\n  \"dev_mode\": " + "false"
       + "\n}" + "\n"
  {
    PrintableEscapes();
    ShortEscapes();
    NumericEscapes();
    NumberIs();
    hide Escaped, StrTail, Decimal;
    StrTailEnd();
    StrTailStep(0xE9, []);
    StrTailStep(0x5C, [0xE9]);
    StrTailStep(0x22, [0x5C, 0xE9]);
    StrTailStep(0x54, [0x22, 0x5C, 0xE9]);
    assert [0x54] + [0x22, 0x5C, 0xE9] == [0x54, 0x22, 0x5C, 0xE9] && [0x22] + [0x5C, 0xE9] == [0x22, 0x5C, 0xE9];
    assert [0x5C] + [0xE9] == [0x5C, 0xE9] && [0xE9] + [] == [0xE9];
    assert StrTail([0x54, 0x22, 0x5C, 0xE9]) == "T\\\"\\\\\\u00e9\"";
    StrTailStep(0x0A, []);
    StrTailStep(0x2F, [0x0A]);
    assert [0x2F] + [0x0A] == [0x2F, 0x0A] && [0x0A] + [] == [0x0A];
    assert StrTail([0x2F, 0x0A]) == "/\\n\"";
  }

  // ---- reading does not look ahead ----

  /** A reader that succeeds would have read the same had the text gone on. */
  lemma SkipExtends(lit: string, t: string, e: string)
    requires SkipLit(lit, t).Some?
    ensures SkipLit(lit, t + e) == Some(SkipLit(lit, t).value + e)
  {
    assert (t + e)[|lit|..] == t[|lit|..] + e;
  }

  lemma UnitExtends(t: string, e: string)
    requires ReadUnit(t).Some?
    ensures ReadUnit(t + e) == Some((ReadUnit(t).value.0, ReadUnit(t).value.1 + e))
  {
    hide HexValue;
    var used := |t| - |ReadUnit(t).value.1|;
    assert (t + e)[used..] == t[used..] + e;
  }

  lemma {:induction false} StrExtends(t: string, e: string)
    requires ReadStr(t).Some?
    ensures ReadStr(t + e) == Some((ReadStr(t).value.0, ReadStr(t).value.1 + e))
    decreases |t|
  {
    hide ReadUnit;
    if t != [] && t[0] == '\"' {
      assert (t + e)[1..] == t[1..] + e;
    } else {
      NoUnit(e);
      UnitExtends(t, e);
      StrExtends(ReadUnit(t).value.1, e);
    }
  }

  lemma NoUnit(e: string)
    ensures ReadUnit([]) == None
  {
  }

  lemma {:induction false} DigitsExtend(t: string, acc: nat, e: string)
    requires ReadDigits(t, acc).1 != []
    ensures ReadDigits(t + e, acc) == (ReadDigits(t, acc).0, ReadDigits(t, acc).1 + e)
    decreases |t|
  {
    if t != [] && IsDigit(t[0]) {
      assert (t + e)[1..] == t[1..] + e;
      DigitsExtend(t[1..], acc * 10 + (t[0] as int - '0' as int), e);
    }
  }

  lemma NatExtends(t: string, e: string)
    requires ReadNat(t).Some? && ReadNat(t).value.1 != []
    ensures ReadNat(t + e) == Some((ReadNat(t).value.0, ReadNat(t).value.1 + e))
  {
    DigitsExtend(t, 0, e);
  }

  lemma BoolExtends(t: string, e: string)
    requires ReadBool(t).Some?
    ensures ReadBool(t + e) == Some((ReadBool(t).value.0, ReadBool(t).value.1 + e))
  {
    var used := |t| - |ReadBool(t).value.1|;
    assert (t + e)[used..] == t[used..] + e;
    assert (t + e)[0] == t[0];
  }

  lemma FieldStrExtends(lit: string, t: string, e: string)
    requires FieldStr(lit, t).Some?
    ensures FieldStr(lit, t + e) == Some((FieldStr(lit, t).value.0, FieldStr(lit, t).value.1 + e))
  {
    hide ReadStr, SkipLit;
    SkipExtends(lit, t, e);
    StrExtends(SkipLit(lit, t).value, e);
  }

  lemma FieldNatExtends(lit: string, t: string, e: string)
    requires FieldNat(lit, t).Some? && FieldNat(lit, t).value.1 != []
    ensures FieldNat(lit, t + e) == Some((FieldNat(lit, t).value.0, FieldNat(lit, t).value.1 + e))
  {
    hide ReadNat, SkipLit;
    SkipExtends(lit, t, e);
    NatExtends(SkipLit(lit, t).value, e);
  }

  lemma FieldBoolExtends(lit: string, t: string, e: string)
    requires FieldBool(lit, t).Some?
    ensures FieldBool(lit, t + e) == Some((FieldBool(lit, t).value.0, FieldBool(lit, t).value.1 + e))
  {
    hide ReadBool, SkipLit;
    SkipExtends(lit, t, e);
    BoolExtends(SkipLit(lit, t).value, e);
  }

  lemma FieldBoolNeeds(lit: string, t: string)
    requires lit != [] && FieldBool(lit, t).Some?
    ensures t != []
  {
  }

  lemma ReadExtends(t: string, e: string)
    requires ReadStamp(t).Some?
    ensures ReadStamp(t + e) == Some((ReadStamp(t).value.0, ReadStamp(t).value.1 + e))
  {
    hide FieldStr, FieldNat, FieldBool, SkipLit, TopKey, RtlDirKey, MtimeKey, DevModeKey, Close;
    var t1 := FieldStr(TopKey(), t).value.1;
    var t2 := FieldStr(RtlDirKey(), t1).value.1;
    var t3 := FieldNat(MtimeKey(), t2).value.1;
    var t4 := FieldBool(TraceKey(), t3).value.1;
    var t5 := FieldBool(DevModeKey(), t4).value.1;
    FieldStrExtends(TopKey(), t, e);
    FieldStrExtends(RtlDirKey(), t1, e);
    FieldBoolNeeds(TraceKey(), t3);
    FieldNatExtends(MtimeKey(), t2, e);
    FieldBoolExtends(TraceKey(), t3, e);
    FieldBoolExtends(DevModeKey(), t4, e);
    SkipExtends(Close(), t5, e);
  }

  /** A prefix of a stamp file reads as that stamp if only the last newline is missing, and as no
      stamp if anything more is. */
  lemma TornNeverReads(s: Stamp, k: nat)
    requires k <= |FileText(s)|
    ensures Loads(FileText(s)[..k]) == if k + 1 >= |FileText(s)| then Some(s) else None
  {
    hide Dumps, ReadStamp;
    var t, e := FileText(s)[..k], FileText(s)[k..];
    assert t + e == FileText(s);
    FileRoundTrip(s);
    if k + 1 >= |FileText(s)| {
      assert t == FileText(s) || t == Dumps(s);
    } else if ReadStamp(t).Some? {
      ReadExtends(t, e);
      ReadBack(s, "\n");
    }
  }

  // ---- whatever the reader ----

  /** Nesting of brackets outside strings, whether inside a string, and whether just after a
      backslash there: what any JSON reader has to keep track of. */
  datatype Scan = Scan(depth: int, quoted: bool, escaped: bool)

  const START := Scan(0, false, false)
  const INSIDE := Scan(1, false, false)
  const IN_STRING := Scan(1, true, false)

  function Next(st: Scan, ch: char): Scan {
    if st.quoted then
      if st.escaped then st.(escaped := false)
      else if ch == '\\' then st.(escaped := true)
      else if ch == '\"' then st.(quoted := false)
      else st
    else if ch == '\"' then st.(quoted := true)
    else if ch == '{' || ch == '[' then st.(depth := st.depth + 1)
    else if ch == '}' || ch == ']' then st.(depth := st.depth - 1)
    else st
  }

  function ScanText(st: Scan, t: string): Scan
    decreases |t|
  {
    if t == [] then st else ScanText(Next(st, t[0]), t[1..])
  }

  /** A text in which everything opened has been closed. Every JSON text is one. */
  predicate Closed(t: string) {
    t != [] && ScanText(START, t) == START
  }

  /** The text leads from one state to the other without closing the outer brace on the way. */
  ghost predicate Within(st: Scan, t: string, end: Scan) {
    ScanText(st, t) == end && forall k :: 0 <= k <= |t| ==> ScanText(st, t[..k]).depth >= 1
  }

  lemma {:induction false} ScanAppend(st: Scan, a: string, b: string)
    ensures ScanText(st, a + b) == ScanText(ScanText(st, a), b)
    decreases |a|
  {
    hide Next;
    if a == [] {
      assert a + b == b;
    } else {
      assert (a + b)[1..] == a[1..] + b;
      ScanAppend(Next(st, a[0]), a[1..], b);
    }
  }

  lemma WithinAppend(st: Scan, a: string, mid: Scan, b: string, end: Scan)
    requires Within(st, a, mid) && Within(mid, b, end)
    ensures Within(st, a + b, end)
  {
    hide ScanText;
    ScanAppend(st, a, b);
    forall k | 0 <= k <= |a + b| ensures ScanText(st, (a + b)[..k]).depth >= 1 {
      if k <= |a| {
        assert (a + b)[..k] == a[..k];
      } else {
        assert (a + b)[..k] == a + b[..k - |a|];
        ScanAppend(st, a, b[..k - |a|]);
      }
    }
  }

  lemma WithinNothing(st: Scan)
    requires st.depth >= 1
    ensures Within(st, "", st)
  {
  }

  lemma WithinChar(st: Scan, ch: char)
    requires st.depth >= 1 && Next(st, ch).depth >= 1
    ensures Within(st, [ch], Next(st, ch))
  {
    assert [ch][1..] == "";
    assert [ch][..0] == "" && [ch][..1] == [ch];
  }

  /** No quote, backslash or bracket. */
  predicate Plain(t: string) {
    forall i :: 0 <= i < |t| ==> IsPlain(t[i])
  }

  predicate IsPlain(ch: char) {
    ch != '\"' && ch != '\\' && ch != '{' && ch != '}' && ch != '[' && ch != ']'
  }

  lemma {:induction false} WithinPlain(st: Scan, t: string)
    requires Plain(t) && st.depth >= 1 && !st.escaped
    ensures Within(st, t, st)
    decreases |t|
  {
    hide Within, ScanText;
    if t == [] {
      WithinNothing(st);
    } else {
      assert Next(st, t[0]) == st;
      WithinChar(st, t[0]);
      WithinPlain(st, t[1..]);
      WithinAppend(st, [t[0]], st, t[1..], st);
      assert [t[0]] + t[1..] == t;
    }
  }

  /** Inside a string, an escaped unit stays inside it, whatever the unit. */
  lemma WithinUnit(u: Unit)
    ensures Within(IN_STRING, Escaped(u), IN_STRING)
  {
    hide Within, ScanText;
    var e := Escaped(u);
    if e[0] == '\\' {
      var mid := Next(IN_STRING, e[0]);
      WithinChar(IN_STRING, e[0]);
      WithinChar(mid, e[1]);
      HexPlain(u);
      WithinPlain(IN_STRING, e[2..]);
      WithinAppend(mid, [e[1]], IN_STRING, e[2..], IN_STRING);
      WithinAppend(IN_STRING, [e[0]], mid, [e[1]] + e[2..], IN_STRING);
      assert [e[0]] + ([e[1]] + e[2..]) == e;
    } else {
      WithinChar(IN_STRING, e[0]);
      assert [e[0]] == e;
    }
  }

  lemma HexPlain(u: Unit)
    requires Escaped(u)[0] == '\\'
    ensures |Escaped(u)| >= 2 && Plain(Escaped(u)[2..])
  {
    forall d: nat | d < 16 ensures IsPlain(HEX[d]) { HexIsPlain(d); }
  }

  lemma HexIsPlain(d: nat)
    requires d < 16
    ensures IsPlain(HEX[d])
  {
    HexRoundTrip(d);
  }

  /** The rest of a string closes the string and nothing else. */
  lemma {:induction false} WithinStr(s: Str)
    ensures Within(IN_STRING, StrTail(s), INSIDE)
    decreases |s|
  {
    hide Within, ScanText, Escaped;
    if s == [] {
      WithinChar(IN_STRING, '\"');
    } else {
      WithinUnit(s[0]);
      WithinStr(s[1..]);
      WithinAppend(IN_STRING, Escaped(s[0]), IN_STRING, StrTail(s[1..]), INSIDE);
    }
  }

  /** A quoted name between plain texts. */
  lemma WithinKey(pre: string, name: string, post: string)
    requires Plain(pre) && Plain(name) && Plain(post)
    ensures Within(INSIDE, pre + ("\"" + (name + ("\"" + post))), INSIDE)
  {
    hide Within, ScanText, Plain;
    WithinPlain(INSIDE, post);
    WithinChar(IN_STRING, '\"');
    WithinAppend(IN_STRING, "\"", INSIDE, post, INSIDE);
    WithinPlain(IN_STRING, name);
    WithinAppend(IN_STRING, name, IN_STRING, "\"" + post, INSIDE);
    WithinChar(INSIDE, '\"');
    WithinAppend(INSIDE, "\"", IN_STRING, name + ("\"" + post), INSIDE);
    WithinPlain(INSIDE, pre);
    WithinAppend(INSIDE, pre, INSIDE, "\"" + (name + ("\"" + post)), INSIDE);
  }

  lemma WithinKeyQuote(pre: string, name: string, post: string)
    requires Plain(pre) && Plain(name) && Plain(post)
    ensures Within(INSIDE, pre + ("\"" + (name + ("\"" + post))) + "\"", IN_STRING)
  {
    hide Within, ScanText, Plain;
    WithinKey(pre, name, post);
    WithinChar(INSIDE, '\"');
    WithinAppend(INSIDE, pre + ("\"" + (name + ("\"" + post))), INSIDE, "\"", IN_STRING);
  }

  // the keys as they stand in the text, the first one after its opening brace

  lemma FirstKeyIs()
    ensures FirstKey() == "\n  " + ("\"" + ("top" + ("\"" + ": "))) + "\""
    ensures Plain("\n  ") && Plain("top") && Plain(": ")
  {
  }

  lemma RtlDirKeyIs()
    ensures RtlDirKey() == ",\n  " + ("\"" + ("rtl_dir" + ("\"" + ": "))) + "\""
    ensures Plain(",\n  ") && Plain("rtl_dir") && Plain(": ")
  {
  }

  lemma MtimeKeyIs()
    ensures MtimeKey() == ",\n  " + ("\"" + ("filelist_mtime_ns" + ("\"" + ": ")))
    ensures Plain(",\n  ") && Plain("filelist_mtime_ns") && Plain(": ")
  {
  }

  lemma TraceKeyIs()
    ensures TraceKey() == ",\n  " + ("\"" + ("trace" + ("\"" + ": ")))
    ensures Plain(",\n  ") && Plain("trace") && Plain(": ")
  {
  }

  lemma DevModeKeyIs()
    ensures DevModeKey() == ",\n  " + ("\"" + ("dev_mode" + ("\"" + ": ")))
    ensures Plain(",\n  ") && Plain("dev_mode") && Plain(": ")
  {
  }

  lemma {:induction false} DecimalPlain(n: nat)
    ensures Plain(Decimal(n))
  {
    HexIsPlain(n % 10);
    if n >= 10 { DecimalPlain(n / 10); }
  }

  lemma BoolPlain(b: bool)
    ensures Plain(BoolText(b))
  {
  }

  // what stands between the braces of a stamp, from each field on
  function FromDevMode(s: Stamp): string { DevModeKey() + (BoolText(s.devMode) + "\n") }
  function FromTrace(s: Stamp): string { TraceKey() + (BoolText(s.trace) + FromDevMode(s)) }
  function FromMtime(s: Stamp): string { MtimeKey() + (Decimal(s.mtime) + FromTrace(s)) }
  function FromRtlDir(s: Stamp): string { RtlDirKey() + (StrTail(s.rtlDir) + FromMtime(s)) }
  function Body(s: Stamp): string { FirstKey() + (StrTail(s.top) + FromRtlDir(s)) }

  lemma Assoc3(a: string, b: string, d: string, z: string)
    ensures a + (b + d) + z == a + b + (d + z)
  {
  }

  lemma DumpsIsBraced(s: Stamp)
    ensures Dumps(s) == "{" + Body(s) + "}"
  {
    hide StrTail, Decimal, BoolText, FirstKey, RtlDirKey, MtimeKey, TraceKey, DevModeKey;
    var z := "}";
    assert Close() == "\n" + z;
    Assoc3(FirstKey(), StrTail(s.top), FromRtlDir(s), z);
    Assoc3(RtlDirKey(), StrTail(s.rtlDir), FromMtime(s), z);
    Assoc3(MtimeKey(), Decimal(s.mtime), FromTrace(s), z);
    Assoc3(TraceKey(), BoolText(s.trace), FromDevMode(s), z);
    Assoc3(DevModeKey(), BoolText(s.devMode), "\n", z);
    hide FromDevMode, FromTrace, FromMtime, FromRtlDir, Close;
    var top, dir := TopKey() + StrTail(s.top), RtlDirKey() + StrTail(s.rtlDir);
    var mtime, trace, dev := MtimeKey() + Decimal(s.mtime), TraceKey() + BoolText(s.trace), DevModeKey() + BoolText(s.devMode);
    assert Dumps(s) == top + (dir + (mtime + (trace + (dev + Close())))) by {
      Regroup5(TopKey(), StrTail(s.top), RtlDirKey(), StrTail(s.rtlDir), MtimeKey(), Decimal(s.mtime),
               TraceKey(), BoolText(s.trace), DevModeKey(), BoolText(s.devMode), Close());
    }
    assert Body(s) + z == (FirstKey() + StrTail(s.top)) + (dir + (mtime + (trace + (dev + Close()))));
    assert top == "{" + (FirstKey() + StrTail(s.top));
  }

  lemma Regroup5(a: string, a': string, b: string, b': string, d: string, d': string,
                 e: string, e': string, f: string, f': string, z: string)
    ensures a + a' + b + b' + d + d' + e + e' + f + f' + z
         == (a + a') + ((b + b') + ((d + d') + ((e + e') + ((f + f') + z))))
  {
    var x4 := a + a' + b + b' + d + d' + e + e';
    var x3 := a + a' + b + b' + d + d';
    var x2 := a + a' + b + b';
    assert x4 + f + f' + z == x4 + ((f + f') + z);
    assert x3 + e + e' + ((f + f') + z) == x3 + ((e + e') + ((f + f') + z));
    assert x2 + d + d' + ((e + e') + ((f + f') + z)) == x2 + ((d + d') + ((e + e') + ((f + f') + z)));
  }

  /** A key, a value and what follows. */
  lemma WithinField(key: string, mid: Scan, value: string, rest: string)
    requires Within(INSIDE, key, mid) && Within(mid, value, INSIDE) && Within(INSIDE, rest, INSIDE)
    ensures Within(INSIDE, key + (value + rest), INSIDE)
  {
    hide Within;
    WithinAppend(mid, value, INSIDE, rest, INSIDE);
    WithinAppend(INSIDE, key, mid, value + rest, INSIDE);
  }

  lemma WithinBody(s: Stamp)
    ensures Within(INSIDE, Body(s), INSIDE)
  {
    hide Within, ScanText, Plain, StrTail, Decimal, BoolText, FirstKey, RtlDirKey, MtimeKey, TraceKey, DevModeKey;
    WithinChar(INSIDE, '\n');
    DevModeKeyIs();
    WithinKey(",\n  ", "dev_mode", ": ");
    BoolPlain(s.devMode);
    WithinPlain(INSIDE, BoolText(s.devMode));
    WithinField(DevModeKey(), INSIDE, BoolText(s.devMode), "\n");
    TraceKeyIs();
    WithinKey(",\n  ", "trace", ": ");
    BoolPlain(s.trace);
    WithinPlain(INSIDE, BoolText(s.trace));
    WithinField(TraceKey(), INSIDE, BoolText(s.trace), FromDevMode(s));
    MtimeKeyIs();
    WithinKey(",\n  ", "filelist_mtime_ns", ": ");
    DecimalPlain(s.mtime);
    WithinPlain(INSIDE, Decimal(s.mtime));
    WithinField(MtimeKey(), INSIDE, Decimal(s.mtime), FromTrace(s));
    RtlDirKeyIs();
    WithinKeyQuote(",\n  ", "rtl_dir", ": ");
    WithinStr(s.rtlDir);
    WithinField(RtlDirKey(), IN_STRING, StrTail(s.rtlDir), FromMtime(s));
    FirstKeyIs();
    WithinKeyQuote("\n  ", "top", ": ");
    WithinStr(s.top);
    WithinField(FirstKey(), IN_STRING, StrTail(s.top), FromRtlDir(s));
  }

  /** A proper, non-empty prefix of a stamp's text leaves the outer brace open; the whole text closes
      it. */
  lemma TornStaysOpen(s: Stamp, k: nat)
    requires 0 < k <= |Dumps(s)|
    ensures k < |Dumps(s)| ==> ScanText(START, Dumps(s)[..k]).depth >= 1
    ensures k == |Dumps(s)| ==> ScanText(START, Dumps(s)[..k]) == START
  {
    hide ScanText, Body, Dumps;
    var b := Body(s);
    DumpsIsBraced(s);
    WithinBody(s);
    OpenBrace();
    if k < |Dumps(s)| {
      assert Dumps(s)[..k] == "{" + b[..k - 1];
      ScanAppend(START, "{", b[..k - 1]);
    } else {
      assert Dumps(s)[..k] == ("{" + b) + "}";
      ScanAppend(START, "{" + b, "}");
      ScanAppend(START, "{", b);
    }
  }

  lemma OpenBrace()
    ensures ScanText(START, "{") == INSIDE && ScanText(INSIDE, "}") == START
  {
    assert "{"[1..] == "" && "}"[1..] == "";
  }

  /** So no reader that only accepts closed texts takes a stamp file that was cut short anywhere
      before its closing brace, even one empty. */
  lemma NoReaderTakesTorn(loads: string -> Option<Stamp>, s: Stamp, k: nat)
    requires forall t :: loads(t).Some? ==> Closed(t)
    requires k < |Dumps(s)|
    ensures loads(FileText(s)[..k]) == None
  {
    hide Dumps, ScanText;
    if k > 0 { TornStaysOpen(s, k); }
    assert FileText(s)[..k] == Dumps(s)[..k];
  }
}
