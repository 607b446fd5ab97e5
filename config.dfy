/**
 * The configuration store and its loader (src/config.c, src/config.h): the
 * settings kept as module statics, `clamp_all`, and the line-by-line key
 * dispatch of `config_load`.  The file arrives as the sequence of lines
 * `fgets` returns, or `None` when it cannot be opened; `atof` and `atoi`
 * are an opaque `NumberParser`.
 */
module Config {
  import opened Wrappers
  import opened CStrings

  const DefaultThresholdA: real := 550.0
  const DefaultThresholdV: real := 230.0
  const DefaultTmsAMs: int := 2000
  const DefaultTmsVMs: int := 2000
  const DefaultSamples: int := 10
  const DefaultSleepMs: int := 10
  const DefaultMode: string := "current"
  const DefaultTripLogic: string := "any"

  /** Characters kept by the `char mode[16]` and `char trip_logic[8]` stores. */
  const ModeMax: nat := 15
  const TripLogicMax: nat := 7

  /** The values of the configuration statics. */
  datatype Settings = Settings(
    thrA: real, thrV: real,
    tmsA: int, tmsV: int,
    samples: int, sleepMs: int,
    mode: string, tripLogic: string)

  function Defaults(): Settings
  {
    Settings(DefaultThresholdA, DefaultThresholdV, DefaultTmsAMs, DefaultTmsVMs,
             DefaultSamples, DefaultSleepMs, DefaultMode, DefaultTripLogic)
  }

  /** The two trip logics `clamp_all` accepts. */
  predicate KnownLogic(l: string)
  {
    l == "any" || l == "both"
  }

  /** The bounds `clamp_all` enforces. */
  predicate InRange(c: Settings)
  {
    c.thrA >= 0.0 && c.thrV >= 0.0 && c.tmsA > 0 && c.tmsV > 0 &&
    1 <= c.samples <= 128 && 0 <= c.sleepMs <= 1000 &&
    KnownLogic(c.tripLogic)
  }

  /** `clamp_all`: each field out of its bounds is put back to its default. */
  function Clamp(c: Settings): (r: Settings)
    ensures InRange(r) && r.mode == c.mode
    ensures c.thrA >= 0.0 ==> r.thrA == c.thrA
    ensures c.thrV >= 0.0 ==> r.thrV == c.thrV
    ensures c.tmsA > 0 ==> r.tmsA == c.tmsA
    ensures c.tmsV > 0 ==> r.tmsV == c.tmsV
    ensures 1 <= c.samples <= 128 ==> r.samples == c.samples
    ensures 0 <= c.sleepMs <= 1000 ==> r.sleepMs == c.sleepMs
    ensures KnownLogic(c.tripLogic) ==> r.tripLogic == c.tripLogic
  {
    var n := ClampNumbers(c);
    n.(tripLogic := if !KnownLogic(c.tripLogic) then DefaultTripLogic else c.tripLogic)
  }

  /** The six numeric tests of `clamp_all`. */
  function ClampNumbers(c: Settings): Settings
  {
    Settings(
      if c.thrA < 0.0 then DefaultThresholdA else c.thrA,
      if c.thrV < 0.0 then DefaultThresholdV else c.thrV,
      if c.tmsA <= 0 then DefaultTmsAMs else c.tmsA,
      if c.tmsV <= 0 then DefaultTmsVMs else c.tmsV,
      if c.samples <= 0 || c.samples > 128 then DefaultSamples else c.samples,
      if c.sleepMs < 0 || c.sleepMs > 1000 then DefaultSleepMs else c.sleepMs,
      c.mode, c.tripLogic)
  }

  /** Clamping settings already in range changes nothing, so clamping twice
      is clamping once. */
  lemma ClampIdempotent(c: Settings)
    ensures InRange(c) ==> Clamp(c) == c
    ensures Clamp(Clamp(c)) == Clamp(c)
  {
  }

  // ---------------------------------------------------------------------
  // trim and unquote

  /** `isspace` in the C locale. */
  predicate IsSpace(ch: char)
  {
    ch == ' ' || ch == '\t' || ch == '\n' || ch == '\U{0B}' || ch == '\U{0C}' || ch == '\r'
  }

  /** The first index at or after `i` that does not hold white space. */
  function SkipSpace(s: string, i: nat): (j: nat)
    requires i <= |s|
    ensures i <= j <= |s| && (j < |s| ==> !IsSpace(s[j]))
    ensures forall k :: i <= k < j ==> IsSpace(s[k])
    decreases |s| - i
  {
    if i == |s| || !IsSpace(s[i]) then i else SkipSpace(s, i + 1)
  }

  /** Just past the last index below `e` that does not hold white space,
      scanning down no further than `b`. */
  function BackSpace(s: string, b: nat, e: nat): (j: nat)
    requires b <= e <= |s|
    ensures b <= j <= e && (j > b ==> !IsSpace(s[j - 1]))
    ensures forall k :: j <= k < e ==> IsSpace(s[k])
    decreases e - b
  {
    if e == b || !IsSpace(s[e - 1]) then e else BackSpace(s, b, e - 1)
  }

  /** `trim`: `s` without its leading and trailing white space.  The result
      is the piece of `s` between two runs of white space and does not
      itself begin or end with white space. */
  function Trim(s: string): (r: string)
    ensures |r| <= |s|
    ensures r == [] || (!IsSpace(r[0]) && !IsSpace(r[|r| - 1]))
    ensures exists b :: Occurs(s, r, b) &&
                        (forall k :: 0 <= k < b ==> IsSpace(s[k])) &&
                        (forall k :: b + |r| <= k < |s| ==> IsSpace(s[k]))
  {
    var b := SkipSpace(s, 0);
    var e := BackSpace(s, b, |s|);
    assert Occurs(s, s[b..e], b);
    s[b..e]
  }

  /** A string that neither begins nor ends with white space is its own trim. */
  lemma TrimNoop(s: string)
    requires s == [] || (!IsSpace(s[0]) && !IsSpace(s[|s| - 1]))
    ensures Trim(s) == s
  {
    assert SkipSpace(s, 0) == 0;
    assert BackSpace(s, 0, |s|) == |s|;
  }

  /** White space before a string that neither begins nor ends with white
      space is all that trimming removes. */
  lemma TrimPadded(pad: string, t: string)
    requires forall k :: 0 <= k < |pad| ==> IsSpace(pad[k])
    requires |t| > 0 && !IsSpace(t[0]) && !IsSpace(t[|t| - 1])
    ensures Trim(pad + t) == t
  {
    var s := pad + t;
    assert s[|pad|] == t[0];
    assert forall k :: 0 <= k < |pad| ==> s[k] == pad[k];
    var b := SkipSpace(s, 0);
    assert b == |pad|;
    assert s[|s| - 1] == t[|t| - 1];
    assert BackSpace(s, b, |s|) == |s|;
    assert s[|pad|..] == t;
  }

  /** Trimming twice is trimming once. */
  lemma TrimIdempotent(s: string)
    ensures Trim(Trim(s)) == Trim(s)
  {
    TrimNoop(Trim(s));
  }

  /** `unquote`: the trimmed string, without one pair of enclosing double
      quotes when it has one and is at least two characters long. */
  function Unquote(s: string): (r: string)
    ensures |r| <= |Trim(s)|
    ensures r == Trim(s) || Trim(s) == ['"'] + r + ['"']
    ensures r != Trim(s) <==> |Trim(s)| >= 2 && Trim(s)[0] == '"' && Trim(s)[|Trim(s)| - 1] == '"'
  {
    var t := Trim(s);
    if |t| >= 2 && t[0] == '"' && t[|t| - 1] == '"' then t[1..|t| - 1] else t
  }

  /** Quoting and unquoting round-trip, whatever is inside the quotes: only
      the outermost pair goes. */
  lemma UnquoteQuoted(x: string)
    ensures Unquote(['"'] + x + ['"']) == x
  {
    var q := ['"'] + x + ['"'];
    TrimNoop(q);
    assert q[1..|q| - 1] == x;
  }

  /** An unquoted value is only trimmed. */
  lemma UnquotePlain(s: string)
    requires Trim(s) == [] || Trim(s)[0] != '"'
    ensures Unquote(s) == Trim(s)
  {
  }

  // ---------------------------------------------------------------------
  // strtok and the line split

  /** The delimiters of the key token and of the value token. */
  const KeyDelims: string := ":"
  const ValueDelims: string := ",}\n"

  /** The first index at or after `i` not holding a delimiter. */
  function SkipDelims(s: string, i: nat, delims: string): (j: nat)
    requires i <= |s|
    ensures i <= j <= |s| && (j < |s| ==> s[j] !in delims)
    ensures forall k :: i <= k < j ==> s[k] in delims
    decreases |s| - i
  {
    if i == |s| || s[i] !in delims then i else SkipDelims(s, i + 1, delims)
  }

  /** The first index at or after `i` holding a delimiter, or the end. */
  function TokenEnd(s: string, i: nat, delims: string): (j: nat)
    requires i <= |s|
    ensures i <= j <= |s| && (j < |s| ==> s[j] in delims)
    ensures forall k :: i <= k < j ==> s[k] !in delims
    decreases |s| - i
  {
    if i == |s| || s[i] in delims then i else TokenEnd(s, i + 1, delims)
  }

  /** `strtok` resuming at `from`: the next non-empty run of non-delimiters,
      and where the following call resumes (past the delimiter that ended
      the token, which `strtok` overwrites). */
  function Strtok(s: string, from: nat, delims: string): (r: Option<(string, nat)>)
    requires from <= |s|
    ensures r.None? <==> forall k :: from <= k < |s| ==> s[k] in delims
    ensures r.Some? ==> from < r.value.1 <= |s| && |r.value.0| > 0
    ensures r.Some? ==> forall k :: 0 <= k < |r.value.0| ==> r.value.0[k] !in delims
    ensures r.Some? ==>
              var b := SkipDelims(s, from, delims);
              var e := b + |r.value.0|;
              && e <= |s| && r.value.0 == s[b..e]
              && (e < |s| ==> s[e] in delims)
              && r.value.1 == (if e < |s| then e + 1 else e)
  {
    var b := SkipDelims(s, from, delims);
    if b == |s| then None
    else
      var e := TokenEnd(s, b, delims);
      Some((s[b..e], if e < |s| then e + 1 else e))
  }

  /** The trimmed key and value `config_load` takes from one line, or `None`
      when `strtok` yields no key or no value. */
  function SplitLine(line: string): (r: Option<(string, string)>)
    ensures r.Some? ==> forall k :: 0 <= k < |r.value.0| ==> r.value.0[k] !in KeyDelims
    ensures r.Some? ==> forall k :: 0 <= k < |r.value.1| ==> r.value.1[k] !in ValueDelims
    ensures r.Some? ==> Trim(r.value.0) == r.value.0 && Trim(r.value.1) == r.value.1
  {
    var s := CPrefix(line);
    match Strtok(s, 0, KeyDelims)
    case None => None
    case Some((key, next)) =>
      match Strtok(s, next, ValueDelims)
      case None => None
      case Some((val, _)) =>
        TrimAvoids(key, KeyDelims);
        TrimAvoids(val, ValueDelims);
        TrimIdempotent(key);
        TrimIdempotent(val);
        Some((Trim(key), Trim(val)))
  }

  /** Trimming keeps a character of the string only: characters absent
      from `s` are absent from `Trim(s)`. */
  lemma TrimAvoids(s: string, cs: string)
    requires forall k :: 0 <= k < |s| ==> s[k] !in cs
    ensures forall k :: 0 <= k < |Trim(s)| ==> Trim(s)[k] !in cs
  {
    var t := Trim(s);
    var b :| Occurs(s, t, b);
    forall k | 0 <= k < |t|
      ensures t[k] !in cs
    {
      assert t[k] == s[b + k];
    }
  }

  /** A line whose first `:` sits at `colon`, with a value running from
      just past it up to the delimiter at `e`, splits at those two places. */
  lemma SplitAt(line: string, colon: nat, e: nat)
    requires forall k :: 0 <= k < |line| ==> line[k] != '\0'
    requires 0 < colon && colon + 1 < e < |line| && line[colon] == ':' && line[e] in ValueDelims
    requires forall k :: 0 <= k < colon ==> line[k] != ':'
    requires forall k :: colon < k < e ==> line[k] !in ValueDelims
    ensures SplitLine(line) == Some((Trim(line[..colon]), Trim(line[colon + 1..e])))
  {
    CPrefixAbsent(line);
    assert SkipDelims(line, 0, KeyDelims) == 0;
    assert TokenEnd(line, 0, KeyDelims) == colon;
    assert Strtok(line, 0, KeyDelims) == Some((line[..colon], colon + 1));
    assert SkipDelims(line, colon + 1, ValueDelims) == colon + 1;
    assert TokenEnd(line, colon + 1, ValueDelims) == e;
    StrtokFrom(line, colon + 1, colon + 1, e, ValueDelims);
  }

  /** A line split at `colon` and `e` whose key is padded with two spaces
      and whose value with one gives the key and value without them. */
  lemma SplitPadded(line: string, colon: nat, e: nat, key: string, val: string)
    requires forall k :: 0 <= k < |line| ==> line[k] != '\0'
    requires 0 < colon && colon + 1 < e < |line| && line[colon] == ':' && line[e] in ValueDelims
    requires forall k :: 0 <= k < colon ==> line[k] != ':'
    requires forall k :: colon < k < e ==> line[k] !in ValueDelims
    requires line[..colon] == "  " + key && line[colon + 1..e] == " " + val
    requires |key| > 0 && !IsSpace(key[0]) && !IsSpace(key[|key| - 1])
    requires |val| > 0 && !IsSpace(val[0]) && !IsSpace(val[|val| - 1])
    ensures SplitLine(line) == Some((key, val))
  {
    assert Trim(line[..colon]) == key by {
      TrimPadded("  ", key);
    }
    assert Trim(line[colon + 1..e]) == val by {
      TrimPadded(" ", val);
    }
    SplitAt(line, colon, e);
  }

  /** The token `strtok` returns, given where it starts and ends. */
  lemma StrtokFrom(s: string, from: nat, b: nat, e: nat, delims: string)
    requires from <= b < e <= |s|
    requires SkipDelims(s, from, delims) == b && TokenEnd(s, b, delims) == e
    ensures Strtok(s, from, delims) == Some((s[b..e], if e < |s| then e + 1 else e))
  {
  }

  /** A line without `:` is skipped: its only token is the key. */
  lemma NoColonSkipped(line: string)
    requires ':' !in line
    ensures SplitLine(line) == None
  {
    var s := CPrefix(line);
    assert ':' !in s by {
      forall k | 0 <= k < |s| ensures s[k] != ':' {
        assert s[k] == line[k];
      }
    }
    var b := SkipDelims(s, 0, KeyDelims);
    if b < |s| {
      var e := TokenEnd(s, b, KeyDelims);
      assert e == |s|;
    }
  }

  /** A line whose key is followed only by value delimiters is skipped. */
  lemma EmptyValueSkipped(key: string, rest: string)
    requires |key| > 0 && forall k :: 0 <= k < |key| ==> key[k] != ':' && key[k] != '\0'
    requires forall k :: 0 <= k < |rest| ==> rest[k] in ValueDelims
    ensures SplitLine(key + ":" + rest) == None
  {
    var line := key + ":" + rest;
    CPrefixAbsent(line);
    assert SkipDelims(line, 0, KeyDelims) == 0;
    var e := TokenEnd(line, 0, KeyDelims);
    assert line[|key|] == ':';
    assert e == |key|;
    assert SkipDelims(line, |key| + 1, ValueDelims) == |line|;
  }

  // ---------------------------------------------------------------------
  // the key dispatch

  /** The settings a configuration key can assign. */
  datatype Field = ThrA | ThrV | TmsA | TmsV | TripLogic | Samples | SleepMs | Mode

  /** The field a key assigns: the first of the ordered `strstr` tests of
      `config_load` that the key passes, legacy keys last. */
  function Target(key: string): (r: Option<Field>)
    ensures r.None? <==>
              && !Contains(key, "threshold") && !Contains(key, "tms_A_ms") && !Contains(key, "tms_V_ms")
              && !Contains(key, "tms_ms") && !Contains(key, "trip_logic") && !Contains(key, "samples")
              && !Contains(key, "mode")
  {
    LongNamesContainShort(key);
    if Contains(key, "threshold_A") then Some(ThrA)
    else if Contains(key, "threshold_V") then Some(ThrV)
    else if Contains(key, "tms_A_ms") then Some(TmsA)
    else if Contains(key, "tms_V_ms") then Some(TmsV)
    else if Contains(key, "trip_logic") then Some(TripLogic)
    else if Contains(key, "samples") then Some(Samples)
    else if Contains(key, "sleep_between_samples_ms") then Some(SleepMs)
    else if Contains(key, "threshold") then Some(ThrA)
    else if Contains(key, "tms_ms") then Some(TmsA)
    else if Contains(key, "mode") then Some(Mode)
    else None
  }

  /** Every key containing `sleep_between_samples_ms` also contains
      `samples`, which is tested first: no key ever reaches the sleep
      branch. */
  lemma SleepKeyNeverReached(key: string)
    ensures Target(key) != Some(SleepMs)
  {
    LongNamesContainShort(key);
  }

  /** The channel-specific threshold names contain the legacy one, and the
      sleep name contains `samples`. */
  lemma LongNamesContainShort(key: string)
    ensures Contains(key, "threshold_A") ==> Contains(key, "threshold")
    ensures Contains(key, "threshold_V") ==> Contains(key, "threshold")
    ensures Contains(key, "sleep_between_samples_ms") ==> Contains(key, "samples")
  {
    if Contains(key, "threshold_A") {
      ContainsInner(key, "threshold_A", "threshold", 0);
    }
    if Contains(key, "threshold_V") {
      ContainsInner(key, "threshold_V", "threshold", 0);
    }
    if Contains(key, "sleep_between_samples_ms") {
      ContainsInner(key, "sleep_between_samples_ms", "samples", 14);
    }
  }

  /** Keys naming one channel explicitly never fall to the legacy
      `threshold` and `tms_ms` branches, and a key with `samples` in it
      assigns `samples` unless an earlier test catches it. */
  lemma FirstMatchWins(key: string)
    ensures Contains(key, "threshold_A") ==> Target(key) == Some(ThrA)
    ensures Contains(key, "threshold_V") && !Contains(key, "threshold_A") ==> Target(key) == Some(ThrV)
    ensures (Contains(key, "tms_V_ms") && !Contains(key, "threshold_A") && !Contains(key, "threshold_V") &&
             !Contains(key, "tms_A_ms")) ==> Target(key) == Some(TmsV)
    ensures Target(key) == Some(ThrV) ==> Contains(key, "threshold_V")
    ensures Target(key) == Some(TmsV) ==> Contains(key, "tms_V_ms")
  {
  }

  /** `atof` and `atoi`, which the model does not look into. */
  datatype NumberParser = NumberParser(atof: string -> real, atoi: string -> int)

  /** The assignment one matched line makes. */
  function Assign(c: Settings, f: Field, val: string, p: NumberParser): Settings
  {
    match f
    case ThrA => c.(thrA := p.atof(val))
    case ThrV => c.(thrV := p.atof(val))
    case TmsA => c.(tmsA := p.atoi(val))
    case TmsV => c.(tmsV := p.atoi(val))
    case TripLogic => c.(tripLogic := Truncate(Unquote(val), TripLogicMax))
    case Samples => c.(samples := p.atoi(val))
    case SleepMs => c.(sleepMs := p.atoi(val))
    case Mode => c.(mode := Truncate(Unquote(val), ModeMax))
  }

  /** The field one line assigns and the value it assigns, if any. */
  function LineField(line: string): (r: Option<(Field, string)>)
    ensures r.Some? ==> r.value.0 != SleepMs
  {
    match SplitLine(line)
    case None => None
    case Some((key, val)) =>
      SleepKeyNeverReached(key);
      match Target(key)
      case None => None
      case Some(f) => Some((f, val))
  }

  /** One iteration of the `config_load` loop. */
  function ApplyLine(c: Settings, line: string, p: NumberParser): Settings
  {
    ApplyField(c, LineField(line), p)
  }

  /** The assignment a line selecting `fv` makes, if any. */
  function ApplyField(c: Settings, fv: Option<(Field, string)>, p: NumberParser): Settings
  {
    match fv
    case None => c
    case Some((f, val)) => Assign(c, f, val, p)
  }

  /** The whole loop, first line first. */
  function ApplyLines(c: Settings, lines: seq<string>, p: NumberParser): Settings
  {
    if lines == [] then c
    else ApplyLine(ApplyLines(c, lines[..|lines| - 1], p), lines[|lines| - 1], p)
  }

  /** The loop over what the lines select, first line first. */
  function ApplyFields(c: Settings, fs: seq<Option<(Field, string)>>, p: NumberParser): Settings
  {
    if fs == [] then c
    else ApplyField(ApplyFields(c, fs[..|fs| - 1], p), fs[|fs| - 1], p)
  }

  /** Loading the lines is applying, in order, what each one selects. */
  lemma {:induction false} ApplyLinesByFields(c: Settings, lines: seq<string>,
                                              fs: seq<Option<(Field, string)>>, p: NumberParser)
    requires |fs| == |lines| && forall k :: 0 <= k < |lines| ==> fs[k] == LineField(lines[k])
    ensures ApplyLines(c, lines, p) == ApplyFields(c, fs, p)
  {
    if lines != [] {
      ApplyLinesByFields(c, lines[..|lines| - 1], fs[..|fs| - 1], p);
    }
  }

  /** The value of the last line that assigns field `f`, if any. */
  function LastValue(lines: seq<string>, f: Field): Option<string>
  {
    if lines == [] then None
    else match LineField(lines[|lines| - 1])
      case Some((g, val)) =>
        if g == f then Some(val) else LastValue(lines[..|lines| - 1], f)
      case None => LastValue(lines[..|lines| - 1], f)
  }

  /** What one line does to each numeric field. */
  lemma ApplyLineFields(c: Settings, line: string, p: NumberParser)
    ensures var r := ApplyLine(c, line, p); var lf := LineField(line);
      && r.thrA == (if lf.Some? && lf.value.0 == ThrA then p.atof(lf.value.1) else c.thrA)
      && r.thrV == (if lf.Some? && lf.value.0 == ThrV then p.atof(lf.value.1) else c.thrV)
      && r.tmsA == (if lf.Some? && lf.value.0 == TmsA then p.atoi(lf.value.1) else c.tmsA)
      && r.tmsV == (if lf.Some? && lf.value.0 == TmsV then p.atoi(lf.value.1) else c.tmsV)
      && r.samples == (if lf.Some? && lf.value.0 == Samples then p.atoi(lf.value.1) else c.samples)
      && r.sleepMs == c.sleepMs
  {
    match LineField(line)
    case None =>
    case Some((f, val)) =>
      assert ApplyLine(c, line, p) == Assign(c, f, val, p);
  }

  /** File order wins: each numeric field ends up with what its last
      assigning line says, or keeps its value when no line assigns it; and
      `sleep_ms` is never assigned from the file at all. */
  lemma {:induction false} LastLineWins(c: Settings, lines: seq<string>, p: NumberParser)
    ensures ApplyLines(c, lines, p).thrA ==
            (if LastValue(lines, ThrA).Some? then p.atof(LastValue(lines, ThrA).value) else c.thrA)
    ensures ApplyLines(c, lines, p).thrV ==
            (if LastValue(lines, ThrV).Some? then p.atof(LastValue(lines, ThrV).value) else c.thrV)
    ensures ApplyLines(c, lines, p).tmsA ==
            (if LastValue(lines, TmsA).Some? then p.atoi(LastValue(lines, TmsA).value) else c.tmsA)
    ensures ApplyLines(c, lines, p).tmsV ==
            (if LastValue(lines, TmsV).Some? then p.atoi(LastValue(lines, TmsV).value) else c.tmsV)
    ensures ApplyLines(c, lines, p).samples ==
            (if LastValue(lines, Samples).Some? then p.atoi(LastValue(lines, Samples).value) else c.samples)
    ensures ApplyLines(c, lines, p).sleepMs == c.sleepMs
  {
    if lines != [] {
      var init := lines[..|lines| - 1];
      LastLineWins(c, init, p);
      ApplyLineFields(ApplyLines(c, init, p), lines[|lines| - 1], p);
    }
  }

  /** A loaded mode and trip logic fit their character arrays. */
  lemma {:induction false} LoadedStringsFit(c: Settings, lines: seq<string>, p: NumberParser)
    requires |c.mode| <= ModeMax && |c.tripLogic| <= TripLogicMax
    ensures |ApplyLines(c, lines, p).mode| <= ModeMax
    ensures |ApplyLines(c, lines, p).tripLogic| <= TripLogicMax
  {
    if lines != [] {
      LoadedStringsFit(c, lines[..|lines| - 1], p);
      LineStringsFit(ApplyLines(c, lines[..|lines| - 1], p), lines[|lines| - 1], p);
    }
  }

  /** One line keeps the mode and trip logic within their arrays. */
  lemma LineStringsFit(c: Settings, line: string, p: NumberParser)
    requires |c.mode| <= ModeMax && |c.tripLogic| <= TripLogicMax
    ensures |ApplyLine(c, line, p).mode| <= ModeMax
    ensures |ApplyLine(c, line, p).tripLogic| <= TripLogicMax
  {
    FieldStringsFit(c, LineField(line), p);
  }

  /** Any one assignment keeps the mode and trip logic within their arrays. */
  lemma FieldStringsFit(c: Settings, fv: Option<(Field, string)>, p: NumberParser)
    requires |c.mode| <= ModeMax && |c.tripLogic| <= TripLogicMax
    ensures |ApplyField(c, fv, p).mode| <= ModeMax
    ensures |ApplyField(c, fv, p).tripLogic| <= TripLogicMax
  {
  }

  // ---------------------------------------------------------------------
  // the store

  /** The configuration statics of src/config.c. */
  class Config {
    var thrA: real
    var thrV: real
    var tmsA: int
    var tmsV: int
    var samples: int
    var sleepMs: int
    var mode: string
    var tripLogic: string

    function Snapshot(): Settings
      reads this
    {
      Settings(thrA, thrV, tmsA, tmsV, samples, sleepMs, mode, tripLogic)
    }

    /** The stored values are within bounds and the strings fit their arrays. */
    predicate Valid()
      reads this
    {
      InRange(Snapshot()) && |mode| <= ModeMax && |tripLogic| <= TripLogicMax
    }

    /** The static initialisers. */
    constructor ()
      ensures Snapshot() == Defaults() && Valid()
    {
      thrA, thrV := DefaultThresholdA, DefaultThresholdV;
      tmsA, tmsV := DefaultTmsAMs, DefaultTmsVMs;
      samples, sleepMs := DefaultSamples, DefaultSleepMs;
      mode, tripLogic := DefaultMode, DefaultTripLogic;
    }

    /** `clamp_all`. */
    method ClampAll()
      modifies this
      ensures Snapshot() == Clamp(old(Snapshot()))
    {
      ClampNumberFields();
      if !KnownLogic(tripLogic) {
        tripLogic := DefaultTripLogic;
      }
    }

    /** The six numeric tests of `clamp_all`. */
    method ClampNumberFields()
      modifies this
      ensures Snapshot() == ClampNumbers(old(Snapshot()))
    {
      if thrA < 0.0 { thrA := DefaultThresholdA; }
      if thrV < 0.0 { thrV := DefaultThresholdV; }
      if tmsA <= 0 { tmsA := DefaultTmsAMs; }
      if tmsV <= 0 { tmsV := DefaultTmsVMs; }
      if samples <= 0 || samples > 128 { samples := DefaultSamples; }
      if sleepMs < 0 || sleepMs > 1000 { sleepMs := DefaultSleepMs; }
    }

    /** `config_load`: -1 when the file cannot be opened, 0 otherwise; the
        lines are applied in order and the result clamped either way. */
    method Load(file: Option<seq<string>>, p: NumberParser) returns (rc: int)
      requires Valid()
      modifies this
      ensures rc == (if file.None? then -1 else 0)
      ensures Valid()
      ensures Snapshot() == Clamp(if file.None? then old(Snapshot()) else ApplyLines(old(Snapshot()), file.value, p))
    {
      if file.None? {
        ClampAll();
        return -1;
      }
      var lines := file.value;
      var i := 0;
      while i < |lines|
        invariant 0 <= i <= |lines|
        invariant Snapshot() == ApplyLines(old(Snapshot()), lines[..i], p)
        invariant |mode| <= ModeMax && |tripLogic| <= TripLogicMax
      {
        assert lines[..i + 1][..i] == lines[..i];
        LoadLine(lines[i], p);
        i := i + 1;
      }
      assert lines[..i] == lines;
      ClampAll();
      rc := 0;
    }

    /** One iteration of the `config_load` loop: split the line, trim key
        and value, and assign the field the first matching test selects. */
    method LoadLine(line: string, p: NumberParser)
      modifies this
      ensures Snapshot() == ApplyLine(old(Snapshot()), line, p)
      ensures |old(mode)| <= ModeMax ==> |mode| <= ModeMax
      ensures |old(tripLogic)| <= TripLogicMax ==> |tripLogic| <= TripLogicMax
    {
      var kv := LineField(line);
      if kv.Some? {
        AssignField(kv.value.0, kv.value.1, p);
      }
    }

    /** The branch of the key dispatch that field `f` selects. */
    method AssignField(f: Field, val: string, p: NumberParser)
      requires !f.SleepMs?
      modifies this
      ensures Snapshot() == Assign(old(Snapshot()), f, val, p)
      ensures |old(mode)| <= ModeMax ==> |mode| <= ModeMax
      ensures |old(tripLogic)| <= TripLogicMax ==> |tripLogic| <= TripLogicMax
    {
      match f
      case ThrA => thrA := p.atof(val);
      case ThrV => thrV := p.atof(val);
      case TmsA => tmsA := p.atoi(val);
      case TmsV => tmsV := p.atoi(val);
      case TripLogic => tripLogic := Truncate(Unquote(val), TripLogicMax);
      case Samples => samples := p.atoi(val);
      case Mode => mode := Truncate(Unquote(val), ModeMax);
    }

    /** `config_get_threshold_A`. */
    function ThresholdA(): (t: real)
      reads this
      ensures Valid() ==> t >= 0.0
    {
      thrA
    }

    /** `config_get_threshold_V`. */
    function ThresholdV(): (t: real)
      reads this
      ensures Valid() ==> t >= 0.0
    {
      thrV
    }

    /** `config_get_tms_A_ms`. */
    function TmsAMs(): (t: int)
      reads this
      ensures Valid() ==> t > 0
    {
      tmsA
    }

    /** `config_get_tms_V_ms`. */
    function TmsVMs(): (t: int)
      reads this
      ensures Valid() ==> t > 0
    {
      tmsV
    }

    /** `config_get_samples`. */
    function Samples(): (n: int)
      reads this
      ensures Valid() ==> 1 <= n <= 128
    {
      samples
    }

    /** `config_get_sleep_ms`. */
    function SleepMs(): (n: int)
      reads this
      ensures Valid() ==> 0 <= n <= 1000
    {
      sleepMs
    }

    /** `config_get_mode`. */
    function Mode(): (m: string)
      reads this
      ensures Valid() ==> |m| <= ModeMax
    {
      mode
    }

    /** `config_get_trip_logic`. */
    function TripLogic(): (l: string)
      reads this
      ensures Valid() ==> KnownLogic(l)
    {
      tripLogic
    }

    /** `config_get_threshold`: the legacy getter, which reads channel A. */
    function Threshold(): (t: real)
      reads this
      ensures t == ThresholdA()
    {
      thrA
    }

    /** `config_get_tms_ms`: the legacy getter, which reads channel A. */
    function TmsMs(): (t: int)
      reads this
      ensures t == TmsAMs()
    {
      tmsA
    }
  }
}
