/**
 * The state the configuration service shares with the relay
 * (src/ArkStudio.c): the reload flag, the `is_probably_json` test, the
 * validation of the form fields, and what the `POST /config` and
 * `POST /apply` handlers do once the request body has been received.  The
 * file write is an outcome passed in; sockets and page rendering are not
 * modelled.
 */
module ConfService {
  import opened Wrappers
  import opened CStrings
  import opened AuditLog
  import opened FormCodec
  import Config

  /** `MAX_CFG_BODY`: the largest request body either handler accepts. */
  const MaxCfgBody: nat := 2048

  /** HTTP status codes the handlers answer with. */
  const Created: int := 201
  const Found: int := 302
  const BadRequest: int := 400

  /** The `volatile int reload_flag` raised by the handlers and consumed by
      the relay's reload task. */
  class ReloadFlag {
    var raised: bool

    constructor ()
      ensures !raised
    {
      raised := false;
    }

    /** `conf_need_reload`. */
    function NeedReload(): (r: bool)
      reads this
      ensures r <==> raised
    {
      raised
    }

    /** `conf_clear_reload_flag`. */
    method Clear()
      modifies this
      ensures !raised
    {
      raised := false;
    }

    /** `reload_flag = 1` in the handlers. */
    method Raise()
      modifies this
      ensures raised
    {
      raised := true;
    }
  }

  // ---------------------------------------------------------------------
  // is_probably_json

  /** The blanks `is_probably_json` skips. */
  predicate JsonBlank(c: char)
  {
    c == ' ' || c == '\t' || c == '\r' || c == '\n'
  }

  /** The text opens with `{` after nothing but blanks. */
  ghost predicate OpensObject(s: string)
  {
    exists i :: 0 <= i < |s| && s[i] == '{' && forall j :: 0 <= j < i ==> JsonBlank(s[j])
  }

  /** `is_probably_json`.  A `'\0'` ends the C string the source walks; it is
      neither a blank nor `{`, so walking the whole text gives the same
      answer. */
  method IsProbablyJson(s: string) returns (b: bool)
    ensures b <==> OpensObject(s)
  {
    var i := 0;
    while i < |s| && JsonBlank(s[i])
      invariant 0 <= i <= |s|
      invariant forall j :: 0 <= j < i ==> JsonBlank(s[j])
    {
      i := i + 1;
    }
    b := i < |s| && s[i] == '{';
  }

  /** Any run of blanks before an object is accepted; a body that starts
      with something else is not. */
  lemma OpensObjectAfterBlanks(blanks: string, rest: string)
    requires forall j :: 0 <= j < |blanks| ==> JsonBlank(blanks[j])
    ensures OpensObject(blanks + ['{'] + rest)
    ensures |rest| > 0 && !JsonBlank(rest[0]) && rest[0] != '{' ==> !OpensObject(blanks + rest)
  {
    var s := blanks + ['{'] + rest;
    assert s[|blanks|] == '{';
    assert forall j :: 0 <= j < |blanks| ==> s[j] == blanks[j];
    if |rest| > 0 && !JsonBlank(rest[0]) && rest[0] != '{' {
      var t := blanks + rest;
      assert t[|blanks|] == rest[0];
      assert forall j :: 0 <= j < |blanks| ==> t[j] == blanks[j];
    }
  }

  // ---------------------------------------------------------------------
  // the form

  /** The validation of the `POST /apply` form values. */
  predicate FormValid(thrA: real, thrV: real, tmsA: int, tmsV: int, smp: int, slp: int, logic: string): (ok: bool)
    ensures ok <==> Config.InRange(Config.Settings(thrA, thrV, tmsA, tmsV, smp, slp, Config.DefaultMode, logic))
  {
    var logicOk := logic == "any" || logic == "both";
    thrA >= 0.0 && thrV >= 0.0 && tmsA > 0 && tmsV > 0 &&
    smp >= 1 && smp <= 128 && slp >= 0 && slp <= 1000 && logicOk
  }

  /** The form accepts exactly the values `clamp_all` leaves alone,
      whatever the mode. */
  lemma FormValidIsInRange(thrA: real, thrV: real, tmsA: int, tmsV: int, smp: int, slp: int,
                           logic: string, mode: string)
    ensures var c := Config.Settings(thrA, thrV, tmsA, tmsV, smp, slp, mode, logic);
      && (FormValid(thrA, thrV, tmsA, tmsV, smp, slp, logic) <==> Config.InRange(c))
      && (FormValid(thrA, thrV, tmsA, tmsV, smp, slp, logic) ==> Config.Clamp(c) == c)
  {
  }

  /** The text C reads from the buffer `kv_get` filled for `key`, with a
      buffer of `size` characters. */
  function FieldText(body: string, key: string, size: nat): Option<string>
    requires |key| > 0 && size >= 1
  {
    match Lookup(CPrefix(body), key, size)
    case None => None
    case Some(v) => Some(CPrefix(v))
  }

  /** The trip logic field, which the handler decodes a second time. */
  function LogicText(body: string): Option<string>
  {
    match FieldText(body, "trip_logic", 16)
    case None => None
    case Some(v) => Some(CPrefix(UrlDecoded(v)))
  }

  /** The seven values of the form, after `atof`/`atoi`. */
  datatype FormValues = FormValues(thrA: real, tmsA: int, thrV: real, tmsV: int, smp: int, slp: int, logic: string)

  /** The form's values, or `None` when a field is missing. */
  function ParseForm(body: string, p: Config.NumberParser): Option<FormValues>
  {
    var thrA := FieldText(body, "threshold_A", 64);
    var tmsA := FieldText(body, "tms_A_ms", 32);
    var thrV := FieldText(body, "threshold_V", 64);
    var tmsV := FieldText(body, "tms_V_ms", 32);
    var smp := FieldText(body, "samples", 32);
    var slp := FieldText(body, "sleep_between_samples_ms", 32);
    var logic := LogicText(body);
    if thrA.Some? && tmsA.Some? && thrV.Some? && tmsV.Some? && smp.Some? && slp.Some? && logic.Some? then
      Some(FormValues(p.atof(thrA.value), p.atoi(tmsA.value), p.atof(thrV.value), p.atoi(tmsV.value),
                      p.atoi(smp.value), p.atoi(slp.value), logic.value))
    else None
  }

  /** Whether `POST /apply` with this body succeeds: a body of acceptable
      size, every field present, the values valid, the JSON text within its
      buffer and the file written. */
  predicate FormApplies(body: string, p: Config.NumberParser, jsonFits: bool, writeOk: bool)
  {
    0 < |body| <= MaxCfgBody && Acceptable(ParseForm(body, p)) && jsonFits && writeOk
  }

  /** Every field present and the values valid. */
  predicate Acceptable(form: Option<FormValues>)
  {
    form.Some? &&
    var f := form.value;
    FormValid(f.thrA, f.thrV, f.tmsA, f.tmsV, f.smp, f.slp, f.logic)
  }

  /** Any one of the seven fields missing makes the request fail, whatever
      else the body holds. */
  lemma MissingFieldRejected(body: string, p: Config.NumberParser, jsonFits: bool, writeOk: bool)
    requires || FieldText(body, "threshold_A", 64).None?
             || FieldText(body, "tms_A_ms", 32).None?
             || FieldText(body, "threshold_V", 64).None?
             || FieldText(body, "tms_V_ms", 32).None?
             || FieldText(body, "samples", 32).None?
             || FieldText(body, "sleep_between_samples_ms", 32).None?
             || LogicText(body).None?
    ensures !FormApplies(body, p, jsonFits, writeOk)
  {
  }

  /** `kv_get` into a fresh zeroed buffer of `size` characters, read back
      as a C string. */
  method ReadField(body: string, key: string, size: nat) returns (v: Option<string>)
    requires |key| > 0 && size >= 1
    ensures v == FieldText(body, key, size)
  {
    var out := new char[size](_ => '\0');
    var found, len := KvGet(CPrefix(body), key, out);
    if found {
      v := Some(CPrefix(out[..len]));
    } else {
      v := None;
    }
  }

  /** `kv_get` of the trip logic followed by the handler's second
      `urldecode` of the buffer. */
  method ReadLogic(body: string) returns (v: Option<string>)
    ensures v == LogicText(body)
  {
    var out := new char[16](_ => '\0');
    var found, len := KvGet(CPrefix(body), "trip_logic", out);
    if !found {
      return None;
    }
    var m := DecodeAgain(out, len);
    v := Some(CPrefix(out[..m]));
  }

  /** The handler's second `urldecode`, applied to the C string of length
      `len` that `kv_get` left in `out`. */
  method DecodeAgain(out: array<char>, len: nat) returns (m: nat)
    requires len < out.Length && out[len] == '\0'
    modifies out
    ensures m <= len
    ensures CPrefix(out[..m]) == CPrefix(UrlDecoded(CPrefix(old(out[..len]))))
  {
    assert out[..len + 1][..len] == out[..len];
    var n := StrLen(out);
    CPrefixOfTerminated(out[..], len);
    assert n <= len;
    assert out[..n] == CPrefix(out[..len]) by {
      if n < len {
        CPrefixAt(out[..len], n);
      } else {
        CPrefixAbsent(out[..len]);
      }
    }
    m := UrlDecode(out, n);
  }

  /** A terminator at `k` bounds the C prefix. */
  lemma CPrefixOfTerminated(s: string, k: nat)
    requires k < |s| && s[k] == '\0'
    ensures |CPrefix(s)| <= k
  {
  }

  /** The common tail of both handlers: `reload_flag = 1` and
      `conf_add_log(action, detail)`. */
  method Accept(flag: ReloadFlag, log: Ring, stamp: string, action: string, detail: string)
    requires log.Valid()
    modifies flag, log, log.slots
    ensures log.Valid() && flag.raised
    ensures log.Contents == Keep(old(log.Contents), MakeEntry(stamp, Some(action), Some(detail)))
  {
    flag.Raise();
    log.Append(stamp, Some(action), Some(detail));
  }

  /** The seven `kv_get` calls of the form handler and the parsing of
      their values; `None` when one of the fields is missing. */
  method ReadForm(body: string, p: Config.NumberParser) returns (form: Option<FormValues>)
    ensures form == ParseForm(body, p)
  {
    var thrA := ReadField(body, "threshold_A", 64);
    var tmsA := ReadField(body, "tms_A_ms", 32);
    var thrV := ReadField(body, "threshold_V", 64);
    var tmsV := ReadField(body, "tms_V_ms", 32);
    var smp := ReadField(body, "samples", 32);
    var slp := ReadField(body, "sleep_between_samples_ms", 32);
    var logic := ReadLogic(body);
    if !(thrA.Some? && tmsA.Some? && thrV.Some? && tmsV.Some? && smp.Some? && slp.Some? && logic.Some?) {
      return None;
    }
    form := Some(FormValues(p.atof(thrA.value), p.atoi(tmsA.value), p.atof(thrV.value), p.atoi(tmsV.value),
                            p.atoi(smp.value), p.atoi(slp.value), logic.value));
  }

  /** The `POST /apply` handler from the size check on: every field read
      with `kv_get`, the values parsed and validated, the JSON text built
      (`jsonFits` says whether it fit its 256-byte buffer) and written
      (`writeOk`), then the reload flag raised, `CONFIG_APPLY_EXT` logged
      with the `summary` text and a redirect sent. */
  method ApplyForm(body: string, p: Config.NumberParser, jsonFits: bool, writeOk: bool,
                   flag: ReloadFlag, log: Ring, stamp: string, summary: string) returns (status: int)
    requires log.Valid()
    modifies flag, log, log.slots
    ensures log.Valid()
    ensures status == (if FormApplies(body, p, jsonFits, writeOk) then Found else BadRequest)
    ensures flag.raised == (old(flag.raised) || status == Found)
    ensures log.Contents == if status == Found
                            then Keep(old(log.Contents), MakeEntry(stamp, Some("CONFIG_APPLY_EXT"), Some(summary)))
                            else old(log.Contents)
  {
    if |body| == 0 || |body| > MaxCfgBody {
      return BadRequest;
    }
    var form := ReadForm(body, p);
    if form.None? {
      return BadRequest;
    }
    var f := form.value;
    if !FormValid(f.thrA, f.thrV, f.tmsA, f.tmsV, f.smp, f.slp, f.logic) {
      return BadRequest;
    }
    if !jsonFits || !writeOk {
      return BadRequest;
    }
    Accept(flag, log, stamp, "CONFIG_APPLY_EXT", summary);
    status := Found;
  }

  // ---------------------------------------------------------------------
  // the file `POST /apply` writes, read back by `config_load`

  /** The quoted member names of that JSON text. */
  const ThresholdAKey: string := "\"threshold_A\""
  const TmsAKey: string := "\"tms_A_ms\""
  const ThresholdVKey: string := "\"threshold_V\""
  const TmsVKey: string := "\"tms_V_ms\""
  const SamplesKey: string := "\"samples\""
  const SleepKey: string := "\"sleep_between_samples_ms\""
  const TripLogicKey: string := "\"trip_logic\""

  /** One member line of the JSON text the form handler writes: two
      spaces, the quoted name `key`, `": "`, the rendered value and `tail`. */
  function MemberLine(key: string, text: string, tail: string): string
  {
    "  " + key + ": " + text + tail
  }

  /** The nine lines of that JSON text, with the numbers as `%.3f` and
      `%d` rendered them and the trip logic between quotes. */
  function AppliedJson(thrA: string, tmsA: string, thrV: string, tmsV: string,
                       smp: string, slp: string, logic: string): seq<string>
  {
    ["{\n",
     MemberLine(ThresholdAKey, thrA, ",\n"),
     MemberLine(TmsAKey, tmsA, ",\n"),
     MemberLine(ThresholdVKey, thrV, ",\n"),
     MemberLine(TmsVKey, tmsV, ",\n"),
     MemberLine(SamplesKey, smp, ",\n"),
     MemberLine(SleepKey, slp, ",\n"),
     MemberLine(TripLogicKey, "\"" + logic + "\"", "\n"),
     "}\n"]
  }

  /** The text `printf` gives a number: digits, a sign and a decimal point. */
  predicate Numeral(t: string)
  {
    |t| > 0 && forall k :: 0 <= k < |t| ==> t[k] in "-.0123456789"
  }

  /** A member value `strtok` and `trim` leave whole. */
  predicate PlainValue(t: string)
  {
    && |t| > 0 && !Config.IsSpace(t[0]) && !Config.IsSpace(t[|t| - 1])
    && forall k :: 0 <= k < |t| ==> t[k] !in Config.ValueDelims && t[k] != '\0'
  }

  /** A member name `strtok` and `trim` leave whole. */
  predicate PlainKey(key: string)
  {
    && |key| > 0 && !Config.IsSpace(key[0]) && !Config.IsSpace(key[|key| - 1])
    && forall k :: 0 <= k < |key| ==> key[k] != ':' && key[k] != '\0'
  }

  /** Where the pieces of a member line sit. */
  lemma MemberLinePieces(key: string, text: string, tail: string)
    ensures var line := MemberLine(key, text, tail);
            var colon := |key| + 2;
            && |line| == colon + 2 + |text| + |tail|
            && line[..colon] == "  " + key
            && line[colon + 1..colon + 2 + |text|] == " " + text
  {
  }

  /** The characters of a member line that `strtok` looks at. */
  lemma MemberLineChars(key: string, text: string, tail: string)
    requires PlainKey(key) && PlainValue(text)
    requires tail == ",\n" || tail == "\n"
    ensures var line := MemberLine(key, text, tail);
            var colon := |key| + 2;
            var e := colon + 2 + |text|;
            && e < |line| && line[colon] == ':' && line[e] in Config.ValueDelims
            && (forall k :: 0 <= k < |line| ==> line[k] != '\0')
            && (forall k :: 0 <= k < colon ==> line[k] != ':')
            && (forall k :: colon < k < e ==> line[k] !in Config.ValueDelims)
  {
    var line := MemberLine(key, text, tail);
    var colon := |key| + 2;
    var e := colon + 2 + |text|;
    forall k | 0 <= k < |line|
      ensures line[k] != '\0' && (k < colon ==> line[k] != ':') &&
              (colon < k < e ==> line[k] !in Config.ValueDelims)
    {
      if 2 <= k < colon {
        assert line[k] == key[k - 2];
      } else if colon + 2 <= k < e {
        assert line[k] == text[k - colon - 2];
      } else if e <= k {
        assert line[k] == tail[k - e];
      }
    }
    assert line[e] == tail[0];
  }

  /** A member line splits into the quoted name and the rendered value. */
  lemma MemberLineSplits(key: string, text: string, tail: string)
    requires PlainKey(key) && PlainValue(text)
    requires tail == ",\n" || tail == "\n"
    ensures Config.SplitLine(MemberLine(key, text, tail)) == Some((key, text))
  {
    var line := MemberLine(key, text, tail);
    var colon := |key| + 2;
    MemberLineChars(key, text, tail);
    MemberLinePieces(key, text, tail);
    Config.SplitPadded(line, colon, colon + 2 + |text|, key, text);
  }

  /** The line the loader reads for a member assigns the field its quoted
      name selects, with the rendered value. */
  lemma MemberLineField(key: string, text: string, tail: string, f: Config.Field)
    requires PlainKey(key) && PlainValue(text)
    requires tail == ",\n" || tail == "\n"
    requires Config.Target(key) == Some(f)
    ensures Config.LineField(MemberLine(key, text, tail)) == Some((f, text))
  {
    MemberLineSplits(key, text, tail);
  }

  /** A rendered number can stand as a member value. */
  lemma NumeralIsValue(t: string)
    requires Numeral(t)
    ensures PlainValue(t)
  {
  }

  /** The member names the form handler writes, with the field each one
      assigns when read back. */
  predicate WrittenName(key: string, f: Config.Field)
  {
    || (key == ThresholdAKey && f == Config.ThrA)
    || (key == TmsAKey && f == Config.TmsA)
    || (key == ThresholdVKey && f == Config.ThrV)
    || (key == TmsVKey && f == Config.TmsV)
    || (key == SamplesKey && f == Config.Samples)
    || (key == SleepKey && f == Config.Samples)
    || (key == TripLogicKey && f == Config.TripLogic)
  }

  /** What loading the JSON text written by an accepted form does: each
      threshold and trip time is assigned its rendered value, the trip
      logic is assigned, and `samples` ends up with the sleep interval,
      because the sleep member's name contains `samples` and comes later;
      the sleep interval and the mode are left as they were. */
  lemma ReloadOfAppliedForm(c: Config.Settings, p: Config.NumberParser,
                            thrA: string, tmsA: string, thrV: string, tmsV: string,
                            smp: string, slp: string, logic: string)
    requires Numeral(thrA) && Numeral(tmsA) && Numeral(thrV) && Numeral(tmsV)
    requires Numeral(smp) && Numeral(slp)
    requires |logic| <= Config.TripLogicMax
    requires forall k :: 0 <= k < |logic| ==> logic[k] !in Config.ValueDelims && logic[k] != '\0'
    ensures Config.ApplyLines(c, AppliedJson(thrA, tmsA, thrV, tmsV, smp, slp, logic), p) ==
            c.(thrA := p.atof(thrA), tmsA := p.atoi(tmsA), thrV := p.atof(thrV), tmsV := p.atoi(tmsV),
               samples := p.atoi(slp), tripLogic := logic)
  {
    var lines := AppliedJson(thrA, tmsA, thrV, tmsV, smp, slp, logic);
    var fs := FormFields(thrA, tmsA, thrV, tmsV, smp, slp, "\"" + logic + "\"");
    forall k | 0 <= k < |lines|
      ensures fs[k] == Config.LineField(lines[k])
    {
      AppliedJsonLine(thrA, tmsA, thrV, tmsV, smp, slp, logic, k);
    }
    Config.ApplyLinesByFields(c, lines, fs, p);
    QuotedLogic(logic);
    LoadFormFields(c, p, thrA, tmsA, thrV, tmsV, smp, slp, logic);
  }

  /** The selection the loader makes on line `k` of the JSON text. */
  lemma AppliedJsonLine(thrA: string, tmsA: string, thrV: string, tmsV: string,
                        smp: string, slp: string, logic: string, k: nat)
    requires Numeral(thrA) && Numeral(tmsA) && Numeral(thrV) && Numeral(tmsV)
    requires Numeral(smp) && Numeral(slp)
    requires |logic| <= Config.TripLogicMax
    requires forall k :: 0 <= k < |logic| ==> logic[k] !in Config.ValueDelims && logic[k] != '\0'
    requires k < 9
    ensures Config.LineField(AppliedJson(thrA, tmsA, thrV, tmsV, smp, slp, logic)[k]) ==
            FormFields(thrA, tmsA, thrV, tmsV, smp, slp, "\"" + logic + "\"")[k]
  {
    var lines := AppliedJson(thrA, tmsA, thrV, tmsV, smp, slp, logic);
    if k == 0 || k == 8 {
      Config.NoColonSkipped(lines[k]);
    } else if k == 1 {
      NumeralIsValue(thrA);
      JsonMember(ThresholdAKey, thrA, ",\n", Config.ThrA, lines[1]);
    } else if k == 2 {
      NumeralIsValue(tmsA);
      JsonMember(TmsAKey, tmsA, ",\n", Config.TmsA, lines[2]);
    } else if k == 3 {
      NumeralIsValue(thrV);
      JsonMember(ThresholdVKey, thrV, ",\n", Config.ThrV, lines[3]);
    } else if k == 4 {
      NumeralIsValue(tmsV);
      JsonMember(TmsVKey, tmsV, ",\n", Config.TmsV, lines[4]);
    } else if k == 5 {
      NumeralIsValue(smp);
      JsonMember(SamplesKey, smp, ",\n", Config.Samples, lines[5]);
    } else if k == 6 {
      NumeralIsValue(slp);
      JsonMember(SleepKey, slp, ",\n", Config.Samples, lines[6]);
    } else {
      QuotedIsValue(logic);
      JsonMember(TripLogicKey, "\"" + logic + "\"", "\n", Config.TripLogic, lines[7]);
    }
  }

  /** A line of the JSON text holding a written member selects the field
      `WrittenName` pairs with the member's name. */
  lemma JsonMember(key: string, text: string, tail: string, f: Config.Field, line: string)
    requires WrittenName(key, f) && PlainValue(text)
    requires tail == ",\n" || tail == "\n"
    requires line == MemberLine(key, text, tail)
    ensures Config.LineField(line) == Some((f, text))
  {
    QuotedNameTargets();
    MemberLineField(key, text, tail, f);
  }

  /** What the nine lines of the JSON text select when read back. */
  function FormFields(thrA: string, tmsA: string, thrV: string, tmsV: string,
                      smp: string, slp: string, quoted: string): seq<Option<(Config.Field, string)>>
  {
    [None, Some((Config.ThrA, thrA)), Some((Config.TmsA, tmsA)), Some((Config.ThrV, thrV)),
     Some((Config.TmsV, tmsV)), Some((Config.Samples, smp)), Some((Config.Samples, slp)),
     Some((Config.TripLogic, quoted)), None]
  }

  /** Applying those selections in order. */
  lemma LoadFormFields(c: Config.Settings, p: Config.NumberParser,
                       thrA: string, tmsA: string, thrV: string, tmsV: string,
                       smp: string, slp: string, logic: string)
    requires Truncate(Config.Unquote("\"" + logic + "\""), Config.TripLogicMax) == logic
    ensures Config.ApplyFields(c, FormFields(thrA, tmsA, thrV, tmsV, smp, slp, "\"" + logic + "\""), p) ==
            c.(thrA := p.atof(thrA), tmsA := p.atoi(tmsA), thrV := p.atof(thrV), tmsV := p.atoi(tmsV),
               samples := p.atoi(slp), tripLogic := logic)
  {
    var q := "\"" + logic + "\"";
    var x4 := c.(thrA := p.atof(thrA), tmsA := p.atoi(tmsA), thrV := p.atof(thrV), tmsV := p.atoi(tmsV));
    var f5 := [None, Some((Config.ThrA, thrA)), Some((Config.TmsA, tmsA)), Some((Config.ThrV, thrV)),
               Some((Config.TmsV, tmsV))];
    LoadChannelFields(c, p, thrA, tmsA, thrV, tmsV);
    LoadCommonFields(c, f5, p, x4, smp, slp, logic);
    assert f5 + [Some((Config.Samples, smp)), Some((Config.Samples, slp)), Some((Config.TripLogic, q)), None] ==
           FormFields(thrA, tmsA, thrV, tmsV, smp, slp, q);
  }

  /** The first five lines set the thresholds and delays of both channels. */
  lemma LoadChannelFields(c: Config.Settings, p: Config.NumberParser,
                          thrA: string, tmsA: string, thrV: string, tmsV: string)
    ensures Config.ApplyFields(c, [None, Some((Config.ThrA, thrA)), Some((Config.TmsA, tmsA)),
                                   Some((Config.ThrV, thrV)), Some((Config.TmsV, tmsV))], p) ==
            c.(thrA := p.atof(thrA), tmsA := p.atoi(tmsA), thrV := p.atof(thrV), tmsV := p.atoi(tmsV))
  {
    var x1 := c.(thrA := p.atof(thrA));
    var x2 := x1.(tmsA := p.atoi(tmsA));
    var x3 := x2.(thrV := p.atof(thrV));
    var x4 := x3.(tmsV := p.atoi(tmsV));
    var f1 := [None];
    var f2 := f1 + [Some((Config.ThrA, thrA))];
    var f3 := f2 + [Some((Config.TmsA, tmsA))];
    var f4 := f3 + [Some((Config.ThrV, thrV))];
    FieldsStep(c, [], None, p, c, c);
    assert [] + [None] == f1;
    FieldsStep(c, f1, Some((Config.ThrA, thrA)), p, c, x1);
    FieldsStep(c, f2, Some((Config.TmsA, tmsA)), p, x1, x2);
    FieldsStep(c, f3, Some((Config.ThrV, thrV)), p, x2, x3);
    FieldsStep(c, f4, Some((Config.TmsV, tmsV)), p, x3, x4);
    assert f4 + [Some((Config.TmsV, tmsV))] ==
           [None, Some((Config.ThrA, thrA)), Some((Config.TmsA, tmsA)), Some((Config.ThrV, thrV)), Some((Config.TmsV, tmsV))];
  }

  /** The last four lines: both sample lines assign `samples`, the second
      one last, then the trip logic. */
  lemma LoadCommonFields(c: Config.Settings, fs: seq<Option<(Config.Field, string)>>, p: Config.NumberParser,
                         before: Config.Settings, smp: string, slp: string, logic: string)
    requires Config.ApplyFields(c, fs, p) == before
    requires Truncate(Config.Unquote("\"" + logic + "\""), Config.TripLogicMax) == logic
    ensures Config.ApplyFields(c, fs + [Some((Config.Samples, smp)), Some((Config.Samples, slp)),
                                        Some((Config.TripLogic, "\"" + logic + "\"")), None], p) ==
            before.(samples := p.atoi(slp), tripLogic := logic)
  {
    var q := "\"" + logic + "\"";
    var x5 := before.(samples := p.atoi(smp));
    var x6 := before.(samples := p.atoi(slp));
    var x7 := x6.(tripLogic := logic);
    FieldsStep(c, fs, Some((Config.Samples, smp)), p, before, x5);
    var f6 := fs + [Some((Config.Samples, smp))];
    FieldsStep(c, f6, Some((Config.Samples, slp)), p, x5, x6);
    var f7 := f6 + [Some((Config.Samples, slp))];
    FieldsStep(c, f7, Some((Config.TripLogic, q)), p, x6, x7);
    var f8 := f7 + [Some((Config.TripLogic, q))];
    FieldsStep(c, f8, None, p, x7, x7);
    assert f8 + [None] == fs + [Some((Config.Samples, smp)), Some((Config.Samples, slp)), Some((Config.TripLogic, q)), None];
  }

  /** Applying one more selection. */
  lemma FieldsStep(c: Config.Settings, fs: seq<Option<(Config.Field, string)>>, fv: Option<(Config.Field, string)>,
                   p: Config.NumberParser, before: Config.Settings, after: Config.Settings)
    requires Config.ApplyFields(c, fs, p) == before
    requires Config.ApplyField(before, fv, p) == after
    ensures Config.ApplyFields(c, fs + [fv], p) == after
  {
    assert (fs + [fv])[..|fs|] == fs;
  }

  /** A trip logic that fits its store, written between quotes, is
      unquoted and stored as itself. */
  lemma QuotedLogic(logic: string)
    requires |logic| <= Config.TripLogicMax
    ensures Truncate(Config.Unquote("\"" + logic + "\""), Config.TripLogicMax) == logic
  {
    var q := "\"" + logic + "\"";
    assert Config.Unquote(q) == logic by {
      Config.UnquoteQuoted(logic);
      assert ['"'] + logic + ['"'] == q;
    }
  }

  /** A value holding no delimiter, written between quotes, is a member
      value. */
  lemma QuotedIsValue(logic: string)
    requires forall k :: 0 <= k < |logic| ==> logic[k] !in Config.ValueDelims && logic[k] != '\0'
    ensures PlainValue("\"" + logic + "\"")
  {
    var q := "\"" + logic + "\"";
    forall k | 0 <= k < |q|
      ensures q[k] !in Config.ValueDelims && q[k] != '\0'
    {
      if 0 < k < |q| - 1 {
        assert q[k] == logic[k - 1];
      }
    }
  }

  /** The field each quoted member name assigns when read back: every
      name its own, except the sleep interval, whose name contains
      `samples`. */
  lemma QuotedNameTargets()
    ensures Config.Target(ThresholdAKey) == Some(Config.ThrA)
    ensures Config.Target(TmsAKey) == Some(Config.TmsA)
    ensures Config.Target(ThresholdVKey) == Some(Config.ThrV)
    ensures Config.Target(TmsVKey) == Some(Config.TmsV)
    ensures Config.Target(SamplesKey) == Some(Config.Samples)
    ensures Config.Target(SleepKey) == Some(Config.Samples)
    ensures Config.Target(TripLogicKey) == Some(Config.TripLogic)
    ensures PlainKey(ThresholdAKey)
    ensures PlainKey(TmsAKey)
    ensures PlainKey(ThresholdVKey)
    ensures PlainKey(TmsVKey)
    ensures PlainKey(SamplesKey)
    ensures PlainKey(SleepKey)
    ensures PlainKey(TripLogicKey)
  {
    ThresholdAKeySpelling();
    ThresholdANameTarget(ThresholdAKey);
    ThresholdVKeySpelling();
    ThresholdVNameTarget(ThresholdVKey);
    TmsAKeySpelling();
    TmsANameTarget(TmsAKey);
    TmsVKeySpelling();
    TmsVNameTarget(TmsVKey);
    TripLogicKeySpelling();
    TripLogicNameTarget(TripLogicKey);
    SamplesKeySpelling();
    SamplesNameTarget(SamplesKey);
    SleepKeySpelling();
    SleepNameTarget(SleepKey);
  }

  lemma ThresholdANameTarget(key: string)
    requires Occurs(key, "threshold_A", 1)
    ensures Config.Target(key) == Some(Config.ThrA)
  {
    ContainsAt(key, "threshold_A", 1);
  }

  lemma ThresholdAKeySpelling()
    ensures PlainKey(ThresholdAKey)
    ensures Occurs(ThresholdAKey, "threshold_A", 1)
  {
  }

  lemma ThresholdVNameTarget(key: string)
    requires Occurs(key, "threshold_V", 1)
    requires forall k :: 0 <= k < |key| ==> key[k] != 'A'
    ensures Config.Target(key) == Some(Config.ThrV)
  {
    ContainsAt(key, "threshold_V", 1);
    AbsentChar(key, "threshold_A", 10);
  }

  lemma ThresholdVKeySpelling()
    ensures PlainKey(ThresholdVKey)
    ensures Occurs(ThresholdVKey, "threshold_V", 1)
    ensures forall k :: 0 <= k < |ThresholdVKey| ==> ThresholdVKey[k] != 'A'
  {
  }

  lemma TmsANameTarget(key: string)
    requires Occurs(key, "tms_A_ms", 1)
    requires forall k :: 0 <= k < |key| ==> key[k] != 'h'
    ensures Config.Target(key) == Some(Config.TmsA)
  {
    ContainsAt(key, "tms_A_ms", 1);
    AbsentChar(key, "threshold_A", 1);
    AbsentChar(key, "threshold_V", 1);
  }

  lemma TmsAKeySpelling()
    ensures PlainKey(TmsAKey)
    ensures Occurs(TmsAKey, "tms_A_ms", 1)
    ensures forall k :: 0 <= k < |TmsAKey| ==> TmsAKey[k] != 'h'
  {
  }

  lemma TmsVNameTarget(key: string)
    requires Occurs(key, "tms_V_ms", 1)
    requires forall k :: 0 <= k < |key| ==> key[k] != 'h' && key[k] != 'A'
    ensures Config.Target(key) == Some(Config.TmsV)
  {
    ContainsAt(key, "tms_V_ms", 1);
    AbsentChar(key, "threshold_A", 1);
    AbsentChar(key, "threshold_V", 1);
    AbsentChar(key, "tms_A_ms", 4);
  }

  lemma TmsVKeySpelling()
    ensures PlainKey(TmsVKey)
    ensures Occurs(TmsVKey, "tms_V_ms", 1)
    ensures forall k :: 0 <= k < |TmsVKey| ==> TmsVKey[k] != 'h' && TmsVKey[k] != 'A'
  {
  }

  lemma TripLogicNameTarget(key: string)
    requires Occurs(key, "trip_logic", 1)
    requires forall k :: 0 <= k < |key| ==> key[k] != 'h' && key[k] != 'A' && key[k] != 'V'
    ensures Config.Target(key) == Some(Config.TripLogic)
  {
    ContainsAt(key, "trip_logic", 1);
    AbsentChar(key, "threshold_A", 1);
    AbsentChar(key, "threshold_V", 1);
    AbsentChar(key, "tms_A_ms", 4);
    AbsentChar(key, "tms_V_ms", 4);
  }

  lemma TripLogicKeySpelling()
    ensures PlainKey(TripLogicKey)
    ensures Occurs(TripLogicKey, "trip_logic", 1)
    ensures forall k :: 0 <= k < |TripLogicKey| ==> TripLogicKey[k] != 'h' && TripLogicKey[k] != 'A' && TripLogicKey[k] != 'V'
  {
  }

  lemma SamplesNameTarget(key: string)
    requires Occurs(key, "samples", 1)
    requires forall k :: 0 <= k < |key| ==> key[k] != 'h' && key[k] != 'A' && key[k] != 'V' && key[k] != 'r'
    ensures Config.Target(key) == Some(Config.Samples)
  {
    ContainsAt(key, "samples", 1);
    AbsentChar(key, "threshold_A", 1);
    AbsentChar(key, "threshold_V", 1);
    AbsentChar(key, "tms_A_ms", 4);
    AbsentChar(key, "tms_V_ms", 4);
    AbsentChar(key, "trip_logic", 1);
  }

  lemma SamplesKeySpelling()
    ensures PlainKey(SamplesKey)
    ensures Occurs(SamplesKey, "samples", 1)
    ensures forall k :: 0 <= k < |SamplesKey| ==> SamplesKey[k] != 'h' && SamplesKey[k] != 'A' && SamplesKey[k] != 'V' && SamplesKey[k] != 'r'
  {
  }

  lemma SleepNameTarget(key: string)
    requires Occurs(key, "samples", 15)
    requires forall k :: 0 <= k < |key| ==> key[k] != 'h' && key[k] != 'A' && key[k] != 'V' && key[k] != 'r'
    ensures Config.Target(key) == Some(Config.Samples)
  {
    ContainsAt(key, "samples", 15);
    AbsentChar(key, "threshold_A", 1);
    AbsentChar(key, "threshold_V", 1);
    AbsentChar(key, "tms_A_ms", 4);
    AbsentChar(key, "tms_V_ms", 4);
    AbsentChar(key, "trip_logic", 1);
  }

  lemma SleepKeySpelling()
    ensures PlainKey(SleepKey)
    ensures Occurs(SleepKey, "samples", 15)
    ensures forall k :: 0 <= k < |SleepKey| ==> SleepKey[k] != 'h' && SleepKey[k] != 'A' && SleepKey[k] != 'V' && SleepKey[k] != 'r'
  {
  }

  /** The `POST /config` handler from the size check on: the body must
      look like a JSON object and be written (`writeOk`); then the reload
      flag is raised, `CONFIG_JSON` logged and 201 answered. */
  method PostConfig(body: string, writeOk: bool, flag: ReloadFlag, log: Ring, stamp: string)
    returns (status: int)
    requires log.Valid()
    modifies flag, log, log.slots
    ensures log.Valid()
    ensures status == (if 0 < |body| <= MaxCfgBody && OpensObject(body) && writeOk then Created else BadRequest)
    ensures flag.raised == (old(flag.raised) || status == Created)
    ensures log.Contents == if status == Created
                            then Keep(old(log.Contents), MakeEntry(stamp, Some("CONFIG_JSON"), Some("config updated via JSON")))
                            else old(log.Contents)
  {
    if |body| == 0 || |body| > MaxCfgBody {
      return BadRequest;
    }
    var json := IsProbablyJson(body);
    if !json || !writeOk {
      return BadRequest;
    }
    Accept(flag, log, stamp, "CONFIG_JSON", "config updated via JSON");
    status := Created;
  }
}
