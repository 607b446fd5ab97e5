/**
 * The application/x-www-form-urlencoded helpers of the configuration
 * service (src/ArkStudio.c): `hexval`, the in-place `urldecode` (percent
 * decoding as in section 2.1 of RFC 3986, plus `+` as a space as in section
 * 5 of the WHATWG URL Standard) and `kv_get`.  C strings are modelled as a
 * character buffer holding the text followed by a `'\0'` terminator.
 */
module FormCodec {
  import opened Wrappers
  import opened CStrings

  /** `isxdigit` in the C locale. */
  predicate IsXDigit(c: char)
  {
    ('0' <= c <= '9') || ('a' <= c <= 'f') || ('A' <= c <= 'F')
  }

  /** `hexval`: the value of a hexadecimal digit, -1 for anything else. */
  function HexVal(c: char): (v: int)
    ensures -1 <= v < 16
    ensures v >= 0 <==> IsXDigit(c)
    ensures '0' <= c <= '9' ==> v == c as int - '0' as int
    ensures 'a' <= c <= 'f' ==> v == c as int - 'a' as int + 10
    ensures 'A' <= c <= 'F' ==> v == c as int - 'A' as int + 10
  {
    if '0' <= c <= '9' then c as int - '0' as int
    else if 'a' <= c <= 'f' then c as int - 'a' as int + 10
    else if 'A' <= c <= 'F' then c as int - 'A' as int + 10
    else -1
  }

  /** The character `(char)((hi << 4) | lo)` for two hexadecimal digit values. */
  function ByteChar(hi: int, lo: int): char
    requires 0 <= hi < 16 && 0 <= lo < 16
  {
    (hi * 16 + lo) as char
  }

  /** Whether `s` begins with a percent escape `%XY` that `urldecode` decodes. */
  predicate EscapeAt(s: string, i: nat)
  {
    i + 2 < |s| && s[i] == '%' && IsXDigit(s[i + 1]) && IsXDigit(s[i + 2])
  }

  /** The text `urldecode` leaves in its buffer: `+` becomes a space, a
      `%` followed by two hexadecimal digits becomes one character, and
      everything else (a lone `%` included) is copied.  Never longer than
      its input. */
  function UrlDecoded(s: string): (r: string)
    ensures |r| <= |s|
    decreases |s|
  {
    if s == [] then []
    else if s[0] == '+' then " " + UrlDecoded(s[1..])
    else if EscapeAt(s, 0) then [ByteChar(HexVal(s[1]), HexVal(s[2]))] + UrlDecoded(s[3..])
    else [s[0]] + UrlDecoded(s[1..])
  }

  /** Text without `+` or `%` decodes to itself. */
  lemma {:induction false} PlainTextUnchanged(s: string)
    requires forall i :: 0 <= i < |s| ==> s[i] != '+' && s[i] != '%'
    ensures UrlDecoded(s) == s
    decreases |s|
  {
    if s != [] {
      PlainTextUnchanged(s[1..]);
    }
  }

  /** Characters a form encoder sends unescaped. */
  predicate Unreserved(c: char)
  {
    ('0' <= c <= '9') || ('a' <= c <= 'z') || ('A' <= c <= 'Z') || c == '-' || c == '_' || c == '.' || c == '~'
  }

  /** The upper-case hexadecimal digit for `d`. */
  function HexDigit(d: int): (c: char)
    requires 0 <= d < 16
    ensures HexVal(c) == d
  {
    if d < 10 then (d + '0' as int) as char else (d - 10 + 'A' as int) as char
  }

  /** The form encoding of one character below 256. */
  function EncodeChar(c: char): string
    requires c as int < 256
  {
    if c == ' ' then "+"
    else if Unreserved(c) then [c]
    else ['%', HexDigit(c as int / 16), HexDigit(c as int % 16)]
  }

  /** A reference form encoder for text made of characters below 256. */
  function UrlEncoded(s: string): string
    requires forall i :: 0 <= i < |s| ==> s[i] as int < 256
    decreases |s|
  {
    if s == [] then [] else EncodeChar(s[0]) + UrlEncoded(s[1..])
  }

  /** Decoding undoes the encoding of one character. */
  lemma DecodeEncodedChar(c: char, t: string)
    requires c as int < 256
    ensures UrlDecoded(EncodeChar(c) + t) == [c] + UrlDecoded(t)
  {
    var e := EncodeChar(c) + t;
    if c == ' ' {
      assert e[1..] == t;
    } else if Unreserved(c) {
      assert e[1..] == t;
    } else {
      assert EscapeAt(e, 0);
      assert e[3..] == t;
    }
  }

  /** Round trip: decoding the form encoding of a text gives back the text. */
  lemma {:induction false} DecodeEncoded(s: string)
    requires forall i :: 0 <= i < |s| ==> s[i] as int < 256
    ensures UrlDecoded(UrlEncoded(s)) == s
    decreases |s|
  {
    if s != [] {
      DecodeEncodedChar(s[0], UrlEncoded(s[1..]));
      DecodeEncoded(s[1..]);
    }
  }

  /** The character decoding produces at index `r` of `s`, and the index
      just past what it consumes. */
  function DecodeHead(s: string, r: nat): (h: (char, nat))
    requires r < |s|
    ensures r < h.1 <= |s|
  {
    if s[r] == '+' then (' ', r + 1)
    else if EscapeAt(s, r) then (ByteChar(HexVal(s[r + 1]), HexVal(s[r + 2])), r + 3)
    else (s[r], r + 1)
  }

  /** Decoding from index `r` is the head character followed by decoding
      what follows it. */
  lemma DecodeFrom(s: string, r: nat)
    requires r < |s|
    ensures UrlDecoded(s[r..]) == [DecodeHead(s, r).0] + UrlDecoded(s[DecodeHead(s, r).1..])
  {
    var t := s[r..];
    assert t[1..] == s[r + 1..];
    if r + 3 <= |s| {
      assert t[3..] == s[r + 3..];
    }
    assert EscapeAt(s, r) <==> EscapeAt(t, 0);
  }

  /** The loop invariant of `UrlDecode` survives one step. */
  lemma DecodeStep(s: string, done: string, r: nat)
    requires r < |s|
    requires done + UrlDecoded(s[r..]) == UrlDecoded(s)
    ensures (done + [DecodeHead(s, r).0]) + UrlDecoded(s[DecodeHead(s, r).1..]) == UrlDecoded(s)
  {
    DecodeFrom(s, r);
    var h := DecodeHead(s, r);
    assert (done + [h.0]) + UrlDecoded(s[h.1..]) == done + ([h.0] + UrlDecoded(s[h.1..]));
  }

  /** The read side of one `urldecode` step at read index `r`: the
      character to write and the next read index.  `s` is the original text,
      which the buffer still holds from `r` on. */
  method ReadEscape(buf: array<char>, len: nat, r: nat, ghost s: string) returns (c: char, next: nat)
    requires len < buf.Length && buf[len] == '\0' && |s| == len && r < len
    requires forall j :: r <= j < len ==> buf[j] == s[j]
    ensures (c, next) == DecodeHead(s, r)
  {
    if buf[r] == '+' {
      c := ' ';
    } else if buf[r] == '%' && IsXDigit(buf[r + 1]) && IsXDigit(buf[r + 2]) {
      // Both digits passed the hex-digit test, so HexVal is non-negative
      // for each and the source's second test on `hi` and `lo` always holds.
      var hi := HexVal(buf[r + 1]);
      var lo := HexVal(buf[r + 2]);
      c := ByteChar(hi, lo);
      next := r + 3;
      return;
    } else {
      c := buf[r];
    }
    next := r + 1;
  }

  /** `urldecode`: rewrites the C string in `buf` in place with a read and a
      write index and returns the new length. */
  method UrlDecode(buf: array<char>, len: nat) returns (newLen: nat)
    requires CString(buf, len)
    modifies buf
    ensures newLen <= len
    ensures buf[..newLen] == UrlDecoded(old(buf[..len]))
    ensures buf[newLen] == '\0'
    ensures forall i :: len < i < buf.Length ==> buf[i] == old(buf[i])
  {
    ghost var s := buf[..len];
    ghost var done: string := [];
    var w, r := 0, 0;
    while buf[r] != '\0'
      invariant 0 <= w <= r <= len
      invariant forall j :: r <= j < len ==> buf[j] == s[j]
      invariant buf[len] == '\0'
      invariant forall j :: len < j < buf.Length ==> buf[j] == old(buf[j])
      invariant buf[..w] == done
      invariant done + UrlDecoded(s[r..]) == UrlDecoded(s)
      decreases len - r
    {
      DecodeStep(s, done, r);
      var c, next := ReadEscape(buf, len, r, s);
      buf[w] := c;
      done := done + [c];
      w, r := w + 1, next;
    }
    assert s[r..] == [];
    buf[w] := '\0';
    newLen := w;
  }

  /** The test `kv_get` applies to an occurrence: at the start of the body
      or right after `&`, and followed by `=`. */
  predicate KeyAt(body: string, key: string, i: int)
  {
    Occurs(body, key, i) && (i == 0 || body[i - 1] == '&') && i + |key| < |body| && body[i + |key|] == '='
  }

  /** The occurrence `kv_get`'s search loop settles on, scanning from `p`:
      each rejected occurrence makes it skip past the whole key. */
  function Scan(body: string, key: string, p: nat): (r: Option<nat>)
    requires |key| > 0 && p <= |body|
    ensures r.Some? ==> p <= r.value && KeyAt(body, key, r.value)
    decreases |body| - p
  {
    match Find(body, key, p)
    case None => None
    case Some(q) => if KeyAt(body, key, q) then Some(q) else Scan(body, key, q + |key|)
  }

  /** One round of the search loop of `kv_get`. */
  lemma ScanUnfold(body: string, key: string, p: nat)
    requires |key| > 0 && p <= |body|
    ensures Find(body, key, p).None? ==> Scan(body, key, p).None?
    ensures Find(body, key, p).Some? && KeyAt(body, key, Find(body, key, p).value) ==>
              Scan(body, key, p) == Find(body, key, p)
    ensures Find(body, key, p).Some? && !KeyAt(body, key, Find(body, key, p).value) ==>
              Scan(body, key, p) == Scan(body, key, Find(body, key, p).value + |key|)
  {
  }

  /** A rejected occurrence at `q`: the scan resumes past the key. */
  lemma ScanSkip(body: string, key: string, p: nat, q: nat)
    requires |key| > 0 && p <= |body|
    requires Find(body, key, p) == Some(q) && !KeyAt(body, key, q)
    ensures q + |key| <= |body|
    ensures Scan(body, key, p) == Scan(body, key, q + |key|)
  {
  }

  /** For a key without `&` (every key the service asks for), skipping past
      a rejected occurrence loses nothing: the scan finds the first index at
      which the key stands as a whole field name, and finds none only when
      there is none. */
  lemma {:induction false} ScanFindsFirstField(body: string, key: string, p: nat)
    requires |key| > 0 && p <= |body|
    requires forall j :: 0 <= j < |key| ==> key[j] != '&'
    ensures Scan(body, key, p).Some? ==>
              forall i :: p <= i < Scan(body, key, p).value ==> !KeyAt(body, key, i)
    ensures Scan(body, key, p).None? ==> forall i :: p <= i ==> !KeyAt(body, key, i)
    decreases |body| - p
  {
    var f := Find(body, key, p);
    FindIsFirst(body, key, p);
    ScanUnfold(body, key, p);
    if f.Some? && !KeyAt(body, key, f.value) {
      var q := f.value;
      ScanSkip(body, key, p, q);
      ScanFindsFirstField(body, key, q + |key|);
      var s := Scan(body, key, p);
      var stop := if s.Some? then s.value else |body| + 1;
      forall i | p <= i < stop
        ensures !KeyAt(body, key, i)
      {
        if i < q {
          assert !Occurs(body, key, i);
        } else if q < i < q + |key| {
          InsideKeyNotField(body, key, q, i);
        } else if q + |key| <= i {
          assert s == Scan(body, key, q + |key|);
        }
      }
      if s.None? {
        forall i | p <= i
          ensures !KeyAt(body, key, i)
        {
          if i <= |body| {
            assert p <= i < stop;
          }
        }
      }
    }
  }

  /** An index strictly inside an occurrence of a key without `&` cannot
      start the key as a field name: the character before it is part of
      the key. */
  lemma InsideKeyNotField(body: string, key: string, q: nat, i: nat)
    requires Occurs(body, key, q) && q < i < q + |key|
    requires forall j :: 0 <= j < |key| ==> key[j] != '&'
    ensures !KeyAt(body, key, i)
  {
    assert body[q + (i - 1 - q)] == key[i - 1 - q];
  }

  /** The end of the value starting at `v`: the next `&`, or the end of the body. */
  function ValueEnd(body: string, v: nat): (e: nat)
    requires v <= |body|
    ensures v <= e <= |body|
    ensures forall j :: v <= j < e ==> body[j] != '&'
    ensures e < |body| ==> body[e] == '&'
    decreases |body| - v
  {
    if v == |body| || body[v] == '&' then v else ValueEnd(body, v + 1)
  }

  /** The raw value `kv_get` copies from index `v`: up to the next `&` or
      the end of the body, and at most `cap` characters. */
  function RawValue(body: string, v: nat, cap: nat): (raw: string)
    requires v <= |body|
    ensures |raw| <= cap && forall j :: 0 <= j < |raw| ==> raw[j] != '&'
  {
    var e := ValueEnd(body, v);
    if e - v <= cap then body[v..e] else body[v..v + cap]
  }

  /** The raw value is the text of the body from `v` on, cut at the first
      `&`, at the end of the body, or after `cap` characters, whichever
      comes first. */
  lemma RawValueIsCutValue(body: string, v: nat, cap: nat)
    requires v <= |body|
    ensures var raw := RawValue(body, v, cap);
              && v + |raw| <= |body| && raw == body[v..v + |raw|]
              && (forall j :: v <= j < v + |raw| ==> body[j] != '&')
              && (|raw| < cap ==> v + |raw| == |body| || body[v + |raw|] == '&')
  {
  }

  /** The value read from index `v` into a buffer of `cap + 1`
      characters, decoded. */
  function FieldValue(body: string, v: nat, cap: nat): string
    requires v <= |body|
  {
    UrlDecoded(RawValue(body, v, cap))
  }

  /** What `kv_get` reports for `key` with an output buffer of `outsz`
      bytes: nothing when the key is absent as a field name, otherwise the
      value up to the next `&`, cut to `outsz - 1` characters, then decoded. */
  function Lookup(body: string, key: string, outsz: nat): Option<string>
    requires |key| > 0 && outsz >= 1
  {
    LookupFrom(body, key, outsz, Scan(body, key, 0))
  }

  /** `Lookup` once the search has settled on `s`. */
  function LookupFrom(body: string, key: string, outsz: nat, s: Option<nat>): Option<string>
    requires |key| > 0 && outsz >= 1
    requires s.Some? ==> KeyAt(body, key, s.value)
  {
    if s.None? then None else Some(FieldValue(body, s.value + |key| + 1, outsz - 1))
  }
  /** The copy loop of `kv_get`: copies the value starting at `v` into
      `out`, leaving a C string there. */
  method CopyValue(body: string, v: nat, out: array<char>) returns (n: nat)
    requires v <= |body| && out.Length >= 1
    requires forall j :: 0 <= j < |body| ==> body[j] != '\0'
    modifies out
    ensures CString(out, n)
    ensures out[..n] == RawValue(body, v, out.Length - 1)
  {
    n := 0;
    while v + n < |body| && body[v + n] != '&' && n + 1 < out.Length
      invariant 0 <= n < out.Length && v + n <= |body|
      invariant out[..n] == body[v..v + n]
      invariant forall j :: v <= j < v + n ==> body[j] != '&'
    {
      out[n] := body[v + n];
      n := n + 1;
    }
    out[n] := '\0';
    assert out[..n] == body[v..v + n];
  }

  /** The found branch of `kv_get`: the copy into `out`, then the decoding
      in place. */
  method CopyDecoded(body: string, v: nat, out: array<char>) returns (len: nat)
    requires v <= |body| && out.Length >= 1
    requires forall j :: 0 <= j < |body| ==> body[j] != '\0'
    modifies out
    ensures len < out.Length && out[len] == '\0'
    ensures out[..len] == FieldValue(body, v, out.Length - 1)
  {
    var n := CopyValue(body, v, out);
    len := UrlDecode(out, n);
  }

  /** For a key without `&`, `kv_get` finds a field exactly when the key
      stands somewhere as a field name, and then reads the value of the
      first such field. */
  lemma LookupFindsFirstField(body: string, key: string, outsz: nat)
    requires |key| > 0 && outsz >= 1
    requires forall j :: 0 <= j < |key| ==> key[j] != '&'
    ensures Lookup(body, key, outsz).None? <==> forall i :: !KeyAt(body, key, i)
    ensures Lookup(body, key, outsz).Some? ==>
              exists i :: && KeyAt(body, key, i)
                          && (forall j :: 0 <= j < i ==> !KeyAt(body, key, j))
                          && Lookup(body, key, outsz).value == FieldValue(body, i + |key| + 1, outsz - 1)
  {
    ScanFindsFirstField(body, key, 0);
    var s := Scan(body, key, 0);
    var r := Lookup(body, key, outsz);
    if s.Some? {
      var q := s.value;
      assert KeyAt(body, key, q);
      assert r.Some? && r.value == FieldValue(body, q + |key| + 1, outsz - 1);
      assert forall j :: 0 <= j < q ==> !KeyAt(body, key, j);
    } else {
      assert r.None?;
    }
  }

  /** The search loop of `kv_get`: `strstr` from the last position, an
      occurrence accepted by the field test, or a skip past the key. */
  method SearchField(body: string, key: string) returns (hit: Option<nat>)
    requires |key| > 0
    ensures hit == Scan(body, key, 0)
  {
    var from := 0;
    ghost var goal := Scan(body, key, 0);
    while true
      invariant from <= |body|
      invariant goal == Scan(body, key, from)
      decreases |body| - from
    {
      var found := Find(body, key, from);
      if found.None? {
        ScanUnfold(body, key, from);
        return None;
      }
      var q := found.value;
      if KeyAt(body, key, q) {
        ScanUnfold(body, key, from);
        return Some(q);
      }
      ScanSkip(body, key, from, q);
      from := q + |key|;
    }
  }

  /** `kv_get`: searches `body` for `key` with `strstr`, copies the value
      into `out` and decodes it there.  Returns whether the key was found and
      the length of the decoded C string left in `out`. */
  method KvGet(body: string, key: string, out: array<char>) returns (found: bool, len: nat)
    requires |key| > 0 && out.Length >= 1
    requires forall j :: 0 <= j < |body| ==> body[j] != '\0'
    modifies out
    ensures found <==> Lookup(body, key, out.Length).Some?
    ensures found ==> len < out.Length && out[len] == '\0' && out[..len] == Lookup(body, key, out.Length).value
    ensures !found ==> out[..] == old(out[..])
  {
    var hit := SearchField(body, key);
    if hit.None? {
      return false, 0;
    }
    assert KeyAt(body, key, hit.value);
    var v := hit.value + |key| + 1;
    ghost var answer := Lookup(body, key, out.Length);
    assert answer.Some? && answer.value == FieldValue(body, v, out.Length - 1);
    len := CopyDecoded(body, v, out);
    found := true;
  }
}
