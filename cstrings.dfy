/**
 * C string vocabulary shared by the configuration service and the
 * configuration loader: a character buffer read up to its first `'\0'`,
 * and `strstr`.
 */
module CStrings {
  import opened Wrappers

  /** Whether `buf` holds a C string of length `len`. */
  ghost predicate CString(buf: array<char>, len: nat)
    reads buf
  {
    len < buf.Length && buf[len] == '\0' && forall i :: 0 <= i < len ==> buf[i] != '\0'
  }

  /** What C sees of the characters `s`: everything before the first `'\0'`. */
  function CPrefix(s: string): (r: string)
    ensures |r| <= |s| && r == s[..|r|]
    ensures forall i :: 0 <= i < |r| ==> r[i] != '\0'
    ensures |r| < |s| ==> s[|r|] == '\0'
  {
    if s == [] || s[0] == '\0' then [] else [s[0]] + CPrefix(s[1..])
  }

  /** `strlen` on a buffer holding a terminator somewhere. */
  method StrLen(buf: array<char>) returns (n: nat)
    requires '\0' in buf[..]
    ensures CString(buf, n) && buf[..n] == CPrefix(buf[..])
  {
    n := 0;
    while buf[n] != '\0'
      invariant n < buf.Length && forall i :: 0 <= i < n ==> buf[i] != '\0'
      invariant '\0' in buf[n..]
      decreases buf.Length - n
    {
      assert buf[n..][0] != '\0';
      assert buf[n..] == [buf[n]] + buf[n + 1..];
      n := n + 1;
    }
    CPrefixAt(buf[..], n);
  }

  /** A terminator at `n` after `n` non-terminators marks the C prefix. */
  lemma {:induction false} CPrefixAt(s: string, n: nat)
    requires n < |s| && s[n] == '\0' && forall i :: 0 <= i < n ==> s[i] != '\0'
    ensures CPrefix(s) == s[..n]
  {
    if n > 0 {
      CPrefixAt(s[1..], n - 1);
      assert s[..n] == [s[0]] + s[1..][..n - 1];
    }
  }

  /** Characters holding no terminator are read whole. */
  lemma CPrefixAbsent(s: string)
    requires forall k :: 0 <= k < |s| ==> s[k] != '\0'
    ensures CPrefix(s) == s
  {
  }

  /** `strncpy` of `s` into a buffer of `n + 1` characters whose last one is
      then set to the terminator: the first `n` characters are kept, and all
      of `s` when it is no longer than that. */
  function Truncate(s: string, n: nat): (r: string)
    ensures |r| == (if |s| <= n then |s| else n)
    ensures r == s[..|r|]
  {
    if |s| <= n then s else s[..n]
  }

  /** Whether `needle` occurs in `hay` at index `i`. */
  predicate Occurs(hay: string, needle: string, i: int)
  {
    0 <= i && i + |needle| <= |hay| && forall k :: 0 <= k < |needle| ==> hay[i + k] == needle[k]
  }

  /** `strstr` from index `p`: the first occurrence of `needle` at or after `p`. */
  function Find(hay: string, needle: string, p: nat): (r: Option<nat>)
    requires p <= |hay|
    ensures r.Some? ==> p <= r.value && Occurs(hay, needle, r.value)
    decreases |hay| - p
  {
    if Occurs(hay, needle, p) then Some(p)
    else if p == |hay| then None
    else Find(hay, needle, p + 1)
  }

  /** `Find` returns the first occurrence, and none only when there is none. */
  lemma {:induction false} FindIsFirst(hay: string, needle: string, p: nat)
    requires p <= |hay|
    ensures Find(hay, needle, p).Some? ==>
              forall i :: p <= i < Find(hay, needle, p).value ==> !Occurs(hay, needle, i)
    ensures Find(hay, needle, p).None? ==> forall i :: p <= i ==> !Occurs(hay, needle, i)
    decreases |hay| - p
  {
    if !Occurs(hay, needle, p) && p < |hay| {
      FindIsFirst(hay, needle, p + 1);
    }
  }

  /** `strstr(hay, needle) != NULL`. */
  predicate Contains(hay: string, needle: string)
  {
    Find(hay, needle, 0).Some?
  }

  /** An occurrence anywhere is found. */
  lemma ContainsAt(hay: string, needle: string, i: nat)
    requires Occurs(hay, needle, i)
    ensures Contains(hay, needle)
  {
    FindIsFirst(hay, needle, 0);
  }

  /** A string lacking one of the needle's characters does not contain it. */
  lemma AbsentChar(hay: string, needle: string, j: nat)
    requires j < |needle| && forall k :: 0 <= k < |hay| ==> hay[k] != needle[j]
    ensures !Contains(hay, needle)
  {
    forall i | 0 <= i <= |hay| - |needle|
      ensures !Occurs(hay, needle, i)
    {
      assert hay[i + j] != needle[j];
    }
  }

  /** A string containing `long` contains everything that occurs in `long`. */
  lemma ContainsInner(hay: string, long: string, short: string, off: nat)
    requires Occurs(long, short, off) && Contains(hay, long)
    ensures Contains(hay, short)
  {
    var i := Find(hay, long, 0).value;
    forall k | 0 <= k < |short|
      ensures hay[i + off + k] == short[k]
    {
      assert hay[i + (off + k)] == long[off + k];
    }
    ContainsAt(hay, short, i + off);
  }
}
