/**
 * The libc string routines list.c applies to its heap buffers (`strlen`,
 * `strcpy`, `strcat`, and `snprintf` writing its text into a buffer),
 * modelled over `array<char>`. Every write is checked against the length of
 * the array, so a caller that verifies never overruns the buffer it
 * allocated.
 */
module CBuffers {
  import CFormat

  /** `buf`, read from index `at`, holds the C string `s`: its characters and
    * then a NUL. */
  predicate HoldsAt(buf: array<char>, at: nat, s: string)
    reads buf
  {
    '\0' !in s && at + |s| < buf.Length && buf[at..at + |s|] == s && buf[at + |s|] == '\0'
  }

  /** `strlen(buf + at)`: the distance to the first NUL. */
  method StrLen(buf: array<char>, at: nat) returns (n: nat)
    requires exists i :: at <= i < buf.Length && buf[i] == '\0'
    ensures at + n < buf.Length && buf[at + n] == '\0'
    ensures forall i :: at <= i < at + n ==> buf[i] != '\0'
  {
    n := 0;
    while buf[at + n] != '\0'
      invariant exists i :: at + n <= i < buf.Length && buf[i] == '\0'
      invariant forall i :: at <= i < at + n ==> buf[i] != '\0'
      decreases buf.Length - (at + n)
    {
      n := n + 1;
    }
  }

  /** The length `strlen` finds in a buffer holding `s` is |s|. */
  method StrLenOf(buf: array<char>, at: nat, ghost s: string) returns (n: nat)
    requires HoldsAt(buf, at, s)
    ensures n == |s|
  {
    n := StrLen(buf, at);
    assert forall i :: 0 <= i < |s| ==> buf[at + i] == s[i] != '\0';
  }

  /** `strcpy(buf + at, s)`; the caller must have room for `s` and its NUL. */
  method StrCpy(buf: array<char>, at: nat, s: string)
    requires '\0' !in s && at + |s| < buf.Length
    modifies buf
    ensures HoldsAt(buf, at, s)
    ensures buf[..at] == old(buf[..at])
    ensures buf[at + |s| + 1..] == old(buf[at + |s| + 1..])
  {
    var i := 0;
    while i < |s|
      invariant 0 <= i <= |s|
      invariant buf[at..at + i] == s[..i]
      invariant forall j :: 0 <= j < buf.Length && !(at <= j < at + i) ==> buf[j] == old(buf[j])
    {
      buf[at + i] := s[i];
      i := i + 1;
    }
    buf[at + |s|] := '\0';
  }

  /** `strcat(buf + at, s)` where `buf + at` holds `t`: finds the NUL ending
    * `t` and copies `s` and a NUL there. */
  method StrCat(buf: array<char>, at: nat, ghost t: string, s: string)
    requires HoldsAt(buf, at, t) && '\0' !in s
    requires at + |t| + |s| < buf.Length
    modifies buf
    ensures HoldsAt(buf, at, t + s)
    ensures buf[..at] == old(buf[..at])
    ensures buf[at + |t| + |s| + 1..] == old(buf[at + |t| + |s| + 1..])
  {
    var n := StrLenOf(buf, at, t);
    ghost var before := buf[at..at + n];
    StrCpy(buf, at + n, s);
    assert buf[..at + n] == old(buf[..at + n]);
    assert buf[at..at + n] == before;
    assert buf[at..at + |t + s|] == buf[at..at + n] + buf[at + n..at + n + |s|];
  }

  /** `snprintf(buf, size, ...)` whose complete formatted text is `s`. */
  method SnprintfInto(buf: array<char>, size: nat, s: string)
    requires 1 <= size <= buf.Length && '\0' !in s
    modifies buf
    ensures HoldsAt(buf, 0, CFormat.Snprintf(size, s))
    ensures buf[|CFormat.Snprintf(size, s)| + 1..] == old(buf[|CFormat.Snprintf(size, s)| + 1..])
  {
    var r := CFormat.Snprintf(size, s);
    assert forall i :: 0 <= i < |r| ==> r[i] == s[i];
    StrCpy(buf, 0, r);
  }
}
