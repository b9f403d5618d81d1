/** The engine's platform layer as the float node uses it: C strings held in
    fixed-size character buffers, the bounded dSprintf that fills them, and the
    scalar types F32 and U32. A `char` here stands for one byte of a C string. */
module Platform {

  /** U32, the engine's unsigned 32-bit integer. */
  type U32 = bv32

  /** F32, a single-precision float, held as its IEEE-754 bit pattern. Its
      numeric meaning (and so its decimal text) is not part of this model. */
  datatype F32 = F32(bits: bv32)

  /** 0.0f: the all-zero bit pattern. */
  const ZeroF32 := F32(0)

  /** No character of `s` is the terminating NUL. */
  predicate NoNul(s: string) {
    forall i | 0 <= i < |s| :: s[i] != '\0'
  }

  /** The text a C string can hold: anything without a NUL in it. */
  type CString = s: string | NoNul(s)

  /** dStrlen of a C string whose characters are `s`. */
  function StrLen(s: CString): (n: nat)
    ensures n == 0 <==> s == ""
  {
    |s|
  }

  /** The text that C's bounded sprintf leaves in a buffer of `size` bytes
      when the full formatted text is `s`: the longest prefix of `s` that
      still leaves room for the terminator. */
  function Bounded(size: nat, s: CString): (r: CString)
    requires size > 0
    ensures |r| < size && |r| <= |s| && r == s[..|r|]
    ensures |s| < size ==> r == s
    ensures |s| >= size ==> |r| == size - 1
  {
    if |s| < size then s else s[..size - 1]
  }

  /** The characters a `const char*` to the start of `b` designates: all of
      them up to the first NUL (all of `b` if it holds none). */
  function CStringAt(b: seq<char>): (r: CString)
    ensures |r| <= |b| && r == b[..|r|]
    ensures |r| < |b| ==> b[|r|] == '\0'
  {
    if |b| == 0 || b[0] == '\0' then "" else [b[0]] + CStringAt(b[1..])
  }

  /** Reading back a buffer that holds `s` followed by NUL gives `s`,
      whatever the buffer holds after the terminator. */
  lemma {:induction false} CStringAtTerminated(s: CString, rest: seq<char>)
    ensures CStringAt(s + ['\0'] + rest) == s
  {
    if s != "" {
      assert (s + ['\0'] + rest)[1..] == s[1..] + ['\0'] + rest;
      CStringAtTerminated(s[1..], rest);
    }
  }

  /** dSprintf(buf, buf.Length, ...) with `s` the fully formatted text: the
      part of `s` that fits is written to the front of `buf`, followed by the
      terminator. */
  method Sprintf(buf: array<char>, s: CString)
    requires buf.Length > 0
    modifies buf
    ensures var r := Bounded(buf.Length, s); buf[..|r|] == r && buf[|r|] == '\0'
    ensures var n := |Bounded(buf.Length, s)|; buf[n + 1..] == old(buf[n + 1..])
    ensures CStringAt(buf[..]) == Bounded(buf.Length, s)
  {
    var n := if |s| < buf.Length then |s| else buf.Length - 1;
    var i := 0;
    while i < n
      invariant 0 <= i <= n
      invariant buf[..i] == s[..i]
      invariant buf[i..] == old(buf[i..])
    {
      buf[i] := s[i];
      i := i + 1;
    }
    buf[n] := '\0';
    assert buf[..] == buf[..n] + ['\0'] + buf[n + 1..];
    CStringAtTerminated(buf[..n], buf[n + 1..]);
  }
}
