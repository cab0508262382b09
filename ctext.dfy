/**
  Models of the C library routines the gateway leans on, over strings of
  single-byte characters: the C-locale character classes, tolower and the
  case-insensitive comparisons, strstr, strlen on a buffer, the "%d"
  conversion of printf and the truncation that snprintf performs.
*/
module CText {

  /** isspace() in the C locale. */
  predicate IsSpace(c: char) {
    c == ' ' || c == '\t' || c == '\n' || c == '\U{B}' || c == '\U{C}' || c == '\r'
  }

  /** isdigit(). */
  predicate IsDigit(c: char) {
    '0' <= c <= '9'
  }

  predicate AllDigits(s: string) {
    forall i :: 0 <= i < |s| ==> IsDigit(s[i])
  }

  /** tolower() in the C locale: only the ASCII capitals change. */
  function ToLower(c: char): char {
    if 'A' <= c <= 'Z' then (c as int + 32) as char else c
  }

  /** strcasecmp(a, b) == 0 */
  predicate EqualsIgnoringCase(a: string, b: string) {
    |a| == |b| && forall i :: 0 <= i < |a| ==> ToLower(a[i]) == ToLower(b[i])
  }

  /** strncasecmp(s, prefix, |prefix|) == 0: a shorter s meets its terminating
      NUL where prefix still has a character, so it never matches. */
  predicate StartsWithIgnoringCase(s: string, prefix: string) {
    |prefix| <= |s| && EqualsIgnoringCase(s[..|prefix|], prefix)
  }

  /** pat occurs in s starting at index i. */
  predicate OccursAt(s: string, pat: string, i: nat) {
    i + |pat| <= |s| && s[i..i + |pat|] == pat
  }

  /** strstr(s, pat) != NULL */
  predicate Contains(s: string, pat: string) {
    exists i :: 0 <= i <= |s| && OccursAt(s, pat, i)
  }

  /** A pattern longer than the text cannot occur in it. */
  lemma {:induction false} NoRoomNoMatch(s: string, pat: string)
    requires |s| < |pat|
    ensures !Contains(s, pat)
  {
  }

  /** A string contains every piece it was assembled from. */
  lemma {:induction false} ContainsMiddle(a: string, pat: string, b: string)
    ensures Contains(a + pat + b, pat)
  {
    var s := a + pat + b;
    assert s[|a|..|a| + |pat|] == pat;
    assert OccursAt(s, pat, |a|);
  }

  /** Text added after a string does not hide what it contains. */
  lemma {:induction false} ContainsPrefix(a: string, b: string, pat: string)
    requires Contains(a, pat)
    ensures Contains(a + b, pat)
  {
    var i :| 0 <= i <= |a| && OccursAt(a, pat, i);
    assert (a + b)[i..i + |pat|] == a[i..i + |pat|];
    assert OccursAt(a + b, pat, i);
  }

  /** The C string a character buffer holds: everything before its first NUL. */
  function CStr(s: string): (r: string)
    ensures r <= s && '\0' !in r
    ensures |r| < |s| ==> s[|r|] == '\0'
  {
    if s == [] || s[0] == '\0' then [] else [s[0]] + CStr(s[1..])
  }

  /** What snprintf(buf, size, ...) leaves in buf when the formatted text is s:
      the first size - 1 characters at most, then the terminating NUL. */
  function Clip(s: string, size: nat): (r: string)
    requires size >= 1
    ensures r <= s
    ensures |r| == if |s| < size then |s| else size - 1
  {
    if |s| < size then s else s[..size - 1]
  }

  /** Appending with snprintf(&out[len], size - len, ...) to a buffer that already
      holds out (len = strlen(out) < size) leaves exactly what one snprintf of the
      whole text into the whole buffer would leave. */
  lemma {:induction false} ClipAppend(out: string, piece: string, size: nat)
    requires |out| < size
    ensures out + Clip(piece, size - |out|) == Clip(out + piece, size)
  {
    if |out + piece| >= size {
      assert (out + piece)[..size - 1] == out + piece[..size - 1 - |out|];
    }
  }

  /** snprintf(&out[strlen(out)], size - strlen(out), "%s", piece): the buffer
      afterwards. */
  function SnAppend(out: string, piece: string, size: nat): string
    requires |out| < size
  {
    out + Clip(piece, size - |out|)
  }

  /** Appending piece by piece to a buffer of the given size leaves what one
      snprintf of all the pieces together would: once the buffer is full,
      later pieces are dropped. */
  lemma {:induction false} SnAppendClip(a: string, piece: string, size: nat)
    requires size >= 1
    ensures |Clip(a, size)| < size
    ensures SnAppend(Clip(a, size), piece, size) == Clip(a + piece, size)
  {
    var out := Clip(a, size);
    ClipAppend(out, piece, size);
    if |a| >= size {
      assert (out + piece)[..size - 1] == out;
      assert (a + piece)[..size - 1] == a[..size - 1];
    }
  }

  /** The same, for a buffer that holds a fixed head followed by text that
      grows. */
  lemma {:induction false} SnAppendAfter(head: string, text: string, piece: string, size: nat)
    requires size >= 1
    ensures |Clip(head + text, size)| < size
    ensures SnAppend(Clip(head + text, size), piece, size) == Clip(head + (text + piece), size)
  {
    SnAppendClip(head + text, piece, size);
    assert head + text + piece == head + (text + piece);
  }

  function DigitChar(d: nat): (c: char)
    requires d < 10
    ensures IsDigit(c)
  {
    ('0' as int + d) as char
  }

  /** The number a run of decimal digits denotes (meaningful when every
      character is a digit). */
  function DigitsValue(s: string): int
    decreases |s|
  {
    if s == [] then 0 else 10 * DigitsValue(s[..|s| - 1]) + (s[|s| - 1] as int - '0' as int)
  }

  /** printf("%u", n): the shortest decimal numeral of n. */
  function NatToString(n: nat): (r: string)
    ensures r != [] && AllDigits(r)
    ensures DigitsValue(r) == n
    ensures |r| > 1 ==> r[0] != '0'
    ensures n < 10 ==> |r| == 1
    ensures n < 100 ==> |r| <= 2
  {
    if n < 10 then [DigitChar(n)]
    else
      var r := NatToString(n / 10) + [DigitChar(n % 10)];
      assert r[..|r| - 1] == NatToString(n / 10);
      r
  }

  /** printf("%d", n) */
  function IntToString(n: int): (r: string)
    ensures r != []
    ensures r[0] == '-' <==> n < 0
    ensures IsDigit(r[0]) || r[0] == '-'
    ensures n >= 0 ==> AllDigits(r)
  {
    if n < 0 then "-" + NatToString(-n) else NatToString(n)
  }
}
