/**
  A model of sscanf over the conversions the gateway's formats use.  Each
  conversion becomes a reader that takes the front of the input and yields
  the value it stores with the input left after it, or None where sscanf
  would stop.  The gateway only ever compares the count sscanf returns with
  the number of conversions in the whole format, so a format is modelled by
  chaining its readers: it yields its values exactly when every conversion
  succeeds.
*/
module Scan {
  import opened Wrappers
  import opened CText

  /** The character classes of %d, %s and the bracket conversions. */
  datatype CharClass =
    | Spaces                      // isspace
    | Digits                      // isdigit
    | NonSpaces                   // what %s reads
    | Among(chars: set<char>)     // %[...]
    | NotAmong(chars: set<char>)  // %[^...]

  predicate InClass(c: char, k: CharClass) {
    match k
    case Spaces => IsSpace(c)
    case Digits => IsDigit(c)
    case NonSpaces => !IsSpace(c)
    case Among(m) => c in m
    case NotAmong(m) => c !in m
  }

  /** The longest prefix of s whose characters all lie in k. */
  function Span(s: string, k: CharClass): (w: string)
    ensures w <= s
    ensures forall i :: 0 <= i < |w| ==> InClass(w[i], k)
    ensures |w| < |s| ==> !InClass(s[|w|], k)
  {
    if s != [] && InClass(s[0], k) then [s[0]] + Span(s[1..], k) else []
  }

  /** The input once leading white space is skipped. */
  function Skip(s: string): string {
    s[|Span(s, Spaces)|..]
  }

  /** Literal format text t, from its i-th character on, matched against the
      front of s: white space in t skips any run of white space, any other
      character must come next.  The input left after it, or None at the
      first mismatch. */
  function ReadText(t: string, i: nat, s: string): Option<string>
    decreases |t| - i
  {
    if i >= |t| then Some(s)
    else if IsSpace(t[i]) then ReadText(t, i + 1, Skip(s))
    else if s != [] && s[0] == t[i] then ReadText(t, i + 1, s[1..])
    else None
  }

  /** The digits of %d once its sign is taken: at least one digit. */
  function ReadUnsigned(u: string): Option<(int, string)> {
    var ds := Span(u, Digits);
    if ds == [] then None else Some((DigitsValue(ds), u[|ds|..]))
  }

  function Negated(r: Option<(int, string)>): Option<(int, string)> {
    if r.None? then None else Some((0 - r.value.0, r.value.1))
  }

  /** %d: optional white space, an optional sign, at least one digit. */
  function ReadInt(s: string): Option<(int, string)> {
    var t := Skip(s);
    if t != [] && t[0] == '-' then Negated(ReadUnsigned(t[1..]))
    else if t != [] && t[0] == '+' then ReadUnsigned(t[1..])
    else ReadUnsigned(t)
  }

  /** %s: optional white space, then a nonempty run of other characters. */
  function ReadWord(s: string): Option<(string, string)> {
    var t := Skip(s);
    var w := Span(t, NonSpaces);
    if w == [] then None else Some((w, t[|w|..]))
  }

  /** %[...] (and %*[...], which reads the same but stores nothing): a
      nonempty run of the class, with no white space skipped before it. */
  function ReadRun(s: string, k: CharClass): Option<(string, string)> {
    var w := Span(s, k);
    if w == [] then None else Some((w, s[|w|..]))
  }

  // ---------------------------------------------------------------------
  // How each reader fares on input built to match it.

  /** A span stops exactly where its class does. */
  lemma {:induction false} SpanExact(w: string, rest: string, k: CharClass)
    requires forall i :: 0 <= i < |w| ==> InClass(w[i], k)
    requires rest == [] || !InClass(rest[0], k)
    ensures Span(w + rest, k) == w
  {
    if w != [] {
      assert (w + rest)[1..] == w[1..] + rest;
      SpanExact(w[1..], rest, k);
    }
  }

  lemma {:induction false} SkipNothing(s: string)
    requires s == [] || !IsSpace(s[0])
    ensures Skip(s) == s
  {
  }

  /** From its i-th character on, every white-space character of t, except
      perhaps the last, is followed by a character that is not white space. */
  predicate SpacedFrom(t: string, i: nat)
    decreases |t| - i
  {
    i + 1 >= |t| || ((!IsSpace(t[i]) || !IsSpace(t[i + 1])) && SpacedFrom(t, i + 1))
  }

  /** Text in which no two white-space characters are adjacent is spaced. */
  lemma {:induction false} SpacedWhere(t: string, i: nat)
    requires i <= |t|
    requires forall k :: i <= k < |t| - 1 ==> !IsSpace(t[k]) || !IsSpace(t[k + 1])
    ensures SpacedFrom(t, i)
    decreases |t| - i
  {
    if i + 1 < |t| {
      SpacedWhere(t, i + 1);
    }
  }

  /** Literal text t followed in the input by rest, such that each
      white-space character of t is followed there by one that is not: the
      white space of the format then consumes exactly the white space the
      text has. */
  predicate SingleSpaced(t: string, rest: string) {
    SpacedFrom(t, 0) && (t == [] || !IsSpace(t[|t| - 1]) || rest == [] || !IsSpace(rest[0]))
  }

  lemma {:induction false} ReadTextFrom(t: string, i: nat, rest: string)
    requires i <= |t| && SpacedFrom(t, i)
    requires t == [] || !IsSpace(t[|t| - 1]) || rest == [] || !IsSpace(rest[0])
    ensures ReadText(t, i, t[i..] + rest) == Some(rest)
    decreases |t| - i
  {
    if i < |t| {
      var s := t[i..] + rest;
      var tail := t[i + 1..] + rest;
      assert s == [t[i]] + tail;
      assert SpacedFrom(t, i + 1);
      if IsSpace(t[i]) {
        assert tail == [] || !IsSpace(tail[0]) by {
          if i + 1 < |t| { assert tail[0] == t[i + 1]; } else { assert tail == rest; }
        }
        SpanExact([t[i]], tail, Spaces);
        assert Skip(s) == tail;
      }
      ReadTextFrom(t, i + 1, rest);
    } else {
      assert t[i..] + rest == rest;
    }
  }

  /** Literal format text matches the same text in the input. */
  lemma {:induction false} ReadTextBack(t: string, rest: string)
    requires SingleSpaced(t, rest)
    ensures ReadText(t, 0, t + rest) == Some(rest)
  {
    ReadTextFrom(t, 0, rest);
    assert t[0..] == t;
  }

  /** Literal text that opens with a character the input lacks stops the scan. */
  lemma {:induction false} ReadTextFails(t: string, s: string)
    requires t != [] && !IsSpace(t[0])
    requires s == [] || s[0] != t[0]
    ensures ReadText(t, 0, s) == None
  {
  }

  /** A run of digits followed by a non-digit is read as its value. */
  lemma {:induction false} UnsignedDigits(ds: string, rest: string)
    requires ds != [] && AllDigits(ds)
    requires rest == [] || !IsDigit(rest[0])
    ensures ReadUnsigned(ds + rest) == Some((DigitsValue(ds), rest))
  {
    SpanExact(ds, rest, Digits);
    assert (ds + rest)[|ds|..] == rest;
  }

  /** A run of digits followed by a non-digit is read by %d as its value. */
  lemma {:induction false} ReadDigits(ds: string, rest: string)
    requires ds != [] && AllDigits(ds)
    requires rest == [] || !IsDigit(rest[0])
    ensures ReadInt(ds + rest) == Some((DigitsValue(ds), rest))
  {
    SkipNothing(ds + rest);
    UnsignedDigits(ds, rest);
  }

  /** A leading minus sign negates whatever the digits after it read as. */
  lemma {:induction false} ReadMinus(u: string)
    ensures ReadInt(['-'] + u) == Negated(ReadUnsigned(u))
  {
    var s := ['-'] + u;
    SkipNothing(s);
    assert s[1..] == u;
  }

  lemma {:induction false} ReadMinusOf(u: string, n: int, rest: string)
    requires ReadUnsigned(u) == Some((n, rest))
    ensures ReadInt(['-'] + u) == Some((0 - n, rest))
  {
    ReadMinus(u);
  }

  /** A minus sign and a run of digits is read by %d as the negated value. */
  lemma {:induction false} ReadNegative(ds: string, rest: string)
    requires ds != [] && AllDigits(ds)
    requires rest == [] || !IsDigit(rest[0])
    ensures ReadInt(['-'] + (ds + rest)) == Some((0 - DigitsValue(ds), rest))
  {
    UnsignedDigits(ds, rest);
    ReadMinusOf(ds + rest, DigitsValue(ds), rest);
  }

  /** %d reads back what printf("%d") wrote: the round trip of the integer
      conversion, negative numbers included. */
  lemma {:induction false} ReadIntBack(n: int, rest: string)
    requires rest == [] || !IsDigit(rest[0])
    ensures ReadInt(IntToString(n) + rest) == Some((n, rest))
  {
    if n >= 0 {
      ReadDigits(NatToString(n), rest);
    } else {
      var ds := NatToString(-n);
      assert IntToString(n) + rest == ['-'] + (ds + rest) by {
        assert IntToString(n) == ['-'] + ds;
      }
      ReadNegative(ds, rest);
    }
  }

  /** %s reads one word that ends at white space or at the end of the line. */
  lemma {:induction false} ReadWordBack(w: string, rest: string)
    requires w != [] && forall i :: 0 <= i < |w| ==> !IsSpace(w[i])
    requires rest == [] || IsSpace(rest[0])
    ensures ReadWord(w + rest) == Some((w, rest))
  {
    var s := w + rest;
    SkipNothing(s);
    SpanExact(w, rest, NonSpaces);
    assert s[|w|..] == rest;
  }

  /** A bracket conversion reads a nonempty run of its class. */
  lemma {:induction false} ReadRunBack(w: string, rest: string, k: CharClass)
    requires w != [] && forall i :: 0 <= i < |w| ==> InClass(w[i], k)
    requires rest == [] || !InClass(rest[0], k)
    ensures ReadRun(w + rest, k) == Some((w, rest))
  {
    SpanExact(w, rest, k);
    assert (w + rest)[|w|..] == rest;
  }

  /** %d fails on input that opens with neither white space, a sign nor a digit. */
  lemma {:induction false} ReadIntFails(s: string)
    requires s == [] || (!IsSpace(s[0]) && !IsDigit(s[0]) && s[0] != '-' && s[0] != '+')
    ensures ReadInt(s) == None
  {
    SkipNothing(s);
  }

  // ---------------------------------------------------------------------
  // Formats made of numbers, each followed by literal text.

  /** The format "%d lits[0] %d lits[1] ...": the input left after it.  The
      numbers are read and dropped, as parse_line drops the timestamp's. */
  function ReadInts(s: string, lits: seq<string>): Option<string>
    decreases |lits|
  {
    if lits == [] then Some(s)
    else
      match ReadInt(s)
      case None => None
      case Some((_, r)) =>
        match ReadText(lits[0], 0, r)
        case None => None
        case Some(r2) => ReadInts(r2, lits[1..])
  }

  /** The text printf writes for the same format, given the digits of each number. */
  function Interleave(ds: seq<string>, lits: seq<string>): string
    requires |ds| == |lits|
    decreases |ds|
  {
    if ds == [] then [] else ds[0] + (lits[0] + Interleave(ds[1..], lits[1..]))
  }

  /** A run of decimal digits as printf("%d") of a natural number writes it. */
  predicate Numeral(d: string) {
    d != [] && AllDigits(d)
  }

  /** Literal text that can follow a number: it opens with a non-digit, and its
      white space is single. */
  predicate Separator(l: string) {
    l != [] && !IsDigit(l[0]) && SpacedFrom(l, 0)
  }

  /** The numbers-and-text format reads back the text printed for it. */
  lemma {:induction false} ReadIntsBack(ds: seq<string>, lits: seq<string>, rest: string)
    requires |ds| == |lits|
    requires forall i :: 0 <= i < |ds| ==> Numeral(ds[i])
    requires forall i :: 0 <= i < |lits| ==> Separator(lits[i])
    requires lits == [] || SingleSpaced(lits[|lits| - 1], rest)
    ensures ReadInts(Interleave(ds, lits) + rest, lits) == Some(rest)
    decreases |ds|
  {
    if ds != [] {
      var next := Interleave(ds[1..], lits[1..]) + rest;
      var l := lits[0];
      assert Interleave(ds, lits) + rest == ds[0] + (l + next);
      assert SingleSpaced(l, next) by {
        if ds[1..] != [] {
          assert next[0] == ds[1][0];
        }
      }
      assert ReadInt(ds[0] + (l + next)) == Some((DigitsValue(ds[0]), l + next)) by {
        ReadDigits(ds[0], l + next);
      }
      ReadTextBack(l, next);
      ReadIntsBack(ds[1..], lits[1..], rest);
    } else {
      assert Interleave(ds, lits) + rest == rest;
    }
  }
}
