/**
Text as the C library prints and scans it: numbers in a base, words between white space, and the lines
that `fgets` delivers.
*/
module Text {
  import opened Options

  // ---- White space and words ----

  predicate Space(c: char) {
    c == ' ' || '\t' <= c <= '\r'
  }

  /** Nonempty and free of white space. */
  predicate Word(s: string) {
    s != "" && forall i :: 0 <= i < |s| ==> !Space(s[i])
  }

  function SkipSpace(s: string): (t: string)
    ensures |t| <= |s|
  {
    if s != "" && Space(s[0]) then SkipSpace(s[1..]) else s
  }

  /** The number of leading characters that are not white space. */
  function WordLength(s: string): (n: nat)
    ensures n <= |s|
  {
    if s == "" || Space(s[0]) then 0 else 1 + WordLength(s[1..])
  }

  datatype Scanned<+T> = Scanned(value: T, rest: string)

  /** `%s`: skip white space, then take at least one character that is not. */
  function ScanWord(s: string): (r: Option<Scanned<string>>)
    ensures r.Some? ==> |r.value.value| + |r.value.rest| <= |s|
  {
    var t := SkipSpace(s);
    var n := WordLength(t);
    if n == 0 then None else Some(Scanned(t[..n], t[n..]))
  }

  /** A field of a record: one space, then the text, then what follows. */
  function Field(w: string, t: string): string {
    " " + w + t
  }

  lemma {:induction false} WordEnds(w: string, t: string)
    requires forall i :: 0 <= i < |w| ==> !Space(w[i])
    requires t == "" || Space(t[0])
    ensures WordLength(w + t) == |w|
  {
    if w == "" {
      assert w + t == t;
    } else {
      assert (w + t)[1..] == w[1..] + t;
      WordEnds(w[1..], t);
    }
  }

  lemma {:induction false} WordFree(s: string)
    ensures forall i :: 0 <= i < WordLength(s) ==> !Space(s[i])
  {
    if s != "" && !Space(s[0]) {
      WordFree(s[1..]);
      forall i | 0 <= i < WordLength(s) ensures !Space(s[i]) { if i > 0 { assert s[i] == s[1..][i - 1]; } }
    }
  }

  /** What `%s` delivers is always a word. */
  lemma ScannedIsWord(s: string)
    ensures ScanWord(s).Some? ==> Word(ScanWord(s).value.value)
  {
    WordFree(SkipSpace(s));
  }

  /** A word after one space is scanned whole, up to the next white space. */
  lemma WordScanned(w: string, t: string)
    requires Word(w) && (t == "" || Space(t[0]))
    ensures ScanWord(Field(w, t)) == Some(Scanned(w, t))
  {
    var s := Field(w, t);
    assert s[1..] == w + t;
    assert (w + t)[0] == w[0];
    assert SkipSpace(s) == SkipSpace(s[1..]) == w + t;
    WordEnds(w, t);
    assert (w + t)[..|w|] == w && (w + t)[|w|..] == t;
  }

  // ---- Numbers ----

  predicate Base(b: nat) {
    b == 8 || b == 10
  }

  function DigitChar(d: nat): char
    requires d < 16
  {
    "0123456789abcdef"[d]
  }

  /** The value of a digit; 16 if the character is none. */
  function DigitValue(c: char): nat {
    if '0' <= c <= '9' then c as nat - '0' as nat
    else if 'a' <= c <= 'f' then c as nat - 'a' as nat + 10
    else if 'A' <= c <= 'F' then c as nat - 'A' as nat + 10
    else 16
  }

  lemma DigitRoundTrip(d: nat)
    requires d < 16
    ensures DigitValue(DigitChar(d)) == d && !Space(DigitChar(d)) && DigitChar(d) != '\n'
  {
    assert forall e :: 0 <= e < 10 ==> "0123456789abcdef"[e] as nat == '0' as nat + e;
    assert forall e :: 10 <= e < 16 ==> "0123456789abcdef"[e] as nat == 'a' as nat + e - 10;
  }

  /** A number as `%o`, `%ld`, `%zu` print it. */
  function Digits(n: nat, base: nat): (s: string)
    requires Base(base)
    ensures s != ""
  {
    if n < base then [DigitChar(n)] else Digits(n / base, base) + [DigitChar(n % base)]
  }

  function Value(s: string, base: nat): nat {
    if s == "" then 0 else Value(s[..|s| - 1], base) * base + DigitValue(s[|s| - 1])
  }

  predicate AllDigits(s: string, base: nat) {
    forall i :: 0 <= i < |s| ==> DigitValue(s[i]) < base
  }

  function DigitCount(s: string, base: nat): (n: nat)
    ensures n <= |s| && AllDigits(s[..n], base)
  {
    if s == "" || DigitValue(s[0]) >= base then 0
    else
      var n := 1 + DigitCount(s[1..], base);
      assert s[1..n] == s[1..][..n - 1];
      assert forall i :: 0 < i < n ==> s[..n][i] == s[1..n][i - 1];
      n
  }

  lemma AppendValue(s: string, d: nat, base: nat)
    requires d < 16
    ensures Value(s + [DigitChar(d)], base) == Value(s, base) * base + d
  {
    DigitRoundTrip(d);
    assert (s + [DigitChar(d)])[..|s|] == s;
    hide DigitChar, DigitValue;
  }

  lemma AppendDigit(s: string, d: nat, base: nat)
    requires Base(base) && d < base && AllDigits(s, base) && (s == "" || Word(s))
    ensures var t := s + [DigitChar(d)]; AllDigits(t, base) && Word(t) && Value(t, base) == Value(s, base) * base + d
  {
    DigitRoundTrip(d);
    AppendValue(s, d, base);
    hide DigitChar, DigitValue, Space, Value;
  }

  lemma {:induction false} DigitsRoundTrip(n: nat, base: nat)
    requires Base(base)
    ensures AllDigits(Digits(n, base), base) && Word(Digits(n, base)) && Value(Digits(n, base), base) == n
  {
    hide DigitChar, Word, AllDigits, Value;
    if n < base {
      NoDigits(base);
      AppendDigit("", n, base);
      assert "" + [DigitChar(n)] == [DigitChar(n)];
    } else {
      DigitsRoundTrip(n / base, base);
      AppendDigit(Digits(n / base, base), n % base, base);
    }
  }

  lemma NoDigits(base: nat)
    ensures AllDigits("", base) && Value("", base) == 0
  {
  }

  lemma {:induction false} DigitsEnd(d: string, t: string, base: nat)
    requires AllDigits(d, base) && (t == "" || DigitValue(t[0]) >= base)
    ensures DigitCount(d + t, base) == |d|
  {
    if d == "" {
      assert d + t == t;
    } else {
      assert (d + t)[1..] == d[1..] + t;
      DigitsEnd(d[1..], t, base);
    }
  }

  /** An unsigned conversion: white space, an optional plus sign, at least one digit. */
  function ScanNat(s: string, base: nat): (r: Option<Scanned<nat>>)
    ensures r.Some? ==> |r.value.rest| <= |s|
  {
    var t := SkipSpace(s);
    var u := if t != "" && t[0] == '+' then t[1..] else t;
    var n := DigitCount(u, base);
    if n == 0 then None else Some(Scanned(Value(u[..n], base), u[n..]))
  }

  /** `%o` and `%zu`: a minus sign is accepted too, and wraps around the width of the type. */
  function ScanUnsigned(s: string, base: nat, modulus: nat): (r: Option<Scanned<nat>>)
    requires modulus > 0
    ensures r.Some? ==> |r.value.rest| <= |s|
  {
    var t := SkipSpace(s);
    if t != "" && t[0] == '-' then
      var n := DigitCount(t[1..], base);
      if n == 0 then None else Some(Scanned((0 - Value(t[1..][..n], base)) % modulus, t[1..][n..]))
    else ScanNat(s, base)
  }

  /** `%ld`: as above, with either sign. */
  function ScanInt(s: string): (r: Option<Scanned<int>>)
    ensures r.Some? ==> |r.value.rest| <= |s|
  {
    var t := SkipSpace(s);
    if t != "" && t[0] == '-' then
      var n := DigitCount(t[1..], 10);
      if n == 0 then None else Some(Scanned(0 - Value(t[1..][..n], 10), t[1..][n..]))
    else
      match ScanNat(t, 10)
      case None => None
      case Some(v) => Some(Scanned(v.value, v.rest))
  }

  lemma NumberStart(n: nat, base: nat, t: string)
    requires Base(base)
    ensures SkipSpace(Field(Digits(n, base), t)) == Digits(n, base) + t
    ensures SkipSpace(Digits(n, base) + t) == Digits(n, base) + t
    ensures var d := (Digits(n, base) + t)[0]; DigitValue(d) < 16 && d != '+' && d != '-'
  {
    DigitsRoundTrip(n, base);
    var d := Digits(n, base);
    assert Field(d, t)[1..] == d + t;
    assert (d + t)[0] == d[0] && !Space(d[0]);
  }

  /** A printed number after one space is scanned back, up to the next character that is no digit. */
  lemma NatScanned(n: nat, base: nat, t: string)
    requires Base(base) && (t == "" || Space(t[0]))
    ensures ScanNat(Field(Digits(n, base), t), base) == Some(Scanned(n, t))
    ensures ScanNat(Digits(n, base) + t, base) == Some(Scanned(n, t))
  {
    var d := Digits(n, base);
    NumberStart(n, base, t);
    DigitsRoundTrip(n, base);
    DigitsEnd(d, t, base);
    assert (d + t)[..|d|] == d && (d + t)[|d|..] == t;
  }

  lemma UnsignedScanned(n: nat, base: nat, modulus: nat, t: string)
    requires Base(base) && modulus > 0 && (t == "" || Space(t[0]))
    ensures ScanUnsigned(Field(Digits(n, base), t), base, modulus) == Some(Scanned(n, t))
  {
    NumberStart(n, base, t);
    NatScanned(n, base, t);
  }

  lemma IntScanned(n: nat, t: string)
    requires t == "" || Space(t[0])
    ensures ScanInt(Field(Digits(n, 10), t)) == Some(Scanned(n, t))
  {
    NumberStart(n, 10, t);
    NatScanned(n, 10, t);
  }

  // ---- Lines ----

  function NewlineAt(s: string): (n: nat)
    ensures n <= |s| && (n < |s| ==> s[n] == '\n') && forall i :: 0 <= i < n ==> s[i] != '\n'
  {
    if s == "" || s[0] == '\n' then 0 else 1 + NewlineAt(s[1..])
  }

  /** The number of characters that one `fgets` with a buffer of `cap` bytes takes. */
  function LineLength(s: string, cap: nat): (n: nat)
    requires cap >= 2
    ensures n <= |s| && n < cap && (s != "" ==> n > 0)
  {
    var n := NewlineAt(s);
    if n < cap - 1 then if n < |s| then n + 1 else n else cap - 1
  }

  /** All the lines that repeated `fgets` delivers. */
  function Lines(s: string, cap: nat): seq<string>
    requires cap >= 2
  {
    if s == "" then [] else [s[..LineLength(s, cap)]] + Lines(s[LineLength(s, cap)..], cap)
  }

  /** A newline at the end, nowhere else, and short enough for the buffer. */
  predicate IsLine(r: string, cap: nat) {
    r != "" && |r| < cap && r[|r| - 1] == '\n' && forall i :: 0 <= i < |r| - 1 ==> r[i] != '\n'
  }

  lemma LineFirst(r: string, s: string, cap: nat)
    requires cap >= 2 && IsLine(r, cap)
    ensures Lines(r + s, cap) == [r] + Lines(s, cap)
  {
    assert NewlineAt(r + s) == |r| - 1;
    assert (r + s)[..|r|] == r && (r + s)[|r|..] == s;
  }

  function Concat(rs: seq<string>): string {
    if rs == [] then "" else rs[0] + Concat(rs[1..])
  }

  /** Whole lines written one after the other are read back one by one. */
  lemma {:induction false} LinesRoundTrip(rs: seq<string>, cap: nat)
    requires cap >= 2 && forall i :: 0 <= i < |rs| ==> IsLine(rs[i], cap)
    ensures Lines(Concat(rs), cap) == rs
  {
    if rs != [] {
      LineFirst(rs[0], Concat(rs[1..]), cap);
      LinesRoundTrip(rs[1..], cap);
    }
  }

  lemma NewlineWithin(r: string, s: string)
    requires exists i :: 0 <= i < |r| && r[i] == '\n'
    ensures NewlineAt(r) < |r| && NewlineAt(r + s) == NewlineAt(r)
  {
    var n := NewlineAt(r);
    assert (r + s)[n] == '\n';
    assert forall i :: 0 <= i < n ==> (r + s)[i] == r[i];
  }

  lemma FirstLineSame(r: string, s: string, cap: nat)
    requires cap >= 2 && r != "" && r[|r| - 1] == '\n'
    ensures LineLength(r + s, cap) == LineLength(r, cap)
  {
    NewlineWithin(r, s);
  }

  lemma LinesStep(s: string, cap: nat)
    requires cap >= 2
    ensures Lines(s, cap) == if s == "" then [] else [s[..LineLength(s, cap)]] + Lines(s[LineLength(s, cap)..], cap)
  {
  }

  /** Text that ends with a newline is split into the same lines whatever follows it, fitting lines or not. */
  lemma {:induction false} LinesApart(r: string, s: string, cap: nat)
    requires cap >= 2 && (r != "" ==> r[|r| - 1] == '\n')
    ensures Lines(r + s, cap) == Lines(r, cap) + Lines(s, cap)
    decreases |r|
  {
    hide Lines, LineLength;
    LinesStep(r, cap);
    if r == "" {
      assert r + s == s;
    } else {
      FirstLineSame(r, s, cap);
      LinesStep(r + s, cap);
      var n := LineLength(r, cap);
      assert (r + s)[..n] == r[..n] && (r + s)[n..] == r[n..] + s;
      assert n > 0;
      LinesApart(r[n..], s, cap);
    }
  }

  lemma {:induction false} ConcatSnoc(rs: seq<string>, r: string)
    ensures Concat(rs + [r]) == Concat(rs) + r
  {
    if rs == [] {
      assert rs + [r] == [r] && [r][1..] == [];
      assert Concat([r]) == r;
    } else {
      assert (rs + [r])[1..] == rs[1..] + [r];
      ConcatSnoc(rs[1..], r);
    }
  }
}
