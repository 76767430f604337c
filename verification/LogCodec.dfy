/**
The persistence log: how one mutating operation is printed as a line of text, and how a line is parsed
back into an operation, records that do not fit the line buffer included.
*/
module LogCodec {
  import opened Bytes
  import opened Options
  import opened Text

  /** The size of the buffer that `fgets` fills, and of those for paths, targets and decoded data. */
  const LINE_SIZE: nat := 4096
  const PATH_SIZE: nat := 1024
  const DATA_SIZE: nat := 2048

  /** One more than the largest `mode_t` and than the largest `off_t`. */
  const MODES: nat := 0x1_0000_0000
  const OFFSETS: nat := 0x8000_0000_0000_0000

  datatype Op =
    | Mkdir(path: string, mode: nat)
    | Mknod(path: string, mode: nat)
    | Write(path: string, offset: int, data: seq<Byte>)
    | Symlink(path: string, target: string)

  // ---- Hexadecimal bytes ----

  /** `%02x`. */
  function HexPair(b: Byte): (s: string)
    ensures |s| == 2
  {
    [DigitChar(b / 16), DigitChar(b % 16)]
  }

  function Hex(data: seq<Byte>): (s: string)
    ensures |s| == 2 * |data|
  {
    if data == [] then "" else Hex(data[..|data| - 1]) + HexPair(data[|data| - 1])
  }

  /** What `%2x` stores at character `2 * i`: two digits, or a single one before the end or before another
      character, or a sign and a digit.  Otherwise, and at the end of the text, nothing is stored. */
  function HexAt(s: string, i: nat): Option<Byte> {
    var p := 2 * i;
    if p >= |s| then None
    else if p + 1 == |s| || DigitValue(s[p + 1]) >= 16 then
      if DigitValue(s[p]) < 16 && !(p + 1 < |s| && s[p] == '0' && (s[p + 1] == 'x' || s[p + 1] == 'X')) then Some(DigitValue(s[p])) else None
    else if s[p] == '+' then Some(DigitValue(s[p + 1]))
    else if s[p] == '-' then Some((256 - DigitValue(s[p + 1])) % 256)
    else if DigitValue(s[p]) < 16 then Some(DigitValue(s[p]) * 16 + DigitValue(s[p + 1]))
    else None
  }

  /** The first `n` bytes, if every conversion stores one. */
  function Decode(s: string, n: nat): (r: Option<seq<Byte>>)
    ensures r.Some? ==> |r.value| == n
  {
    if n == 0 then Some([])
    else match Decode(s, n - 1)
      case None => None
      case Some(data) =>
        match HexAt(s, n - 1) case None => None case Some(b) => Some(data + [b])
  }

  lemma {:induction false} HexChars(data: seq<Byte>, i: nat)
    requires i < |data|
    ensures Hex(data)[2 * i] == DigitChar(data[i] / 16) && Hex(data)[2 * i + 1] == DigitChar(data[i] % 16)
    decreases |data|
  {
    if i < |data| - 1 { HexChars(data[..|data| - 1], i); }
  }

  predicate HexDigit(c: char) {
    '0' <= c <= '9' || 'a' <= c <= 'f'
  }

  /** The text consists of hexadecimal digits as they are printed. */
  predicate HexDigits(s: string) {
    forall i :: 0 <= i < |s| ==> HexDigit(s[i]) && !Space(s[i])
  }

  lemma PrintedDigit(d: nat)
    requires d < 16
    ensures var c := DigitChar(d); DigitValue(c) == d && HexDigit(c) && !Space(c)
  {
    DigitRoundTrip(d);
  }

  lemma HexIsDigits(data: seq<Byte>)
    ensures HexDigits(Hex(data))
  {
    forall k | 0 <= k < |Hex(data)|
      ensures HexDigit(Hex(data)[k]) && !Space(Hex(data)[k])
    {
      HexChars(data, k / 2);
      PrintedDigit(data[k / 2] / 16);
      PrintedDigit(data[k / 2] % 16);
    }
  }

  lemma HexAtDigits(s: string, i: nat)
    requires HexDigits(s)
    ensures HexAt(s, i) ==
      if 2 * i + 1 < |s| then Some(DigitValue(s[2 * i]) * 16 + DigitValue(s[2 * i + 1]))
      else if 2 * i + 1 == |s| then Some(DigitValue(s[2 * i])) else None
  {
  }

  /** What is stored for byte `i` when only the first `h` digits are there. */
  lemma HexAtCut(data: seq<Byte>, h: nat, i: nat)
    requires i < |data| && h <= 2 * |data|
    ensures HexAt(Hex(data)[..h], i) == if 2 * i + 1 < h then Some(data[i]) else if 2 * i + 1 == h then Some(data[i] / 16) else None
  {
    var s, b := Hex(data), data[i];
    HexChars(data, i);
    HexIsDigits(data);
    hide Hex;
    assert HexDigits(s[..h]);
    hide HexDigits, HexAt, DigitValue;
    HexAtDigits(s[..h], i);
    PairValue(b);
    hide DigitChar;
    assert 2 * i < h ==> s[..h][2 * i] == s[2 * i];
    assert 2 * i + 1 < h ==> s[..h][2 * i + 1] == s[2 * i + 1];
  }

  lemma PairValue(b: Byte)
    ensures DigitValue(DigitChar(b / 16)) == b / 16
    ensures DigitValue(DigitChar(b / 16)) * 16 + DigitValue(DigitChar(b % 16)) == b
  {
    PrintedDigit(b / 16);
    PrintedDigit(b % 16);
    hide DigitValue, DigitChar;
  }

  /** Decoding `n` bytes from the first `h` digits: a missing last digit shortens the last byte, and any
      byte with no digit is left unset. */
  lemma {:induction false} DecodeCut(data: seq<Byte>, h: nat, n: nat)
    requires n <= |data| && h <= 2 * |data|
    ensures Decode(Hex(data)[..h], n) ==
      if 2 * n <= h then Some(data[..n]) else if 2 * n == h + 1 then Some(data[..n - 1] + [data[n - 1] / 16]) else None
  {
    hide HexAt, Hex;
    if n > 0 {
      DecodeCut(data, h, n - 1);
      HexAtCut(data, h, n - 1);
      assert data[..n] == data[..n - 1] + [data[n - 1]];
    }
  }

  /** All bytes come back from all digits. */
  lemma HexRoundTrip(data: seq<Byte>)
    ensures Decode(Hex(data), |data|) == Some(data)
  {
    DecodeCut(data, 2 * |data|, |data|);
    assert Hex(data)[..2 * |data|] == Hex(data) && data[..|data|] == data;
  }

  // ---- Printing ----

  function Signed(n: int): string {
    if n < 0 then "-" + Digits(-n, 10) else Digits(n, 10)
  }

  function Letter(op: Op): char {
    match op
    case Mkdir(_, _) => 'M'
    case Mknod(_, _) => 'C'
    case Write(_, _, _) => 'W'
    case Symlink(_, _) => 'S'
  }

  /** What follows the path in a record. */
  function Tail(op: Op): string {
    match op
    case Mkdir(_, mode) => Field(Digits(mode, 8), "\n")
    case Mknod(_, mode) => Field(Digits(mode, 8), "\n")
    case Write(_, offset, data) => Field(Signed(offset), Field(Digits(|data|, 10), Field(Hex(data), "\n")))
    case Symlink(_, target) => Field(target, "\n")
  }

  function Print(op: Op): string {
    [Letter(op)] + Field(op.path, Tail(op))
  }

  // ---- Parsing ----

  /** Why the source's behaviour is not defined from a line on: a word runs past the end of its buffer, more
      bytes are announced than the data buffer holds, or a byte is decoded where no digit is left. */
  datatype Hazard = LongPath | LongTarget | LongData | NoDigit

  /** What the replay does with a line. */
  datatype Outcome = Skip | Do(op: Op) | Wild(why: Hazard)

  function ParseMake(s: string, dir: bool): Outcome {
    match ScanWord(s)
    case None => Skip
    case Some(p) =>
      if |p.value| >= PATH_SIZE then Wild(LongPath)
      else match ScanUnsigned(p.rest, 8, MODES)
        case None => Skip
        case Some(m) => Do(if dir then Mkdir(p.value, m.value) else Mknod(p.value, m.value))
  }

  /** The bytes that the decode loop leaves in its buffer. */
  function DecodeInto(path: string, offset: int, size: nat, hex: string): Outcome {
    if size > DATA_SIZE then Wild(LongData)
    else match Decode(hex, size)
      case None => Wild(NoDigit)
      case Some(data) => Do(Write(path, offset, data))
  }

  function ParseWrite(s: string): Outcome {
    match ScanWord(s)
    case None => Skip
    case Some(p) =>
      if |p.value| >= PATH_SIZE then Wild(LongPath)
      else match ScanInt(p.rest)
        case None => Skip
        case Some(o) =>
          match ScanUnsigned(o.rest, 10, WORD)
          case None => Skip
          case Some(n) =>
            match ScanWord(n.rest)
            case None => Skip
            case Some(h) => DecodeInto(p.value, o.value, n.value, h.value)
  }

  function ParseSymlink(s: string): Outcome {
    match ScanWord(s)
    case None => Skip
    case Some(p) =>
      if |p.value| >= PATH_SIZE then Wild(LongPath)
      else match ScanWord(p.rest)
        case None => Skip
        case Some(t) => if |t.value| >= PATH_SIZE then Wild(LongTarget) else Do(Symlink(p.value, t.value))
  }

  function Parse(line: string): Outcome {
    if line == "" then Skip
    else if line[0] == 'M' then ParseMake(line[1..], true)
    else if line[0] == 'C' then ParseMake(line[1..], false)
    else if line[0] == 'W' then ParseWrite(line[1..])
    else if line[0] == 'S' then ParseSymlink(line[1..])
    else Skip
  }

  /** The operations that the lines of a log make the replay carry out, if it stays defined. */
  function Ops(lines: seq<string>): Option<seq<Op>> {
    if lines == [] then Some([])
    else match Parse(lines[0])
      case Wild(_) => None
      case Skip => Ops(lines[1..])
      case Do(op) => match Ops(lines[1..]) case None => None case Some(ops) => Some([op] + ops)
  }

  // ---- Fields ----

  lemma FieldStart(w: string, t: string)
    ensures Field(w, t) != "" && Field(w, t)[0] == ' ' && Space(' ') && Space('\n')
  {
  }

  lemma MakeParsed(path: string, mode: nat, dir: bool)
    requires Word(path) && |path| < PATH_SIZE
    ensures ParseMake(Field(path, Field(Digits(mode, 8), "\n")), dir) == Do(if dir then Mkdir(path, mode) else Mknod(path, mode))
  {
    var t := Field(Digits(mode, 8), "\n");
    hide Word, ScanWord, ScanUnsigned, Digits, Field;
    FieldStart(Digits(mode, 8), "\n");
    WordScanned(path, t);
    UnsignedScanned(mode, 8, MODES, "\n");
  }

  lemma SymlinkParsed(path: string, w: string, t: string)
    requires Word(path) && |path| < PATH_SIZE && Word(w) && (t == "" || Space(t[0]))
    ensures ParseSymlink(Field(path, Field(w, t))) == if |w| >= PATH_SIZE then Wild(LongTarget) else Do(Symlink(path, w))
  {
    hide Word, ScanWord, Field, Space;
    FieldStart(w, t);
    WordScanned(path, Field(w, t));
    WordScanned(w, t);
  }

  /** A word that is too long for the path buffer, whatever follows. */
  lemma LongPathParsed(op: Op, w: string, t: string)
    requires Word(w) && |w| >= PATH_SIZE && (t == "" || Space(t[0]))
    ensures Parse([Letter(op)] + Field(w, t)) == Wild(LongPath)
  {
    WordScanned(w, t);
    Headed(Letter(op), Field(w, t));
    hide Word, ScanWord, ScanUnsigned, ScanInt, Field;
  }

  /** A write of which the first `h` digits are on the line. */
  lemma WriteParsed(path: string, offset: nat, data: seq<Byte>, h: nat, t: string)
    requires Word(path) && |path| < PATH_SIZE && 1 <= h <= 2 * |data| && (t == "" || Space(t[0]))
    ensures ParseWrite(Field(path, Field(Digits(offset, 10), Field(Digits(|data|, 10), Field(Hex(data)[..h], t)))))
         == DecodeInto(path, offset, |data|, Hex(data)[..h])
  {
    HexIsDigits(data);
    var hex := Hex(data)[..h];
    var f := Field(hex, t);
    var n := Field(Digits(|data|, 10), f);
    var o := Field(Digits(offset, 10), n);
    assert Word(hex);
    hide Word, ScanWord, ScanUnsigned, ScanInt, Digits, Field, Space, Hex, DecodeInto;
    FieldStart(hex, t);
    FieldStart(Digits(|data|, 10), f);
    FieldStart(Digits(offset, 10), n);
    WordScanned(path, o);
    IntScanned(offset, n);
    UnsignedScanned(|data|, 10, WORD, f);
    WordScanned(hex, t);
  }

  /** A write of nothing leaves nothing to scan. */
  lemma EmptyParsed(path: string, offset: nat)
    requires Word(path) && |path| < PATH_SIZE
    ensures ParseWrite(Field(path, Field(Digits(offset, 10), Field(Digits(0, 10), Field("", "\n"))))) == Skip
  {
    var f := Field("", "\n");
    var n := Field(Digits(0, 10), f);
    var o := Field(Digits(offset, 10), n);
    NothingScanned();
    hide Word, ScanWord, ScanUnsigned, ScanInt, Digits, Field, Space;
    FieldStart("", "\n");
    FieldStart(Digits(0, 10), f);
    FieldStart(Digits(offset, 10), n);
    WordScanned(path, o);
    IntScanned(offset, n);
    UnsignedScanned(0, 10, WORD, f);
  }

  lemma NothingScanned()
    ensures ScanWord(Field("", "\n")) == None
  {
    assert Field("", "\n")[1..] == "\n" && "\n"[1..] == "";
    assert SkipSpace("\n") == SkipSpace("") == "";
  }

  lemma Headed(c: char, t: string)
    ensures ([c] + t)[0] == c && ([c] + t)[1..] == t
  {
  }

  // ---- The shape of a record ----

  /** The numbers are those of the types they are printed from. */
  predicate Representable(op: Op) {
    match op
    case Mkdir(_, mode) => mode < MODES
    case Mknod(_, mode) => mode < MODES
    case Write(_, offset, data) => 0 <= offset < OFFSETS && |data| < WORD
    case Symlink(_, _) => true
  }

  /** Path and target are words. */
  predicate Wordy(op: Op) {
    Word(op.path) && (op.Symlink? ==> Word(op.target))
  }

  function Power(b: nat, k: nat): nat {
    if k == 0 then 1 else b * Power(b, k - 1)
  }

  lemma {:induction false} FewDigits(n: nat, base: nat, k: nat)
    requires Base(base) && 1 <= k && n < Power(base, k)
    ensures |Digits(n, base)| <= k
  {
    if n >= base {
      assert Power(base, k) == base * Power(base, k - 1);
      if base == 8 { assert n / 8 < Power(8, k - 1); } else { assert n / 10 < Power(10, k - 1); }
      FewDigits(n / base, base, k - 1);
    }
  }

  lemma {:induction false} PowerSum(b: nat, k: nat, m: nat)
    ensures Power(b, k + m) == Power(b, k) * Power(b, m)
  {
    if k > 0 {
      PowerSum(b, k - 1, m);
      Associative(b, Power(b, k - 1), Power(b, m));
    }
  }

  lemma Associative(x: nat, y: nat, z: nat)
    ensures x * (y * z) == (x * y) * z
  {
  }

  lemma Widths(op: Op)
    requires Representable(op)
    ensures op.Mkdir? || op.Mknod? ==> |Digits(op.mode, 8)| <= 12
    ensures op.Write? ==> |Digits(op.offset, 10)| <= 20 && |Digits(|op.data|, 10)| <= 20
  {
    PowerSum(8, 6, 6);
    PowerSum(10, 5, 5);
    PowerSum(10, 10, 10);
    assert Power(8, 6) == 0x4_0000 && Power(10, 5) == 100000;
    hide Power, Digits;
    if op.Mkdir? || op.Mknod? { FewDigits(op.mode, 8, 12); }
    if op.Write? {
      FewDigits(op.offset, 10, 20);
      FewDigits(|op.data|, 10, 20);
    }
  }

  lemma RecordLength(op: Op)
    requires Representable(op)
    ensures |Print(op)| == 2 + |op.path| + |Tail(op)|
    ensures op.Mkdir? || op.Mknod? ==> |Tail(op)| <= 14
    ensures op.Symlink? ==> |Tail(op)| == 2 + |op.target|
    ensures op.Write? ==>
      |Tail(op)| == 4 + |Digits(op.offset, 10)| + |Digits(|op.data|, 10)| + 2 * |op.data| <= 44 + 2 * |op.data|
  {
    Widths(op);
    hide Digits, Hex;
  }

  /** A newline at the very end, and none before. */
  predicate Ends(s: string) {
    s != "" && s[|s| - 1] == '\n' && forall i :: 0 <= i < |s| - 1 ==> s[i] != '\n'
  }

  lemma FieldEnds(w: string, t: string)
    requires Ends(t) && forall i :: 0 <= i < |w| ==> !Space(w[i])
    ensures Ends(Field(w, t))
  {
    var s := Field(w, t);
    forall i | 0 <= i < |s| - 1 ensures s[i] != '\n' {
      if 0 < i <= |w| { assert s[i] == w[i - 1]; }
    }
  }

  lemma TailEnds(op: Op)
    requires Wordy(op) && Representable(op)
    ensures Ends(Tail(op))
  {
    assert Ends("\n");
    hide Ends, Hex, Digits, Space, Field;
    match op
    case Mkdir(path, mode) =>
      DigitsRoundTrip(mode, 8);
      FieldEnds(Digits(mode, 8), "\n");
    case Mknod(path, mode) =>
      DigitsRoundTrip(mode, 8);
      FieldEnds(Digits(mode, 8), "\n");
    case Write(path, offset, data) =>
      DigitsRoundTrip(offset, 10);
      DigitsRoundTrip(|data|, 10);
      HexIsDigits(data);
      FieldEnds(Hex(data), "\n");
      FieldEnds(Digits(|data|, 10), Field(Hex(data), "\n"));
      FieldEnds(Digits(offset, 10), Field(Digits(|data|, 10), Field(Hex(data), "\n")));
    case Symlink(path, target) =>
      FieldEnds(target, "\n");
  }

  lemma HeadEnds(c: char, t: string)
    requires c != '\n' && Ends(t)
    ensures Ends([c] + t)
  {
  }

  lemma RecordEnds(op: Op)
    requires Wordy(op) && Representable(op)
    ensures Ends(Print(op))
  {
    TailEnds(op);
    FieldEnds(op.path, Tail(op));
    hide Ends, Field, Tail;
    HeadEnds(Letter(op), Field(op.path, Tail(op)));
  }

  // ---- One line or more ----

  /** The first line that `fgets` delivers of a record. */
  function FirstLine(op: Op): string {
    Print(op)[..LineLength(Print(op), LINE_SIZE)]
  }

  function OtherLines(op: Op): seq<string> {
    Lines(Print(op)[LineLength(Print(op), LINE_SIZE)..], LINE_SIZE)
  }

  lemma LinesOf(op: Op)
    ensures Lines(Print(op), LINE_SIZE) == [FirstLine(op)] + OtherLines(op)
  {
    hide LineLength;
  }

  lemma FirstLength(op: Op)
    requires Wordy(op) && Representable(op)
    ensures |FirstLine(op)| == if |Print(op)| < LINE_SIZE then |Print(op)| else LINE_SIZE - 1
  {
    RecordEnds(op);
    hide Print;
  }

  /** A record is delivered as one line if and only if it is shorter than the line buffer. */
  lemma OneLineExactly(op: Op)
    requires Wordy(op) && Representable(op)
    ensures Lines(Print(op), LINE_SIZE) == [Print(op)] <==> |Print(op)| < LINE_SIZE
  {
    FirstLength(op);
    LinesOf(op);
    assert Lines("", LINE_SIZE) == [];
    hide LineLength, Print;
    if |Print(op)| < LINE_SIZE { assert FirstLine(op) == Print(op) && OtherLines(op) == Lines("", LINE_SIZE); }
  }

  /** Text in which no line can begin with the letter of an operation. */
  predicate Quiet(s: string) {
    forall i :: 0 <= i < |s| ==> s[i] != 'M' && s[i] != 'C' && s[i] != 'W' && s[i] != 'S'
  }

  lemma {:induction false} QuietSkipped(s: string)
    requires Quiet(s)
    ensures Ops(Lines(s, LINE_SIZE)) == Some([])
    decreases |s|
  {
    LinesStep(s, LINE_SIZE);
    if s != "" {
      var n := LineLength(s, LINE_SIZE);
      hide Lines, LineLength;
      assert n > 0;
      QuietSkipped(s[n..]);
      QuietParsed(s[..n]);
    }
  }

  lemma QuietParsed(line: string)
    requires Quiet(line)
    ensures Parse(line) == Skip
  {
  }

  /** The first `k` characters of a field. */
  lemma CutField(w: string, t: string, k: nat)
    requires 1 <= k <= |Field(w, t)|
    ensures Field(w, t)[..k] == if k >= 1 + |w| then Field(w, t[..k - 1 - |w|]) else Field(w[..k - 1], "")
  {
  }

  lemma CutHead(c: char, t: string, k: nat)
    requires 1 <= k <= |t| + 1
    ensures ([c] + t)[..k] == [c] + t[..k - 1]
  {
  }

  // ---- What becomes of a record ----

  /** What the first line of a record makes the replay do. */
  function Expected(op: Op): Outcome {
    if |op.path| >= PATH_SIZE then Wild(LongPath)
    else if op.Symlink? && |op.target| >= PATH_SIZE then Wild(LongTarget)
    else if !op.Write? then Do(op)
    else if op.data == [] then Skip
    else if |op.data| > DATA_SIZE then Wild(LongData)
    else if |Print(op)| > LINE_SIZE + 1 then Wild(NoDigit)
    else if |Print(op)| == LINE_SIZE + 1 then Do(op.(data := op.data[..|op.data| - 1] + [op.data[|op.data| - 1] / 16]))
    else Do(op)
  }

  lemma LongPathFirst(op: Op)
    requires Wordy(op) && Representable(op) && |op.path| >= PATH_SIZE
    ensures Parse(FirstLine(op)) == Wild(LongPath)
  {
    FirstLength(op);
    RecordLength(op);
    TailStarts(op);
    var k, t := |FirstLine(op)|, Tail(op);
    FirstIsPrefix(op);
    hide Parse, Tail, FirstLine, Letter;
    CutHead(Letter(op), Field(op.path, t), k);
    assert Field(op.path, t) != "" && |Field(op.path, t)| == 1 + |op.path| + |t|;
    hide Field, Print;
    CutLongPath(op, t, k);
  }

  lemma CutLongPath(op: Op, t: string, k: nat)
    requires Word(op.path) && |op.path| >= PATH_SIZE && PATH_SIZE + 2 <= k <= 2 + |op.path| + |t| && t != "" && Space(t[0])
    ensures Parse([Letter(op)] + Field(op.path, t)[..k - 1]) == Wild(LongPath)
  {
    hide Parse, Letter, LINE_SIZE;
    assert |Field(op.path, t)| == 1 + |op.path| + |t|;
    hide Field;
    CutField(op.path, t, k - 1);
    if k - 1 >= 1 + |op.path| {
      LongPathParsed(op, op.path, t[..k - 2 - |op.path|]);
    } else {
      assert Word(op.path[..k - 2]);
      LongPathParsed(op, op.path[..k - 2], "");
    }
  }

  lemma TailStarts(op: Op)
    ensures Tail(op) != "" && Space(Tail(op)[0])
  {
    hide Digits, Hex, Signed;
  }

  lemma MakeFirst(op: Op)
    requires Wordy(op) && Representable(op) && |op.path| < PATH_SIZE && (op.Mkdir? || op.Mknod?)
    ensures FirstLine(op) == Print(op) && Parse(FirstLine(op)) == Do(op)
  {
    FirstLength(op);
    RecordLength(op);
    assert FirstLine(op) == Print(op);
    MakeParsed(op.path, op.mode, op.Mkdir?);
    hide FirstLine, ParseMake, Field, Digits;
    Headed(Letter(op), Field(op.path, Tail(op)));
  }

  lemma SymlinkFirst(op: Op)
    requires Wordy(op) && op.Symlink? && |op.path| < PATH_SIZE
    ensures Parse(FirstLine(op)) == if |op.target| >= PATH_SIZE then Wild(LongTarget) else Do(op)
    ensures |op.target| < PATH_SIZE ==> FirstLine(op) == Print(op)
  {
    FirstLength(op);
    RecordLength(op);
    FirstIsPrefix(op);
    var k, f := |FirstLine(op)|, Field(op.path, Field(op.target, "\n"));
    assert Print(op) == ['S'] + f && |f| == |Print(op)| - 1;
    hide FirstLine, Print, Field, Tail, Word, ParseSymlink;
    CutHead('S', f, k);
    CutSymlink(op.path, op.target, k - 1);
    Headed('S', f[..k - 1]);
  }

  lemma CutSymlink(path: string, target: string, k: nat)
    requires Word(path) && |path| < PATH_SIZE && Word(target)
    requires 2 + |path| + (if |target| >= PATH_SIZE then PATH_SIZE else |target| + 1) <= k <= |Field(path, Field(target, "\n"))|
    ensures ParseSymlink(Field(path, Field(target, "\n"))[..k]) == if |target| >= PATH_SIZE then Wild(LongTarget) else Do(Symlink(path, target))
  {
    FieldLength(target, "\n");
    FieldLength(path, Field(target, "\n"));
    var m := k - 1 - |path|;
    hide Field, ParseSymlink;
    CutField(path, Field(target, "\n"), k);
    CutField(target, "\n", m);
    if m > |target| {
      SymlinkParsed(path, target, "\n"[..m - 1 - |target|]);
    } else {
      assert Word(target[..m - 1]);
      SymlinkParsed(path, target[..m - 1], "");
    }
  }

  /** The digits of a write that are on the first line. */
  function DigitsLeft(op: Op): int
    requires op.Write?
  {
    if |Print(op)| < LINE_SIZE then 2 * |op.data| else LINE_SIZE - 1 - (|Print(op)| - 1 - 2 * |op.data|)
  }

  /** The record of a write, up to its first `h` digits, or whole. */
  lemma CutWrite(path: string, d: string, e: string, hex: string, h: nat, whole: bool)
    requires h <= |hex| && (whole ==> h == |hex|)
    ensures var k := 4 + |path| + |d| + |e| + h + (if whole then 1 else 0);
      && k <= |Field(path, Field(d, Field(e, Field(hex, "\n"))))|
      && Field(path, Field(d, Field(e, Field(hex, "\n"))))[..k]
         == Field(path, Field(d, Field(e, Field(hex[..h], if whole then "\n" else ""))))
  {
    var k := 4 + |path| + |d| + |e| + h + (if whole then 1 else 0);
    FieldLength(hex, "\n");
    FieldLength(e, Field(hex, "\n"));
    FieldLength(d, Field(e, Field(hex, "\n")));
    FieldLength(path, Field(d, Field(e, Field(hex, "\n"))));
    hide Field;
    CutField(path, Field(d, Field(e, Field(hex, "\n"))), k);
    CutField(d, Field(e, Field(hex, "\n")), k - 1 - |path|);
    CutField(e, Field(hex, "\n"), k - 2 - |path| - |d|);
    CutField(hex, "\n", k - 3 - |path| - |d| - |e|);
    assert h == |hex| ==> hex[..h] == hex;
    assert "\n"[..1] == "\n" && "\n"[..0] == "";
  }

  lemma FieldLength(w: string, t: string)
    ensures |Field(w, t)| == 1 + |w| + |t|
  {
  }

  lemma WriteCut(op: Op)
    requires Wordy(op) && Representable(op) && op.Write? && |op.path| < PATH_SIZE && op.data != []
    ensures var h := DigitsLeft(op);
      && 1 <= h <= 2 * |op.data|
      && FirstLine(op) == ['W'] + Field(op.path, Field(Digits(op.offset, 10), Field(Digits(|op.data|, 10),
                            Field(Hex(op.data)[..h], if |Print(op)| < LINE_SIZE then "\n" else ""))))
  {
    FirstLength(op);
    RecordLength(op);
    FirstIsPrefix(op);
    var h, k := DigitsLeft(op), |FirstLine(op)|;
    var d, e, hex := Digits(op.offset, 10), Digits(|op.data|, 10), Hex(op.data);
    WriteShape(op);
    var f := Field(op.path, Field(d, Field(e, Field(hex, "\n"))));
    hide Digits, Hex, FirstLine, Field, Print, Tail, Word;
    CutWrite(op.path, d, e, hex, h, |Print(op)| < LINE_SIZE);
    CutHead('W', f, k);
  }

  lemma WriteShape(op: Op)
    requires op.Write? && op.offset >= 0
    ensures Print(op) == ['W'] + Field(op.path, Field(Digits(op.offset, 10), Field(Digits(|op.data|, 10), Field(Hex(op.data), "\n"))))
  {
    hide Digits, Hex, Field;
  }

  lemma FirstIsPrefix(op: Op)
    ensures |FirstLine(op)| <= |Print(op)| && FirstLine(op) == Print(op)[..|FirstLine(op)|]
  {
    hide Print;
  }

  lemma WriteFirst(op: Op)
    requires Wordy(op) && Representable(op) && op.Write? && |op.path| < PATH_SIZE
    ensures Parse(FirstLine(op)) == Expected(op)
  {
    hide Parse, FirstLine, Print, Tail, Word, Digits;
    if op.data == [] {
      RecordLength(op);
      FirstLength(op);
      FirstIsPrefix(op);
      EmptyParsed(op.path, op.offset);
      EmptyShape(op);
    } else {
      WriteCut(op);
      WriteDigits(op);
      WriteDecoded(op);
    }
  }

  lemma WriteDigits(op: Op)
    requires Wordy(op) && Representable(op) && op.Write? && |op.path| < PATH_SIZE
    requires var h := DigitsLeft(op);
      && 1 <= h <= 2 * |op.data|
      && FirstLine(op) == ['W'] + Field(op.path, Field(Digits(op.offset, 10), Field(Digits(|op.data|, 10),
                            Field(Hex(op.data)[..h], if |Print(op)| < LINE_SIZE then "\n" else ""))))
    ensures Parse(FirstLine(op)) == DecodeInto(op.path, op.offset, |op.data|, Hex(op.data)[..DigitsLeft(op)])
  {
    hide Digits, Hex, Field, Print, ParseWrite, FirstLine, Word, DecodeInto, DigitsLeft;
    var h, t := DigitsLeft(op), if |Print(op)| < LINE_SIZE then "\n" else "";
    WriteParsed(op.path, op.offset, op.data, h, t);
    Headed('W', Field(op.path, Field(Digits(op.offset, 10), Field(Digits(|op.data|, 10), Field(Hex(op.data)[..h], t)))));
  }

  lemma EmptyShape(op: Op)
    requires op.Write? && op.data == [] && op.offset >= 0 && FirstLine(op) == Print(op)
    requires ParseWrite(Field(op.path, Field(Digits(op.offset, 10), Field(Digits(0, 10), Field("", "\n"))))) == Skip
    ensures Parse(FirstLine(op)) == Skip
  {
    WriteShape(op);
    hide Digits, Field, ParseWrite, Print, FirstLine;
    Headed('W', Field(op.path, Field(Digits(op.offset, 10), Field(Digits(0, 10), Field("", "\n")))));
  }

  /** What the digits on the first line decode to. */
  lemma WriteDecoded(op: Op)
    requires op.Write? && op.data != [] && |op.path| < PATH_SIZE && 1 <= DigitsLeft(op) <= 2 * |op.data|
    ensures DecodeInto(op.path, op.offset, |op.data|, Hex(op.data)[..DigitsLeft(op)]) == Expected(op)
  {
    var n := |op.data|;
    DecodeCut(op.data, DigitsLeft(op), n);
    hide Decode, Hex, Print;
    assert op.data[..n] == op.data;
  }

  /** The first line of every record whose path and target are words. */
  lemma FirstParsed(op: Op)
    requires Wordy(op) && Representable(op)
    ensures Parse(FirstLine(op)) == Expected(op)
  {
    hide Parse, FirstLine, Word, Print;
    if |op.path| >= PATH_SIZE {
      LongPathFirst(op);
    } else {
      match op
      case Mkdir(_, _) => MakeFirst(op);
      case Mknod(_, _) => MakeFirst(op);
      case Symlink(_, _) => SymlinkFirst(op);
      case Write(_, _, _) => WriteFirst(op);
    }
  }

  lemma TailQuiet(op: Op)
    requires !op.Symlink? && Representable(op)
    ensures Quiet(Tail(op))
  {
    hide Digits, Hex;
    match op
    case Mkdir(_, mode) => DigitsQuiet(mode, 8);
    case Mknod(_, mode) => DigitsQuiet(mode, 8);
    case Write(_, offset, data) =>
      DigitsQuiet(offset, 10);
      DigitsQuiet(|data|, 10);
      HexIsDigits(data);
  }

  lemma DigitsQuiet(n: nat, base: nat)
    requires Base(base)
    ensures Quiet(Digits(n, base))
  {
    DigitsRoundTrip(n, base);
    hide Digits;
  }

  /** Lines after the first do nothing. */
  lemma OthersSkipped(op: Op)
    requires Wordy(op) && Representable(op) && !Expected(op).Wild?
    ensures Ops(OtherLines(op)) == Some([])
  {
    FirstLength(op);
    RecordLength(op);
    LinesOf(op);
    var n := |FirstLine(op)|;
    assert Lines("", LINE_SIZE) == [];
    assert OtherLines(op) == Lines(Print(op)[n..], LINE_SIZE);
    hide LineLength, FirstLine, Print, Tail, Lines, OtherLines, Word;
    if |Print(op)| < LINE_SIZE {
      assert Print(op)[n..] == "";
    } else {
      RestQuiet(op, n);
      QuietSkipped(Print(op)[n..]);
    }
  }

  lemma RestQuiet(op: Op, n: nat)
    requires !op.Symlink? && Representable(op) && 2 + |op.path| <= n <= |Print(op)|
    ensures Quiet(Print(op)[n..])
  {
    TailQuiet(op);
    hide Tail;
    assert Print(op)[n..] == Tail(op)[n - 2 - |op.path|..];
  }

  lemma OpsStep(line: string, rest: seq<string>)
    ensures Ops([line] + rest) == match Parse(line)
      case Wild(_) => None
      case Skip => Ops(rest)
      case Do(op) => match Ops(rest) case None => None case Some(ops) => Some([op] + ops)
  {
    hide Parse;
  }

  /** What the replay makes of a record, whatever its length: a path or target that does not fit its buffer
      and more than 2048 bytes run past the end of a buffer; a write cut by two digits or more decodes bytes
      that are not there; a write cut by one digit gets a wrong last byte; all others are read back. */
  lemma RecordOutcome(op: Op)
    requires Wordy(op) && Representable(op)
    ensures Ops(Lines(Print(op), LINE_SIZE)) ==
      match Expected(op) case Skip => Some([]) case Wild(_) => None case Do(o) => Some([o])
  {
    LinesOf(op);
    FirstParsed(op);
    OpsStep(FirstLine(op), OtherLines(op));
    hide Parse, Expected, Print, FirstLine, OtherLines, Lines, Ops;
    if !Expected(op).Wild? { OthersSkipped(op); }
    if Expected(op).Do? { assert [Expected(op).op] + [] == [Expected(op).op]; }
  }

  /** Path and target are words that fit their buffers; a write has a record that fits the line, or of
      which the line cuts off no more than the newline and the second digit of a zero byte. */
  predicate Readable(op: Op) {
    && Wordy(op) && |op.path| < PATH_SIZE && (op.Symlink? ==> |op.target| < PATH_SIZE)
    && (op.Write? ==> |Print(op)| <= LINE_SIZE || (|Print(op)| == LINE_SIZE + 1 && op.data != [] && op.data[|op.data| - 1] == 0))
  }

  /** A record is read back as the one operation it records if and only if it is readable. */
  lemma ReadBackExactly(op: Op)
    requires Representable(op) && (op.Write? ==> op.data != [])
    ensures Ops(Lines(Print(op), LINE_SIZE)) == Some([op]) <==> Readable(op)
  {
    hide Ops, Lines, Print, Expected, Wordy, Readable;
    if Wordy(op) {
      RecordOutcome(op);
      ExpectedReadable(op);
      if Ops(Lines(Print(op), LINE_SIZE)) == Some([op]) { assert [op][0] == op; }
    } else {
      NotReadable(op);
      if Ops(Lines(Print(op), LINE_SIZE)) == Some([op]) { OpsWordy(Lines(Print(op), LINE_SIZE), [op], 0); }
    }
  }

  lemma NotReadable(op: Op)
    requires !Wordy(op)
    ensures !Readable(op)
  {
  }

  lemma ExpectedReadable(op: Op)
    requires Wordy(op) && Representable(op) && (op.Write? ==> op.data != [])
    ensures Expected(op) == Do(op) <==> Readable(op)
  {
    hide Print, Word;
    if op.Write? {
      ShortData(op);
      LastByte(op.data);
      var cut := op.data[..|op.data| - 1] + [op.data[|op.data| - 1] / 16];
      assert op.(data := cut) == op <==> cut == op.data;
    }
  }

  lemma ShortData(op: Op)
    requires Representable(op) && op.Write?
    ensures |Print(op)| <= LINE_SIZE + 1 ==> |op.data| <= DATA_SIZE
  {
    RecordLength(op);
    hide Print, Tail;
  }

  lemma LastByte(data: seq<Byte>)
    requires data != []
    ensures data[..|data| - 1] + [data[|data| - 1] / 16] == data <==> data[|data| - 1] == 0
  {
    var n := |data|;
    assert (data[..n - 1] + [data[n - 1] / 16])[n - 1] == data[n - 1] / 16;
    if data[n - 1] == 0 { assert data[..n - 1] + [0] == data; }
  }

  lemma {:induction false} OpsWordy(lines: seq<string>, ops: seq<Op>, i: nat)
    requires Ops(lines) == Some(ops) && i < |ops|
    ensures Wordy(ops[i])
  {
    hide Parse, Wordy;
    ParsedWordy(lines[0]);
    match Parse(lines[0])
    case Skip => OpsWordy(lines[1..], ops, i);
    case Do(op) => if i > 0 { OpsWordy(lines[1..], ops[1..], i - 1); }
  }

  lemma ParsedWordy(line: string)
    ensures Parse(line).Do? ==> Wordy(Parse(line).op)
  {
    hide ScanWord, ScanUnsigned, ScanInt, Decode, Word;
    if line != "" {
      ScannedIsWord(line[1..]);
      var p := ScanWord(line[1..]);
      if p.Some? { ScannedIsWord(p.value.rest); }
    }
  }

  /** A write of nothing, which changes nothing, is skipped. */
  lemma EmptyRecord(op: Op)
    requires Wordy(op) && Representable(op) && op.Write? && op.data == [] && |op.path| < PATH_SIZE
    ensures Ops(Lines(Print(op), LINE_SIZE)) == Some([])
  {
    RecordOutcome(op);
  }

  /** When the replay of a write's record stays inside the data buffer: it holds at most 2048 bytes. */
  lemma DataInsideExactly(op: Op)
    requires Wordy(op) && Representable(op) && op.Write? && |op.path| < PATH_SIZE
    ensures Parse(FirstLine(op)) != Wild(LongData) <==> |op.data| <= DATA_SIZE
    ensures op.data != [] ==> (!Parse(FirstLine(op)).Wild? <==> |Print(op)| <= LINE_SIZE + 1)
  {
    FirstParsed(op);
    RecordLength(op);
    hide Parse, FirstLine, Print, Tail;
  }

  /** A write of 2042 bytes to "/f" is replayed with a wrong last byte, unless that byte is zero. */
  lemma LastByteLost(data: seq<Byte>)
    requires |data| == 2042
    ensures Ops(Lines(Print(Write("/f", 0, data)), LINE_SIZE)) == Some([Write("/f", 0, data[..2041] + [data[2041] / 16])])
  {
    var op := Write("/f", 0, data);
    assert Word("/f");
    assert |Digits(0, 10)| == 1 && |Digits(2042, 10)| == 4 by {
      assert |Digits(2, 10)| == 1 && |Digits(20, 10)| == 2 && |Digits(204, 10)| == 3;
    }
    RecordLength(op);
    RecordOutcome(op);
  }

  lemma ManyDigits(n: nat)
    requires n >= 1000
    ensures |Digits(n, 10)| >= 4
  {
    assert n / 10 >= 100 && n / 10 / 10 >= 10;
    assert |Digits(n / 10 / 10, 10)| >= 2;
    assert |Digits(n / 10, 10)| >= 3;
  }

  /** A write record that can be read back holds at most 2042 bytes, so decoding stays inside both the data
      buffer and the buffer for the hexadecimal text. */
  lemma WriteBound(op: Op)
    requires op.Write? && Readable(op) && Representable(op)
    ensures |op.data| <= 2042 < DATA_SIZE && 2 * |op.data| < LINE_SIZE
    ensures |Print(op)| < LINE_SIZE ==> |op.data| <= 2041
  {
    RecordLength(op);
    if |op.data| >= 1000 { ManyDigits(|op.data|); }
    hide Print, Tail;
    assert |op.path| >= 1 && |Digits(op.offset, 10)| >= 1 && |Digits(|op.data|, 10)| >= 1;
  }

  /** The bound is reached. */
  lemma BoundReached(data: seq<Byte>)
    requires |data| <= 2041
    ensures Readable(Write("/", 0, data)) && |Print(Write("/", 0, data))| < LINE_SIZE
  {
    var op := Write("/", 0, data);
    assert Power(10, 4) == 10000;
    FewDigits(|data|, 10, 4);
    RecordLength(op);
    assert Word("/");
  }
}
