/** Names on disk: the directory of a metric, and the numbers in file names. */
module Names {
  import opened Words
  import opened Model
  import opened SeriesKey

  // ---- characters ----

  /** How many bytes a character that starts with b takes in UTF-8; zero when none starts so. */
  function LeadWidth(b: byte): (n: nat)
    ensures n <= 4
  {
    if b < 0x80 then 1
    else if 0xC2 <= b <= 0xDF then 2
    else if 0xE0 <= b <= 0xEF then 3
    else if 0xF0 <= b <= 0xF4 then 4
    else 0
  }

  /** What the second byte may be: shorter forms, surrogates and too large values are excluded. */
  predicate Follows(first: byte, second: byte) {
    && (if first == 0xE0 then 0xA0 else if first == 0xF0 then 0x90 else 0x80) <= second
    && second <= (if first == 0xED then 0x9F else if first == 0xF4 then 0x8F else 0xBF)
  }

  predicate Continues(b: byte) {
    0x80 <= b <= 0xBF
  }

  /** The length of the character that the bytes start with; zero when they start with none. */
  function CharWidth(s: Str): (n: nat)
    ensures n <= |s|
  {
    if s == [] then 0
    else
      var n := LeadWidth(s[0]);
      if n > |s| then 0
      else if n >= 2 && !Follows(s[0], s[1]) then 0
      else if n >= 3 && !Continues(s[2]) then 0
      else if n == 4 && !Continues(s[3]) then 0
      else n
  }

  predicate ValidUtf8(s: Str) {
    s == [] || (CharWidth(s) > 0 && ValidUtf8(s[CharWidth(s)..]))
  }

  /** How many bytes are read at once: a character, or one byte that starts none. */
  function CharStep(s: Str): (n: nat)
    requires s != []
    ensures 0 < n <= |s|
  {
    if CharWidth(s) == 0 then 1 else CharWidth(s)
  }

  /** The characters of a string; a byte that belongs to none stands alone. */
  function Chars(s: Str): (r: seq<Str>)
    ensures forall c :: c in r ==> c != []
  {
    if s == [] then [] else [s[..CharStep(s)]] + Chars(s[CharStep(s)..])
  }

  /** The UTF-8 encoding of a code point, by section 3 of RFC 3629. */
  function Utf8(c: nat): Str
    requires c < 0x11_0000
  {
    if c < 0x80 then [c]
    else if c < 0x800 then [0xC0 + c / 0x40, 0x80 + c % 0x40]
    else if c < 0x1_0000 then [0xE0 + c / 0x1000, 0x80 + c / 0x40 % 0x40, 0x80 + c % 0x40]
    else [0xF0 + c / 0x4_0000, 0x80 + c / 0x1000 % 0x40, 0x80 + c / 0x40 % 0x40, 0x80 + c % 0x40]
  }

  /** A code point that is no surrogate. */
  predicate Scalar(c: nat) {
    c < 0xD800 || 0xE000 <= c < 0x11_0000
  }

  /** The encoding of every such code point is read as one character, */
  lemma {:induction false} CharOfScalar(c: nat, rest: Str)
    requires Scalar(c)
    ensures CharWidth(Utf8(c) + rest) == |Utf8(c)| > 0
  {
    var s, u := Utf8(c) + rest, Utf8(c);
    assert forall i :: 0 <= i < |u| ==> s[i] == u[i];
  }

  /** and every character that is read is such an encoding. */
  lemma {:induction false} ScalarOfChar(s: Str) returns (c: nat)
    requires CharWidth(s) > 0
    ensures Scalar(c) && s[..CharWidth(s)] == Utf8(c)
  {
    var n := CharWidth(s);
    if n == 1 {
      c := s[0];
    } else if n == 2 {
      c := TwoBytes(s[0], s[1]);
    } else if n == 3 {
      c := ThreeBytes(s[0], s[1], s[2]);
    } else {
      c := FourBytes(s[0], s[1], s[2], s[3]);
    }
  }

  lemma {:induction false} TwoBytes(a: byte, b: byte) returns (c: nat)
    requires LeadWidth(a) == 2 && Follows(a, b)
    ensures Scalar(c) && Utf8(c) == [a, b]
  {
    c := (a as int - 0xC0) * 0x40 + (b - 0x80);
  }

  lemma {:induction false} ThreeBytes(a: byte, b: byte, d: byte) returns (c: nat)
    requires LeadWidth(a) == 3 && Follows(a, b) && Continues(d)
    ensures Scalar(c) && Utf8(c) == [a, b, d]
  {
    var high := (a as int - 0xE0) * 0x40 + (b - 0x80);
    c := high * 0x40 + (d - 0x80);
    assert c / 0x40 == high && c / 0x1000 == high / 0x40;
  }

  lemma {:induction false} FourBytes(a: byte, b: byte, d: byte, e: byte) returns (c: nat)
    requires LeadWidth(a) == 4 && Follows(a, b) && Continues(d) && Continues(e)
    ensures Scalar(c) && Utf8(c) == [a, b, d, e]
  {
    var high := (a as int - 0xF0) * 0x40 + (b - 0x80);
    var middle := high * 0x40 + (d - 0x80);
    c := middle * 0x40 + (e - 0x80);
    assert c / 0x40 == middle && c / 0x1000 == middle / 0x40 == high && c / 0x4_0000 == high / 0x40;
  }

  // ---- directories ----

  /** / \ : * ? " < > | */
  predicate Unsafe(b: byte) {
    b in {0x2F, 0x5C, 0x3A, 0x2A, 0x3F, 0x22, 0x3C, 0x3E, 0x7C}
  }

  const UNDERSCORE: byte := 0x5F
  const DOT: byte := 0x2E

  /** U+FFFD, which mapping a string puts for each byte that belongs to no character. */
  const REPLACEMENT: Str := [0xEF, 0xBF, 0xBD]

  /** The longest file name that common file systems take. */
  const NAME_MAX: nat := 255

  /** What one character, or one byte that belongs to none, becomes. */
  function MapChar(c: Str): (r: Str)
    requires c != []
    ensures r != []
  {
    if CharWidth(c) == 0 then REPLACEMENT else if Unsafe(c[0]) then [UNDERSCORE] else c
  }

  /** The last path element for a metric. */
  function SanitizeMetric(name: Str): Str {
    if name == [] then [] else MapChar(name[..CharStep(name)]) + SanitizeMetric(name[CharStep(name)..])
  }

  /** An ASCII character stays as it is, but for nine that become an underscore. */
  lemma {:induction false} UnsafeExactly(b: byte)
    requires b < 0x80
    ensures SanitizeMetric([b]) == [if b as char in "/\\:*?\"<>|" then '_' as int else b]
  {
    assert "/\\:*?\"<>|" == ['/', '\\', ':', '*', '?', '\"', '<', '>', '|'];
    assert [b][..1] == [b] && [b][1..] == [];
    assert SanitizeMetric([]) == [];
  }

  /** Where a path below the chunk directory leads. */
  datatype Place = ChunkRoot | AboveRoot | Below(name: Str)

  /** filepath.Join of the chunk directory and a sanitized name: the empty name and "." lead to
      the chunk directory itself, ".." leads to its parent. */
  function Join(name: Str): Place {
    if name == [] || name == [DOT] then ChunkRoot else if name == [DOT, DOT] then AboveRoot else Below(name)
  }

  /** The metric is the name of its own directory. */
  predicate OwnName(metric: Str) {
    Join(SanitizeMetric(metric)) == Below(metric)
  }

  /** The first character does not depend on what follows it. */
  lemma {:induction false} WidthOfFirst(s: Str, rest: Str)
    requires s != []
    ensures CharWidth(s[..CharStep(s)]) == CharWidth(s)
    ensures CharWidth(MapChar(s[..CharStep(s)]) + rest) == |MapChar(s[..CharStep(s)])|
    ensures forall b :: b in MapChar(s[..CharStep(s)]) ==> !Unsafe(b)
  {
    var c := s[..CharStep(s)];
    if CharWidth(s) > 0 {
      assert forall i :: 0 <= i < |c| ==> c[i] == s[i] && (c + rest)[i] == s[i];
    }
    var all := REPLACEMENT + rest;
    assert all[0] == 0xEF && all[1] == 0xBF && all[2] == 0xBD;
    assert CharWidth(REPLACEMENT) == 3;
  }

  /** A sanitized name is valid UTF-8 without unsafe characters. */
  lemma {:induction false} Sanitized(name: Str)
    ensures ValidUtf8(SanitizeMetric(name)) && forall b :: b in SanitizeMetric(name) ==> !Unsafe(b)
  {
    hide CharWidth, MapChar, Unsafe;
    if name != [] {
      var rest := SanitizeMetric(name[CharStep(name)..]);
      Sanitized(name[CharStep(name)..]);
      WidthOfFirst(name, rest);
      var c := MapChar(name[..CharStep(name)]);
      assert (c + rest)[|c|..] == rest;
    }
  }

  /** Such a name stays as it is. */
  lemma {:induction false} CleanStays(name: Str)
    requires ValidUtf8(name) && forall b :: b in name ==> !Unsafe(b)
    ensures SanitizeMetric(name) == name
  {
    hide CharWidth, Unsafe;
    if name != [] {
      var n := CharStep(name);
      CleanStays(name[n..]);
      WidthOfFirst(name, []);
      assert name[0] in name && name[..n][0] == name[0];
      assert name == name[..n] + name[n..];
    }
  }

  /** A metric is the name of its own directory exactly when it is not empty, "." or "..", is
      valid UTF-8, and has no unsafe character. */
  lemma {:induction false} OwnDirectory(name: Str)
    ensures OwnName(name)
       <==> && name != [] && name != [DOT] && name != [DOT, DOT]
            && ValidUtf8(name) && forall b :: b in name ==> !Unsafe(b)
    ensures SanitizeMetric(SanitizeMetric(name)) == SanitizeMetric(name)
  {
    hide SanitizeMetric, ValidUtf8, Unsafe;
    Sanitized(name);
    CleanStays(SanitizeMetric(name));
    if ValidUtf8(name) && forall b :: b in name ==> !Unsafe(b) {
      CleanStays(name);
    }
  }

  /** Two characters become the same: they are equal, or both become an underscore, or both
      become U+FFFD. */
  predicate SameChar(c: Str, d: Str) {
    || c == d
    || (Underscored(c) && Underscored(d))
    || (Replaced(c) && Replaced(d))
  }

  predicate Underscored(c: Str) {
    c == [UNDERSCORE] || (CharWidth(c) > 0 && Unsafe(c[0]))
  }

  predicate Replaced(c: Str) {
    c == REPLACEMENT || CharWidth(c) == 0
  }

  predicate SameChars(a: seq<Str>, b: seq<Str>) {
    |a| == |b| && forall i :: 0 <= i < |a| ==> SameChar(a[i], b[i])
  }

  lemma {:induction false} MapSame(c: Str, d: Str)
    requires c != [] && d != []
    ensures MapChar(c) == MapChar(d) <==> SameChar(c, d)
  {
    assert CharWidth(REPLACEMENT) == 3 && CharWidth([UNDERSCORE]) == 1;
    assert REPLACEMENT[0] == 0xEF && [UNDERSCORE][0] == UNDERSCORE;
  }

  /** Two metrics share a directory exactly when they have as many characters, and these are the
      same up to unsafe ones and underscores, and up to bytes that belong to no character and
      U+FFFD. */
  lemma {:induction false} SharedDirectory(a: Str, b: Str)
    ensures SanitizeMetric(a) == SanitizeMetric(b) <==> SameChars(Chars(a), Chars(b))
    decreases |a|
  {
    hide CharWidth, MapChar, SameChar;
    if a != [] && b != [] {
      var c, d := a[..CharStep(a)], b[..CharStep(b)];
      var ra, rb := SanitizeMetric(a[CharStep(a)..]), SanitizeMetric(b[CharStep(b)..]);
      SharedDirectory(a[CharStep(a)..], b[CharStep(b)..]);
      WidthOfFirst(a, ra);
      WidthOfFirst(b, rb);
      MapSame(c, d);
      var x, y := MapChar(c), MapChar(d);
      if x + ra == y + rb {
        assert |x| == |y|;
        assert (x + ra)[..|x|] == x && (y + rb)[..|y|] == y;
        assert (x + ra)[|x|..] == ra && (y + rb)[|y|..] == rb;
      }
      SameCons(c, Chars(a[CharStep(a)..]), d, Chars(b[CharStep(b)..]));
    }
  }

  lemma {:induction false} SameCons(c: Str, cs: seq<Str>, d: Str, ds: seq<Str>)
    ensures SameChars([c] + cs, [d] + ds) <==> SameChar(c, d) && SameChars(cs, ds)
  {
    hide SameChar;
    if SameChars([c] + cs, [d] + ds) {
      assert SameChar(([c] + cs)[0], ([d] + ds)[0]);
      forall i | 0 <= i < |cs| ensures SameChar(cs[i], ds[i]) {
        assert ([c] + cs)[i + 1] == cs[i] && ([d] + ds)[i + 1] == ds[i];
      }
    }
  }

  // ---- numbers in file names ----

  /** The first number whose decimal form is longer than the six digits that a file name is
      padded to, and that are read back from it. */
  const NUMBERS: nat := 1_000_000
  const WIDTH: nat := 6
  const ZERO: byte := 0x30

  /** The k low decimal digits of n, most significant first. */
  function Digits(n: nat, k: nat): (s: Str)
    ensures |s| == k
    decreases k, n
  {
    if k == 0 then [] else Digits(n / 10, k - 1) + [ZERO + n % 10]
  }

  function Decimal(n: nat): (s: Str)
    ensures s != []
  {
    if n < 10 then [ZERO + n] else Decimal(n / 10) + [ZERO + n % 10]
  }

  /** The number part of a file name: %06d. */
  function NumberName(n: nat): Str {
    if n < NUMBERS then Digits(n, WIDTH) else Decimal(n)
  }

  predicate AllDigits(name: Str) {
    forall i :: 0 <= i < |name| ==> ZERO <= name[i] <= ZERO + 9
  }

  function ValueOf(digits: Str): nat
    requires AllDigits(digits)
  {
    if digits == [] then 0 else 10 * ValueOf(digits[..|digits| - 1]) + (digits[|digits| - 1] - ZERO)
  }

  /** Reading a number part back with %06d takes at most six digits, and what follows them must
      be the extension. */
  function ParseNumber(name: Str): Option<nat> {
    if name == [] || |name| > WIDTH || !AllDigits(name) then None
    else Some(ValueOf(name))
  }

  lemma {:induction false} DigitsValue(n: nat, k: nat)
    ensures AllDigits(Digits(n, k))
    ensures n < Power(k) ==> ValueOf(Digits(n, k)) == n
    decreases k
  {
    if k > 0 {
      DigitsValue(n / 10, k - 1);
      var most := Digits(n / 10, k - 1);
      assert Digits(n, k)[..|most|] == most;
    }
  }

  /** 10 to the power k. */
  function Power(k: nat): nat
    decreases k, 0
  {
    if k == 0 then 1 else 10 * Power(k - 1)
  }

  /** Below one million a file name has the six decimal digits of its number. */
  lemma {:induction false} SixDigitName(n: nat)
    requires n < NUMBERS
    ensures NumberName(n)
         == [0x30 + n / 100_000 % 10, 0x30 + n / 10_000 % 10, 0x30 + n / 1000 % 10, 0x30 + n / 100 % 10,
             0x30 + n / 10 % 10, 0x30 + n % 10]
  {
    assert n / 10 / 10 == n / 100 && n / 100 / 10 == n / 1000;
    assert n / 1000 / 10 == n / 10_000 && n / 10_000 / 10 == n / 100_000;
    assert Digits(n / 100_000, 1) == [ZERO + n / 100_000 % 10];
    assert Digits(n / 10_000, 2) == Digits(n / 100_000, 1) + [ZERO + n / 10_000 % 10];
    assert Digits(n / 1000, 3) == Digits(n / 10_000, 2) + [ZERO + n / 1000 % 10];
    assert Digits(n / 100, 4) == Digits(n / 1000, 3) + [ZERO + n / 100 % 10];
    assert Digits(n / 10, 5) == Digits(n / 100, 4) + [ZERO + n / 10 % 10];
    assert Digits(n, 6) == Digits(n / 10, 5) + [ZERO + n % 10];
  }

  lemma {:induction false} DecimalLong(n: nat, k: nat)
    requires n >= Power(k)
    ensures |Decimal(n)| > k
    decreases k
  {
    if k > 0 {
      if n < 10 {
        assert Power(k - 1) >= 1 by { PowerPositive(k - 1); }
      } else {
        DecimalLong(n / 10, k - 1);
      }
    }
  }

  lemma {:induction false} PowerPositive(k: nat)
    ensures Power(k) >= 1
  {
    if k > 0 {
      PowerPositive(k - 1);
    }
  }

  lemma {:induction false} SixDigits()
    ensures Power(WIDTH) == NUMBERS
  {
    assert Power(1) == 10 && Power(2) == 100 && Power(3) == 1000;
    assert Power(4) == 10_000 && Power(5) == 100_000;
  }

  /** A number is read back from its own file name exactly when it is below one million. */
  lemma {:induction false} NumberReadBack(n: nat)
    ensures ParseNumber(NumberName(n)) == if n < NUMBERS then Some(n) else None
  {
    hide Digits, Decimal;
    SixDigits();
    if n < NUMBERS {
      DigitsValue(n, WIDTH);
    } else {
      DecimalLong(n, WIDTH);
    }
  }

  // ---- name order ----

  lemma {:induction false} AtMostPush(x: Str, y: Str, c: byte, d: byte)
    requires |x| == |y|
    ensures AtMost(x + [c], y + [d]) <==> if x == y then c <= d else AtMost(x, y)
  {
    if x == [] {
      assert x + [c] == [c] && y + [d] == [d];
    } else {
      assert (x + [c])[1..] == x[1..] + [c] && (y + [d])[1..] == y[1..] + [d];
      AtMostPush(x[1..], y[1..], c, d);
      if x[0] == y[0] {
        assert x == y <==> x[1..] == y[1..] by {
          assert x == [x[0]] + x[1..] && y == [y[0]] + y[1..];
        }
      }
    }
  }

  lemma {:induction false} DigitsOrder(a: nat, b: nat, k: nat)
    requires a < Power(k) && b < Power(k)
    ensures AtMost(Digits(a, k), Digits(b, k)) <==> a <= b
    ensures Digits(a, k) == Digits(b, k) <==> a == b
    decreases k
  {
    hide AtMost;
    if k == 0 {
      EmptyAtMost();
    } else {
      var x, y := Digits(a / 10, k - 1), Digits(b / 10, k - 1);
      DigitsOrder(a / 10, b / 10, k - 1);
      AtMostPush(x, y, ZERO + a % 10, ZERO + b % 10);
      assert (x + [ZERO + a % 10])[..k - 1] == x && (y + [ZERO + b % 10])[..k - 1] == y;
      assert (x + [ZERO + a % 10])[k - 1] == ZERO + a % 10 && (y + [ZERO + b % 10])[k - 1] == ZERO + b % 10;
    }
  }

  lemma {:induction false} EmptyAtMost()
    ensures AtMost([], [])
  {
  }

  /** Below one million file names sort as their numbers do. */
  lemma {:induction false} NamesInOrder(a: nat, b: nat)
    requires a < NUMBERS && b < NUMBERS
    ensures AtMost(NumberName(a), NumberName(b)) <==> a <= b
    ensures NumberName(a) == NumberName(b) <==> a == b
  {
    hide Digits, AtMost;
    SixDigits();
    DigitsOrder(a, b, WIDTH);
  }

  /** From one million on they do not: 1000000 sorts before 999999. */
  lemma {:induction false} NamesOutOfOrder()
    ensures !AtMost(NumberName(NUMBERS - 1), NumberName(NUMBERS))
  {
    DigitsValue(NUMBERS - 1, WIDTH);
    assert Digits(9, 1) == [ZERO + 9];
    assert Digits(99, 2) == [ZERO + 9, ZERO + 9];
    assert Digits(999, 3)[0] == ZERO + 9;
    assert Digits(9_999, 4)[0] == ZERO + 9;
    assert Digits(99_999, 5)[0] == ZERO + 9;
    assert Digits(999_999, 6)[0] == ZERO + 9;
    assert Decimal(10) == [ZERO + 1, ZERO];
    assert Decimal(100)[0] == ZERO + 1 && Decimal(1_000)[0] == ZERO + 1 && Decimal(10_000)[0] == ZERO + 1;
    assert Decimal(100_000)[0] == ZERO + 1 && Decimal(1_000_000)[0] == ZERO + 1;
  }
}
