/**
 * The text side of the CSV replay in the producer: Python's `str.strip()`,
 * `str.split(",")`, the line pattern of `LineReader.is_valid_line` as a
 * character-level recogniser, and the field split of `LineReader.clean_line`.
 */
module LineFormat {
  import opened Wrappers

  // ---------------------------------------------------------------------------
  // Characters
  // ---------------------------------------------------------------------------

  /** `\d`, restricted to the ASCII digits. */
  predicate IsDigit(c: char) {
    '0' <= c <= '9'
  }

  /** Python's `str.isspace()`: the characters `str.strip()` removes. */
  predicate IsSpace(c: char) {
    || c == ' ' || c == '\t' || c == '\n' || c == '\r' || c == '\U{B}' || c == '\U{C}'
    || '\U{1C}' <= c <= '\U{1F}' || c == '\U{85}' || c == '\U{A0}' || c == '\U{1680}'
    || '\U{2000}' <= c <= '\U{200A}' || c == '\U{2028}' || c == '\U{2029}'
    || c == '\U{202F}' || c == '\U{205F}' || c == '\U{3000}'
  }

  // ---------------------------------------------------------------------------
  // str.strip()
  // ---------------------------------------------------------------------------

  /**
   * `s` with its leading whitespace removed.  The bound below is what the
   * slices of `Strip` need; `LStripSpec` states what is removed.
   */
  function LStrip(s: string): (r: string)
    ensures |r| <= |s|
  {
    if s != [] && IsSpace(s[0]) then LStrip(s[1..]) else s
  }

  /**
   * `s` with its trailing whitespace removed.  The bound below is what the
   * slices of `Strip` need; `RStripSpec` states what is removed.
   */
  function RStrip(s: string): (r: string)
    ensures |r| <= |s|
  {
    if s != [] && IsSpace(s[|s| - 1]) then RStrip(s[..|s| - 1]) else s
  }

  /** `LStrip` removes the leading whitespace and nothing else. */
  lemma {:induction false} LStripSpec(s: string)
    ensures var r := LStrip(s);
      && r == s[|s| - |r|..]
      && (forall k :: 0 <= k < |s| - |r| ==> IsSpace(s[k]))
      && (r == [] || !IsSpace(r[0]))
  {
    if s != [] && IsSpace(s[0]) {
      LStripSpec(s[1..]);
    }
  }

  /** `RStrip` removes the trailing whitespace and nothing else. */
  lemma {:induction false} RStripSpec(s: string)
    ensures var r := RStrip(s);
      && r == s[..|r|]
      && (forall k :: |r| <= k < |s| ==> IsSpace(s[k]))
      && (r == [] || !IsSpace(r[|r| - 1]))
  {
    if s != [] && IsSpace(s[|s| - 1]) {
      RStripSpec(s[..|s| - 1]);
    }
  }

  /** `str.strip()`. */
  function Strip(s: string): (r: string)
    ensures |r| <= |s|
  {
    RStrip(LStrip(s))
  }

  /** `strip()` keeps the contiguous piece of `s` between its leading and trailing whitespace. */
  lemma StripIsTrimmedSlice(s: string)
    ensures var r := Strip(s); var i := |s| - |LStrip(s)|;
      && i + |r| <= |s|
      && r == s[i..i + |r|]
      && (forall k :: 0 <= k < i ==> IsSpace(s[k]))
      && (forall k :: i + |r| <= k < |s| ==> IsSpace(s[k]))
  {
    var l := LStrip(s);
    var r := RStrip(l);
    var i := |s| - |l|;
    LStripSpec(s);
    RStripSpec(l);
    assert l == s[i..];
    assert r == l[..|r|];
    forall k | i + |r| <= k < |s| ensures IsSpace(s[k]) {
      assert s[k] == l[k - i];
    }
  }

  /** A stripped string has no whitespace at either end, so stripping it again changes nothing. */
  lemma StripIsIdempotent(s: string)
    ensures var r := Strip(s); r == [] || (!IsSpace(r[0]) && !IsSpace(r[|r| - 1]))
    ensures Strip(Strip(s)) == Strip(s)
  {
    var l := LStrip(s);
    var r := RStrip(l);
    LStripSpec(s);
    RStripSpec(l);
    if r != [] {
      assert r[0] == l[0];
      assert LStrip(r) == r;
      assert RStrip(r) == r;
    }
  }

  // ---------------------------------------------------------------------------
  // str.split(",") and its inverse
  // ---------------------------------------------------------------------------

  /** `s.split(",")`: the pieces between commas, empty pieces included. */
  function Split(s: string): (fs: seq<string>)
    ensures |fs| > 0
  {
    if s == [] then [""]
    else
      var rest := Split(s[1..]);
      if s[0] == ',' then [""] + rest
      else [[s[0]] + rest[0]] + rest[1..]
  }

  /** `",".join(fs)`. */
  function Join(fs: seq<string>): (s: string)
    requires |fs| > 0
  {
    if |fs| == 1 then fs[0] else fs[0] + [','] + Join(fs[1..])
  }

  /** No field of a split contains a comma. */
  lemma {:induction false} SplitFieldsHaveNoComma(s: string)
    ensures forall k :: 0 <= k < |Split(s)| ==> ',' !in Split(s)[k]
  {
    if s != [] {
      SplitFieldsHaveNoComma(s[1..]);
      var rest := Split(s[1..]);
      if s[0] != ',' {
        assert ',' !in [s[0]] + rest[0];
      }
    }
  }

  /** Splitting and joining again gives back the original line. */
  lemma {:induction false} JoinSplit(s: string)
    ensures Join(Split(s)) == s
  {
    if s != [] {
      var rest := Split(s[1..]);
      JoinSplit(s[1..]);
      if s[0] != ',' {
        var fs := [[s[0]] + rest[0]] + rest[1..];
        assert fs[1..] == rest[1..];
        if |rest| > 1 {
          assert Join(rest) == rest[0] + [','] + Join(rest[1..]);
        }
        assert Join(fs) == [s[0]] + Join(rest);
      }
      assert s == [s[0]] + s[1..];
    }
  }

  /** Splitting a comma-free piece followed by a comma peels that piece off. */
  lemma {:induction false} SplitComma(a: string, rest: string)
    requires ',' !in a
    ensures Split(a + [','] + rest) == [a] + Split(rest)
  {
    var s := a + [','] + rest;
    if a == [] {
      assert s[1..] == rest;
    } else {
      assert s[1..] == a[1..] + [','] + rest;
      SplitComma(a[1..], rest);
      assert [a[0]] + a[1..] == a;
    }
  }

  /** A comma-free string is a single field. */
  lemma {:induction false} SplitNoComma(a: string)
    requires ',' !in a
    ensures Split(a) == [a]
  {
    if a != [] {
      SplitNoComma(a[1..]);
      assert [a[0]] + a[1..] == a;
    }
  }

  /** Joining comma-free fields and splitting again gives back the fields. */
  lemma {:induction false} SplitJoin(fs: seq<string>)
    requires |fs| > 0
    requires forall k :: 0 <= k < |fs| ==> ',' !in fs[k]
    ensures Split(Join(fs)) == fs
  {
    if |fs| == 1 {
      SplitNoComma(fs[0]);
    } else {
      SplitJoin(fs[1..]);
      SplitComma(fs[0], Join(fs[1..]));
    }
  }

  /** Appending a character other than a comma does not change the number of fields. */
  lemma {:induction false} SplitAppendCount(s: string, c: char)
    requires c != ','
    ensures |Split(s + [c])| == |Split(s)|
  {
    if s != [] {
      assert (s + [c])[1..] == s[1..] + [c];
      SplitAppendCount(s[1..], c);
    }
  }

  // ---------------------------------------------------------------------------
  // The line pattern  ^\d{4}-\d{2}-\d{2}T\d{2}:\d{2},-?\d+\.\d+,\d+,-?\d+\.\d+$
  // ---------------------------------------------------------------------------

  /** Length of the timestamp `\d{4}-\d{2}-\d{2}T\d{2}:\d{2}`. */
  const StampLength: nat := 16

  /** What the timestamp allows at position `k`: the separators `-`, `T`, `:`, digits elsewhere. */
  predicate StampCharOk(k: nat, c: char)
    requires k < StampLength
  {
    if k == 4 || k == 7 then c == '-'
    else if k == 10 then c == 'T'
    else if k == 13 then c == ':'
    else IsDigit(c)
  }

  /** The index just past the run of digits that starts at `i`. */
  function DigitsEnd(s: string, i: nat): (j: nat)
    requires i <= |s|
    ensures i <= j <= |s|
    decreases |s| - i
  {
    if i < |s| && IsDigit(s[i]) then DigitsEnd(s, i + 1) else i
  }

  /** `DigitsEnd` finds the maximal run: digits up to it, and no digit at it. */
  lemma {:induction false} DigitsEndSpec(s: string, i: nat)
    requires i <= |s|
    ensures forall k :: i <= k < DigitsEnd(s, i) ==> IsDigit(s[k])
    ensures DigitsEnd(s, i) == |s| || !IsDigit(s[DigitsEnd(s, i)])
    decreases |s| - i
  {
    if i < |s| && IsDigit(s[i]) {
      DigitsEndSpec(s, i + 1);
    }
  }

  /** Matches `\d+` at `i`: the end of the match, if any. */
  function NaturalEnd(s: string, i: nat): Option<nat>
    requires i <= |s|
  {
    var j := DigitsEnd(s, i);
    if j == i then None else Some(j)
  }

  /** Matches `\d+\.\d+` at `i`: the end of the match, if any. */
  function UnsignedDecimalEnd(s: string, i: nat): Option<nat>
    requires i <= |s|
  {
    var k := DigitsEnd(s, i);
    if k == i || k == |s| || s[k] != '.' then None
    else
      var m := DigitsEnd(s, k + 1);
      if m == k + 1 then None else Some(m)
  }

  /** Matches `-?\d+\.\d+` at `i`: the end of the match, if any. */
  function DecimalEnd(s: string, i: nat): Option<nat>
    requires i <= |s|
  {
    if i < |s| && s[i] == '-' then UnsignedDecimalEnd(s, i + 1) else UnsignedDecimalEnd(s, i)
  }

  /**
   * The whole pattern matches the whole of `s`, scanned left to right: the
   * timestamp, then a comma and a decimal, a comma and an unsigned integer,
   * a comma and a decimal that ends the string.
   */
  predicate Matches(s: string) {
    && |s| > StampLength
    && (forall k :: 0 <= k < StampLength ==> StampCharOk(k, s[k]))
    && s[StampLength] == ','
    && match DecimalEnd(s, StampLength + 1)
       case None => false
       case Some(a) =>
         && a < |s| && s[a] == ','
         && match NaturalEnd(s, a + 1)
            case None => false
            case Some(b) => b < |s| && s[b] == ',' && DecimalEnd(s, b + 1) == Some(|s|)
  }

  /**
   * `is_valid_line`: `re.match` of the pattern.  Python's `$` also matches just
   * before a newline that ends the string, so one trailing newline is accepted.
   */
  predicate IsValidLine(s: string) {
    Matches(s) || (|s| > 0 && s[|s| - 1] == '\n' && Matches(s[..|s| - 1]))
  }

  // ---------------------------------------------------------------------------
  // The same pattern, field by field
  // ---------------------------------------------------------------------------

  ghost predicate AllDigits(f: string) {
    forall k :: 0 <= k < |f| ==> IsDigit(f[k])
  }

  /** `\d{4}-\d{2}-\d{2}T\d{2}:\d{2}` (digit values are not range-checked). */
  ghost predicate IsStamp(f: string) {
    |f| == StampLength && forall k :: 0 <= k < StampLength ==> StampCharOk(k, f[k])
  }

  /** `\d+` */
  ghost predicate IsNatural(f: string) {
    |f| > 0 && AllDigits(f)
  }

  /** `\d+\.\d+`: digits on both sides of a dot. */
  ghost predicate IsUnsignedDecimal(f: string) {
    exists p :: 0 < p < |f| - 1 && f[p] == '.' && AllDigits(f[..p]) && AllDigits(f[p + 1..])
  }

  /** `-?\d+\.\d+` */
  ghost predicate IsDecimal(f: string) {
    IsUnsignedDecimal(f) || (|f| > 0 && f[0] == '-' && IsUnsignedDecimal(f[1..]))
  }

  /**
   * The reference reading of the pattern: the line splits on commas into
   * exactly four fields, a timestamp, a decimal, an unsigned integer and a decimal.
   */
  ghost predicate FieldsMatch(s: string) {
    var fs := Split(s);
    |fs| == 4 && IsStamp(fs[0]) && IsDecimal(fs[1]) && IsNatural(fs[2]) && IsDecimal(fs[3])
  }

  lemma UnsignedDecimalHasNoComma(f: string)
    requires IsUnsignedDecimal(f)
    ensures ',' !in f
  {
    var p :| 0 < p < |f| - 1 && f[p] == '.' && AllDigits(f[..p]) && AllDigits(f[p + 1..]);
    forall k | 0 <= k < |f| ensures f[k] != ',' {
      if k < p {
        assert f[k] == f[..p][k];
      } else if k > p {
        assert f[k] == f[p + 1..][k - p - 1];
      }
    }
  }

  lemma DecimalHasNoComma(f: string)
    requires IsDecimal(f)
    ensures ',' !in f
  {
    if IsUnsignedDecimal(f) {
      UnsignedDecimalHasNoComma(f);
    } else {
      UnsignedDecimalHasNoComma(f[1..]);
      assert f == [f[0]] + f[1..];
    }
  }

  /** A maximal run of digits is exactly what `DigitsEnd` finds. */
  lemma DigitsEndAt(s: string, i: nat, j: nat)
    requires i <= j <= |s|
    requires forall k :: i <= k < j ==> IsDigit(s[k])
    requires j == |s| || !IsDigit(s[j])
    ensures DigitsEnd(s, i) == j
  {
    DigitsEndSpec(s, i);
  }

  /** A digit string found at `s[i..j]` gives the same facts about `s` itself. */
  lemma AllDigitsSlice(s: string, i: nat, j: nat)
    requires i <= j <= |s| && AllDigits(s[i..j])
    ensures forall k :: i <= k < j ==> IsDigit(s[k])
  {
    forall k | i <= k < j ensures IsDigit(s[k]) {
      assert s[k] == s[i..j][k - i];
    }
  }

  /** A match of `\d+` found by the scanner is an unsigned integer, and vice versa. */
  lemma NaturalEndSpec(s: string, i: nat, j: nat)
    requires i <= j <= |s|
    ensures NaturalEnd(s, i) == Some(j) <==> IsNatural(s[i..j]) && (j == |s| || !IsDigit(s[j]))
  {
    DigitsEndSpec(s, i);
    if IsNatural(s[i..j]) && (j == |s| || !IsDigit(s[j])) {
      AllDigitsSlice(s, i, j);
      DigitsEndAt(s, i, j);
    }
  }

  /** Digits, a dot and digits at `s[i..j]`, with the dot at `k`, form an unsigned decimal. */
  lemma UnsignedDecimalAt(s: string, i: nat, k: nat, j: nat)
    requires i < k && k + 1 < j <= |s| && s[k] == '.'
    requires forall t :: i <= t < k ==> IsDigit(s[t])
    requires forall t :: k < t < j ==> IsDigit(s[t])
    ensures IsUnsignedDecimal(s[i..j])
  {
    var u := s[i..j];
    var p := k - i;
    var before, after := u[..p], u[p + 1..];
    forall t | 0 <= t < |before| ensures IsDigit(before[t]) {
      assert before[t] == s[i + t];
    }
    forall t | 0 <= t < |after| ensures IsDigit(after[t]) {
      assert after[t] == s[k + 1 + t];
    }
    assert u[p] == '.';
  }

  /** A match of `\d+\.\d+` found by the scanner is an unsigned decimal. */
  lemma UnsignedDecimalEndSound(s: string, i: nat, j: nat)
    requires i <= |s| && UnsignedDecimalEnd(s, i) == Some(j)
    ensures i < j <= |s| && IsUnsignedDecimal(s[i..j]) && (j == |s| || !IsDigit(s[j]))
  {
    var k := DigitsEnd(s, i);
    assert k < |s| && s[k] == '.' && j == DigitsEnd(s, k + 1);
    DigitsEndSpec(s, i);
    DigitsEndSpec(s, k + 1);
    UnsignedDecimalAt(s, i, k, j);
  }

  /** A match of `-?\d+\.\d+` found by the scanner is a decimal. */
  lemma DecimalEndSound(s: string, i: nat, j: nat)
    requires i <= |s| && DecimalEnd(s, i) == Some(j)
    ensures i < j <= |s| && IsDecimal(s[i..j]) && (j == |s| || !IsDigit(s[j]))
  {
    if i < |s| && s[i] == '-' {
      UnsignedDecimalEndSound(s, i + 1, j);
      assert s[i..j][0] == '-' && s[i..j][1..] == s[i + 1..j];
    } else {
      UnsignedDecimalEndSound(s, i, j);
    }
  }

  /** Where the dot of an unsigned decimal found at `s[i..j]` is, in terms of `s`. */
  lemma UnsignedDecimalDot(s: string, i: nat, j: nat) returns (k: nat)
    requires i <= j <= |s| && IsUnsignedDecimal(s[i..j])
    ensures i < k < j - 1 && s[k] == '.' && AllDigits(s[i..k]) && AllDigits(s[k + 1..j])
  {
    var u := s[i..j];
    var p :| 0 < p < |u| - 1 && u[p] == '.' && AllDigits(u[..p]) && AllDigits(u[p + 1..]);
    k := i + p;
    assert u[..p] == s[i..k];
    assert u[p + 1..] == s[k + 1..j];
  }

  /** An unsigned decimal at `s[i..j]` followed by a non-digit: where its dot is, as the scanner sees it. */
  lemma UnsignedDecimalScan(s: string, i: nat, j: nat) returns (k: nat)
    requires i <= j <= |s| && IsUnsignedDecimal(s[i..j]) && (j == |s| || !IsDigit(s[j]))
    ensures i < k < j - 1 && s[k] == '.'
    ensures DigitsEnd(s, i) == k && DigitsEnd(s, k + 1) == j
  {
    k := UnsignedDecimalDot(s, i, j);
    AllDigitsSlice(s, i, k);
    AllDigitsSlice(s, k + 1, j);
    DigitsEndAt(s, i, k);
    DigitsEndAt(s, k + 1, j);
  }

  /** An unsigned decimal followed by a non-digit is exactly what the scanner matches. */
  lemma UnsignedDecimalEndComplete(s: string, i: nat, j: nat)
    requires i <= j <= |s| && IsUnsignedDecimal(s[i..j]) && (j == |s| || !IsDigit(s[j]))
    ensures UnsignedDecimalEnd(s, i) == Some(j)
  {
    var k := UnsignedDecimalScan(s, i, j);
  }

  /** A decimal followed by a non-digit is exactly what the scanner matches. */
  lemma DecimalEndComplete(s: string, i: nat, j: nat)
    requires i <= j <= |s| && IsDecimal(s[i..j]) && (j == |s| || !IsDigit(s[j]))
    ensures DecimalEnd(s, i) == Some(j)
  {
    if IsUnsignedDecimal(s[i..j]) {
      var k := UnsignedDecimalScan(s, i, j);
      DigitsEndSpec(s, i);
      assert IsDigit(s[i]);
      UnsignedDecimalEndComplete(s, i, j);
    } else {
      assert s[i..j][1..] == s[i + 1..j];
      UnsignedDecimalEndComplete(s, i + 1, j);
    }
  }

  /** The character-level recogniser accepts exactly the lines the field-wise reading accepts. */
  lemma MatchesIffFields(s: string)
    ensures Matches(s) <==> FieldsMatch(s)
  {
    if Matches(s) {
      MatchesToFields(s);
    }
    if FieldsMatch(s) {
      FieldsToMatches(s);
    }
  }

  /** The timestamp occupies the first positions of `s`. */
  predicate StampAtStart(s: string) {
    |s| >= StampLength && forall k :: 0 <= k < StampLength ==> StampCharOk(k, s[k])
  }

  /** A row of four comma-free fields splits back into those four fields. */
  lemma SplitRow(f0: string, f1: string, f2: string, f3: string)
    requires ',' !in f0 && ',' !in f1 && ',' !in f2 && ',' !in f3
    ensures Split(f0 + [','] + (f1 + [','] + (f2 + [','] + f3))) == [f0, f1, f2, f3]
  {
    var r3 := f2 + [','] + f3;
    var r2 := f1 + [','] + r3;
    SplitNoComma(f3);
    SplitComma(f2, f3);
    SplitComma(f1, r3);
    SplitComma(f0, r2);
  }

  /** The timestamp at the start of `s` is a comma-free stamp field. */
  lemma StampHasNoComma(s: string)
    requires StampAtStart(s)
    ensures IsStamp(s[..StampLength]) && ',' !in s[..StampLength]
  {
    forall k | 0 <= k < StampLength ensures s[..StampLength][k] != ',' {
      assert StampCharOk(k, s[k]);
    }
  }

  lemma NaturalHasNoComma(f: string)
    requires IsNatural(f)
    ensures ',' !in f
  {
    forall k | 0 <= k < |f| ensures f[k] != ',' {
      assert IsDigit(f[k]);
    }
  }

  /** A line with commas at `StampLength`, `a` and `b` is its four slices joined by commas. */
  lemma RowOfSlices(s: string, a: nat, b: nat)
    requires StampLength < a < b < |s|
    requires s[StampLength] == ',' && s[a] == ',' && s[b] == ','
    ensures s == s[..StampLength] + [','] + (s[StampLength + 1..a] + [','] + (s[a + 1..b] + [','] + s[b + 1..]))
  {
    var f0, f1, f2, f3 := s[..StampLength], s[StampLength + 1..a], s[a + 1..b], s[b + 1..];
    var r3 := f2 + [','] + f3;
    var r2 := f1 + [','] + r3;
    assert s[a..] == [','] + r3;
    assert s[StampLength..] == [','] + r2;
  }

  /** The four fields of a row joined by commas sit at the slices between its commas. */
  lemma SlicesOfRow(s: string, f0: string, f1: string, f2: string, f3: string, a: nat, b: nat)
    requires |f0| == StampLength && a == StampLength + 1 + |f1| && b == a + 1 + |f2|
    requires s == f0 + [','] + (f1 + [','] + (f2 + [','] + f3))
    ensures b < |s| && s[StampLength] == ',' && s[a] == ',' && s[b] == ','
    ensures s[..StampLength] == f0 && s[StampLength + 1..a] == f1 && s[a + 1..b] == f2 && s[b + 1..|s|] == f3
  {
    var r3 := f2 + [','] + f3;
    var r2 := f1 + [','] + r3;
    assert s[StampLength + 1..] == r2;
    assert s[a + 1..] == r3;
  }

  /** The scanner's cut points of a matching line: the commas and the three numeric fields between them. */
  lemma MatchesCuts(s: string) returns (a: nat, b: nat)
    requires Matches(s)
    ensures StampLength < a < b < |s| && StampAtStart(s)
    ensures s[StampLength] == ',' && s[a] == ',' && s[b] == ','
    ensures IsDecimal(s[StampLength + 1..a]) && IsNatural(s[a + 1..b]) && IsDecimal(s[b + 1..|s|])
  {
    a := DecimalEnd(s, StampLength + 1).value;
    b := NaturalEnd(s, a + 1).value;
    assert a < |s| && s[a] == ',' && b < |s| && s[b] == ',';
    assert DecimalEnd(s, b + 1) == Some(|s|);
    DecimalEndSound(s, StampLength + 1, a);
    NaturalEndSpec(s, a + 1, b);
    DecimalEndSound(s, b + 1, |s|);
  }

  /** A line whose slices between its commas have the four field shapes reads as four fields. */
  lemma FieldsAt(s: string, a: nat, b: nat)
    requires StampLength < a < b < |s|
    requires StampAtStart(s) && s[StampLength] == ',' && s[a] == ',' && s[b] == ','
    requires IsDecimal(s[StampLength + 1..a]) && IsNatural(s[a + 1..b]) && IsDecimal(s[b + 1..|s|])
    ensures FieldsMatch(s)
  {
    var f0, f1, f2, f3 := s[..StampLength], s[StampLength + 1..a], s[a + 1..b], s[b + 1..];
    assert f3 == s[b + 1..|s|];
    StampHasNoComma(s);
    DecimalHasNoComma(f1);
    NaturalHasNoComma(f2);
    DecimalHasNoComma(f3);
    RowOfSlices(s, a, b);
    SplitRow(f0, f1, f2, f3);
  }

  lemma MatchesToFields(s: string)
    requires Matches(s)
    ensures FieldsMatch(s)
  {
    var a, b := MatchesCuts(s);
    FieldsAt(s, a, b);
  }

  /** The cut points of a line read as four fields: its commas and the three numeric fields. */
  lemma FieldsCuts(s: string) returns (a: nat, b: nat)
    requires FieldsMatch(s)
    ensures StampLength < a < b < |s| && StampAtStart(s)
    ensures s[StampLength] == ',' && s[a] == ',' && s[b] == ','
    ensures IsDecimal(s[StampLength + 1..a]) && IsNatural(s[a + 1..b]) && IsDecimal(s[b + 1..|s|])
  {
    var fs := Split(s);
    JoinSplit(s);
    var f0, f1, f2, f3 := fs[0], fs[1], fs[2], fs[3];
    assert fs == [f0, f1, f2, f3];
    JoinRow(f0, f1, f2, f3);
    a := StampLength + 1 + |f1|;
    b := a + 1 + |f2|;
    SlicesOfRow(s, f0, f1, f2, f3, a, b);
    forall k | 0 <= k < StampLength ensures StampCharOk(k, s[k]) {
      assert s[k] == f0[k];
    }
  }

  /** Joining four fields with commas, as `",".join` does. */
  lemma JoinRow(f0: string, f1: string, f2: string, f3: string)
    ensures Join([f0, f1, f2, f3]) == f0 + [','] + (f1 + [','] + (f2 + [','] + f3))
  {
    assert [f2, f3][1..] == [f3];
    assert Join([f2, f3]) == f2 + [','] + f3;
    assert [f1, f2, f3][1..] == [f2, f3];
    assert Join([f1, f2, f3]) == f1 + [','] + (f2 + [','] + f3);
    assert [f0, f1, f2, f3][1..] == [f1, f2, f3];
  }

  /** A line whose slices between its commas have the four field shapes is matched by the scanner. */
  lemma MatchesAt(s: string, a: nat, b: nat)
    requires StampLength < a < b < |s|
    requires StampAtStart(s) && s[StampLength] == ',' && s[a] == ',' && s[b] == ','
    requires IsDecimal(s[StampLength + 1..a]) && IsNatural(s[a + 1..b]) && IsDecimal(s[b + 1..|s|])
    ensures Matches(s)
  {
    DecimalEndComplete(s, StampLength + 1, a);
    NaturalEndSpec(s, a + 1, b);
    DecimalEndComplete(s, b + 1, |s|);
  }

  lemma FieldsToMatches(s: string)
    requires FieldsMatch(s)
    ensures Matches(s)
  {
    var a, b := FieldsCuts(s);
    MatchesAt(s, a, b);
  }

  /** On a stripped line the trailing-newline allowance of `$` never matters. */
  lemma StrippedValidIsMatch(line: string)
    ensures IsValidLine(Strip(line)) <==> Matches(Strip(line))
  {
    StripIsIdempotent(line);
  }

  /** Every accepted line, with or without a final newline, splits into exactly four fields. */
  lemma ValidLineHasFourFields(s: string)
    requires IsValidLine(s)
    ensures |Split(s)| == 4
  {
    if Matches(s) {
      MatchesToFields(s);
    } else {
      var t := s[..|s| - 1];
      MatchesToFields(t);
      assert s == t + ['\n'];
      SplitAppendCount(t, '\n');
    }
  }

  // ---------------------------------------------------------------------------
  // clean_line
  // ---------------------------------------------------------------------------

  /**
   * The `current` readings of the payload `clean_line` builds, as the CSV text
   * that `float(...)` is applied to.
   */
  datatype Payload = Payload(temperature2m: string, relativeHumidity2m: string, windSpeed10m: string)

  /**
   * `clean_line`, field split only: `_, temp, humidity, wind_speed = line.split(",")`.
   * None is the ValueError the unpacking raises when there are not four fields.
   */
  function CleanLine(line: string): (r: Option<Payload>)
    ensures r.Some? <==> |Split(line)| == 4
  {
    var fs := Split(line);
    if |fs| != 4 then None else Some(Payload(fs[1], fs[2], fs[3]))
  }

  /**
   * Cleaning a CSV row `time,temp,humidity,wind` puts the second, third and
   * fourth columns into temperature, relative humidity and wind speed, and
   * drops the timestamp.
   */
  lemma CleanLineOfRow(time: string, temp: string, humidity: string, wind: string)
    requires ',' !in time && ',' !in temp && ',' !in humidity && ',' !in wind
    ensures CleanLine(Join([time, temp, humidity, wind])) == Some(Payload(temp, humidity, wind))
  {
    SplitJoin([time, temp, humidity, wind]);
  }

  /** `clean_line` cannot fail on a line `is_valid_line` accepted. */
  lemma ValidLineCleans(line: string)
    requires IsValidLine(line)
    ensures CleanLine(line).Some?
  {
    ValidLineHasFourFields(line);
  }
}
