/** Strings as the operator uses them: Go's byte order on strings, and the
    decimal conversions of `strconv` and `intstr`. */
module Text {

  datatype Option<+T> = None | Some(value: T)

  /** A value, a Go error, or a Go panic. */
  datatype Result<+T> = Ok(value: T) | Err | Panic

  // ---------- byte order ----------

  /** Go's `<` on strings. */
  predicate Less(a: string, b: string) {
    if b == "" then false
    else if a == "" then true
    else a[0] < b[0] || (a[0] == b[0] && Less(a[1..], b[1..]))
  }

  lemma {:induction false} LessIrreflexive(a: string)
    ensures !Less(a, a)
  {
    if a != "" { LessIrreflexive(a[1..]); }
  }

  lemma {:induction false} LessTransitive(a: string, b: string, c: string)
    requires Less(a, b) && Less(b, c)
    ensures Less(a, c)
  {
    if a != "" && a[0] == b[0] == c[0] { LessTransitive(a[1..], b[1..], c[1..]); }
  }

  lemma {:induction false} LessTotal(a: string, b: string)
    ensures Less(a, b) || a == b || Less(b, a)
  {
    if a != "" && b != "" && a[0] == b[0] {
      LessTotal(a[1..], b[1..]);
      assert a == [a[0]] + a[1..] && b == [b[0]] + b[1..];
    }
  }

  lemma LessAsymmetric(a: string, b: string)
    requires Less(a, b)
    ensures !Less(b, a)
  {
    LessIrreflexive(a);
    if Less(b, a) { LessTransitive(a, b, a); }
  }

  /** "At most" is transitive. */
  lemma NotLessTransitive(a: string, b: string, c: string)
    requires !Less(b, a) && !Less(c, b)
    ensures !Less(c, a)
  {
    LessTotal(a, b);
    if Less(c, a) && Less(a, b) { LessTransitive(c, a, b); }
  }

  /** Byte order without the recursion: after an equal prefix the first text ends first, or has the smaller byte. */
  lemma {:induction false} LessExactly(a: string, b: string)
    ensures Less(a, b) <==>
            exists i: nat :: i <= |a| && i <= |b| && a[..i] == b[..i]
                             && ((i == |a| && |a| < |b|) || (i < |a| && i < |b| && a[i] < b[i]))
    decreases |a|
  {
    if a != "" && b != "" && a[0] == b[0] {
      LessExactly(a[1..], b[1..]);
      if Less(a, b) {
        var i: nat :| i <= |a[1..]| && i <= |b[1..]| && a[1..][..i] == b[1..][..i]
                      && ((i == |a[1..]| && |a[1..]| < |b[1..]|) || (i < |a[1..]| && i < |b[1..]| && a[1..][i] < b[1..][i]));
        PrefixLonger(a, b, i);
      }
      if i: nat :| i <= |a| && i <= |b| && a[..i] == b[..i] && ((i == |a| && |a| < |b|) || (i < |a| && i < |b| && a[i] < b[i])) {
        PrefixShorter(a, b, i);
      }
    } else if a != "" && b != "" {
      assert a[..0] == b[..0];
      forall i: nat | 0 < i <= |a| && i <= |b| ensures a[..i] != b[..i] { assert a[..i][0] != b[..i][0]; }
    } else {
      assert a[..0] == b[..0];
    }
  }

  lemma LessAt(a: string, b: string, i: nat)
    requires i < |a| && i < |b| && a[..i] == b[..i] && a[i] < b[i]
    ensures Less(a, b)
  {
    LessExactly(a, b);
  }

  lemma PrefixLonger(a: string, b: string, i: nat)
    requires a != "" && b != "" && a[0] == b[0] && i < |a| && i < |b| && a[1..][..i] == b[1..][..i]
    ensures a[..i + 1] == b[..i + 1]
  {
    assert a[..i + 1] == [a[0]] + a[1..][..i] && b[..i + 1] == [b[0]] + b[1..][..i];
  }

  lemma PrefixShorter(a: string, b: string, i: nat)
    requires a != "" && b != "" && i <= |a| && i <= |b| && a[..i] == b[..i]
    ensures i > 0 ==> a[1..][..i - 1] == b[1..][..i - 1]
  {
    if i > 0 { assert a[1..][..i - 1] == a[..i][1..] && b[1..][..i - 1] == b[..i][1..]; }
  }

  // ---------- decimal numbers ----------

  predicate IsDigit(c: char) { '0' <= c <= '9' }

  predicate AllDigits(s: string) { forall i :: 0 <= i < |s| ==> IsDigit(s[i]) }

  /** The number a string of digits denotes. */
  function Decimal(s: string): nat
    requires AllDigits(s)
  {
    if s == "" then 0
    else 10 * Decimal(s[..|s| - 1]) + (s[|s| - 1] as int - '0' as int)
  }

  const INT64_MIN: int := -0x8000_0000_0000_0000
  const INT64_MAX: int := 0x7fff_ffff_ffff_ffff

  /** `strconv.Atoi`: an optional sign and digits, in the range of a 64-bit int. */
  function Atoi(s: string): Option<int> {
    var signed := s != "" && (s[0] == '-' || s[0] == '+');
    var body := if signed then s[1..] else s;
    if body == "" || !AllDigits(body) then None
    else
      var d: int := Decimal(body);
      var n := if signed && s[0] == '-' then -d else d;
      if INT64_MIN <= n <= INT64_MAX then Some(n) else None
  }

  /** The conversion `int32(n)`, which keeps the low 32 bits. */
  function Int32(n: int): (r: int)
    ensures -0x8000_0000 <= r <= 0x7fff_ffff
    ensures -0x8000_0000 <= n <= 0x7fff_ffff ==> r == n
  {
    (n + 0x8000_0000) % 0x1_0000_0000 - 0x8000_0000
  }

  /** `intstr.Parse(s).IntVal`: zero when the text is not a number. */
  function IntVal(s: string): int {
    match Atoi(s)
    case Some(n) => Int32(n)
    case None => 0
  }

  function Digits(n: nat): string {
    if n < 10 then [('0' as int + n) as char]
    else Digits(n / 10) + [('0' as int + n % 10) as char]
  }

  /** `strconv.Itoa`. */
  function Itoa(n: int): string {
    if n < 0 then "-" + Digits(-n) else Digits(n)
  }

  lemma {:induction false} DigitsDenote(n: nat)
    ensures Digits(n) != "" && AllDigits(Digits(n)) && Decimal(Digits(n)) == n
  {
    var d := Digits(n);
    if n < 10 {
      assert d[..|d| - 1] == "";
    } else {
      DigitsDenote(n / 10);
      assert d[..|d| - 1] == Digits(n / 10);
    }
  }

  /** Printing and reading a number is the identity on 64-bit integers, and no other numeral is read. */
  lemma AtoiItoa(n: int)
    ensures Atoi(Itoa(n)) == if -0x8000_0000_0000_0000 <= n <= 0x7fff_ffff_ffff_ffff then Some(n) else None
  {
    DigitsDenote(if n < 0 then -n else n);
    if n < 0 { assert Itoa(n)[1..] == Digits(-n); }
  }

  /** Different numbers have different texts. */
  lemma ItoaInjective(a: int, b: int)
    requires Itoa(a) == Itoa(b)
    ensures a == b
  {
    DigitsDenote(if a < 0 then -a else a);
    DigitsDenote(if b < 0 then -b else b);
    assert a < 0 ==> Itoa(a)[0] == '-' && Itoa(a)[1..] == Digits(-a);
    assert b < 0 ==> Itoa(b)[0] == '-' && Itoa(b)[1..] == Digits(-b);
    assert a >= 0 ==> IsDigit(Itoa(a)[0]);
    assert b >= 0 ==> IsDigit(Itoa(b)[0]);
  }

  /** What `strconv.Atoi` and `intstr.Parse` make of some texts. */
  lemma AtoiCases()
    ensures Atoi("5") == Atoi("+5") == Some(5) && Atoi("-5") == Some(-5)
    ensures Atoi("") == Atoi("-") == Atoi("5a") == Atoi(" 5") == None
    ensures Atoi("42") == Some(42) && IntVal("42") == 42 && IntVal("x") == 0
  {
    assert Decimal("5") == 5 by { assert "5"[..0] == ""; }
    assert "+5"[1..] == "5" && "-5"[1..] == "5" && "-"[1..] == "";
    assert !IsDigit("5a"[1]) && !IsDigit(" 5"[0]) && !IsDigit("x"[0]);
    assert "42"[..1] == "4" && Decimal("4") == 4 by { assert "4"[..0] == ""; }
  }

  /** The number kept is the given one up to a multiple of two to the 32. */
  lemma Int32Congruent(n: int)
    ensures (n - Int32(n)) % 0x1_0000_0000 == 0
    ensures Int32(0x1_0000_0005) == 5 && Int32(0x8000_0000) == -0x8000_0000
  {
  }

  // ---------- splitting and joining ----------

  /** The pieces of `s` between separators, as `strings.Split` gives them for a one-byte separator. */
  function Split(s: string, sep: char): (r: seq<string>)
    ensures |r| > 0
  {
    if s == "" then [""]
    else
      var rest := Split(s[1..], sep);
      if s[0] == sep then [""] + rest else [[s[0]] + rest[0]] + rest[1..]
  }

  /** `strings.Join`. */
  function Join(parts: seq<string>, sep: string): string {
    if parts == [] then ""
    else if |parts| == 1 then parts[0]
    else parts[0] + sep + Join(parts[1..], sep)
  }

  /** `strings.TrimLeft(s, "-")`. */
  function TrimDashes(s: string): string {
    if s != "" && s[0] == '-' then TrimDashes(s[1..]) else s
  }

  /** Splitting gives pieces without the separator that join to the text again. */
  lemma {:induction false} SplitJoins(s: string, sep: char)
    ensures Join(Split(s, sep), [sep]) == s
    ensures forall i :: 0 <= i < |Split(s, sep)| ==> sep !in Split(s, sep)[i]
  {
    if s != "" {
      SplitJoins(s[1..], sep);
      var rest := Split(s[1..], sep);
      assert s == [s[0]] + s[1..];
      if s[0] == sep {
        assert ([""] + rest)[1..] == rest;
      } else {
        var all := [[s[0]] + rest[0]] + rest[1..];
        assert all[1..] == rest[1..];
        assert Join(all, [sep]) == [s[0]] + Join(rest, [sep]);
      }
    }
  }

  /** Joining puts the separator between neighbours. */
  lemma {:induction false} JoinAdds(parts: seq<string>, last: string, sep: string)
    requires parts != []
    ensures Join([last], sep) == last
    ensures Join(parts + [last], sep) == Join(parts, sep) + sep + last
    decreases |parts|
  {
    if |parts| == 1 {
      assert (parts + [last])[1..] == [last];
    } else {
      assert (parts + [last])[1..] == parts[1..] + [last];
      JoinAdds(parts[1..], last, sep);
    }
  }

  /** Trimming takes exactly the leading dashes. */
  lemma {:induction false} TrimTakesDashes(s: string)
    ensures var t := TrimDashes(s);
            && |t| <= |s| && s[|s| - |t|..] == t && (t != "" ==> t[0] != '-')
            && forall i :: 0 <= i < |s| - |t| ==> s[i] == '-'
    decreases |s|
  {
    if s != "" && s[0] == '-' {
      TrimTakesDashes(s[1..]);
      var t := TrimDashes(s);
      forall i | 0 <= i < |s| - |t| ensures s[i] == '-' { if i > 0 { assert s[i] == s[1..][i - 1]; } }
      assert s[|s| - |t|..] == s[1..][|s[1..]| - |t|..];
    }
  }
}
