/** The string operations the core relies on, with Rust's meaning:
    `str::trim`, `str::lines` and the decimal formatting `format!` gives
    an `i64`. Each comes with the property that pins it down. */
module Text {
  import opened Wrappers

  /** `char::is_whitespace`: the characters with the Unicode White_Space property. */
  predicate IsWhitespace(c: char) {
    ('\t' <= c <= '\r') || c == ' ' || c == '\U{85}' || c == '\U{A0}' || c == '\U{1680}'
    || ('\U{2000}' <= c <= '\U{200A}') || c == '\U{2028}' || c == '\U{2029}'
    || c == '\U{202F}' || c == '\U{205F}' || c == '\U{3000}'
  }

  /** Neither end of `s` is white space. */
  predicate IsTrimmed(s: string) {
    s != [] ==> !IsWhitespace(s[0]) && !IsWhitespace(s[|s| - 1])
  }

  /** How many white-space characters `s` starts with. */
  function LeadingWhitespace(s: string): (n: nat)
    ensures n <= |s|
    ensures forall k :: 0 <= k < n ==> IsWhitespace(s[k])
    ensures n < |s| ==> !IsWhitespace(s[n])
  {
    if |s| > 0 && IsWhitespace(s[0]) then 1 + LeadingWhitespace(s[1..]) else 0
  }

  /** How many white-space characters `s` ends with. */
  function TrailingWhitespace(s: string): (n: nat)
    ensures n <= |s|
    ensures forall k :: |s| - n <= k < |s| ==> IsWhitespace(s[k])
    ensures n < |s| ==> !IsWhitespace(s[|s| - 1 - n])
  {
    if |s| > 0 && IsWhitespace(s[|s| - 1]) then 1 + TrailingWhitespace(s[..|s| - 1]) else 0
  }

  /** `str::trim`: the part of `s` between its leading and its trailing
      white space. The result is a contiguous piece of `s` that neither
      starts nor ends with white space, and everything of `s` outside it
      is white space. */
  function Trim(s: string): (r: string)
    ensures LeadingWhitespace(s) + |r| <= |s|
    ensures r == s[LeadingWhitespace(s)..LeadingWhitespace(s) + |r|]
    ensures forall k :: 0 <= k < |s| && !(LeadingWhitespace(s) <= k < LeadingWhitespace(s) + |r|) ==> IsWhitespace(s[k])
    ensures IsTrimmed(r)
  {
    var rest := s[LeadingWhitespace(s)..];
    rest[..|rest| - TrailingWhitespace(rest)]
  }

  /** Trimming twice is trimming once. */
  lemma TrimIdempotent(s: string)
    ensures Trim(Trim(s)) == Trim(s)
  {
    var r := Trim(s);
    if r != [] {
      assert !IsWhitespace(r[0]);
      assert LeadingWhitespace(r) == 0;
      assert TrailingWhitespace(r) == 0;
    }
  }

  /** Where the first line of `s` ends: the index of its first line feed,
      or `|s|` when it has none. */
  function LineEnd(s: string): (k: nat)
    ensures k <= |s|
    ensures forall j :: 0 <= j < k ==> s[j] != '\n'
    ensures k < |s| ==> s[k] == '\n'
  {
    if |s| == 0 || s[0] == '\n' then 0 else 1 + LineEnd(s[1..])
  }

  /** A line that was ended by "\r\n" loses its carriage return. */
  function DropCarriageReturn(line: string): string {
    if |line| > 0 && line[|line| - 1] == '\r' then line[..|line| - 1] else line
  }

  /** `str::lines`: `s` cut after every line feed; each piece loses its
      line feed and then one carriage return before it. The last line
      need not end in a line feed, and an empty text has no lines. */
  function Lines(s: string): (r: seq<string>)
    ensures forall i :: 0 <= i < |r| ==> '\n' !in r[i]
    ensures r == [] <==> s == []
    decreases |s|
  {
    if s == [] then []
    else
      var k := LineEnd(s);
      if k == |s| then [s]
      else [DropCarriageReturn(s[..k])] + Lines(s[k + 1..])
  }

  /** Lines put back together with a line feed between each two. */
  function JoinLines(lines: seq<string>): string {
    if |lines| == 0 then []
    else if |lines| == 1 then lines[0]
    else lines[0] + "\n" + JoinLines(lines[1..])
  }

  /** Joining a first line onto further lines, with `tail` after them. */
  lemma JoinLinesCons(line: string, rest: seq<string>, tail: string)
    requires rest != []
    ensures JoinLines([line] + rest) + tail == line + "\n" + (JoinLines(rest) + tail)
  {
    assert ([line] + rest)[1..] == rest;
  }

  /** A sequence is what comes before position `k`, the element there and what follows. */
  lemma SplitAround<T>(s: seq<T>, k: nat)
    requires k < |s|
    ensures s == s[..k] + [s[k]] + s[k + 1..]
  {
    var t := s[..k] + [s[k]] + s[k + 1..];
    assert |t| == |s|;
    forall j | 0 <= j < |s|
      ensures t[j] == s[j]
    {
      if j < k {
        assert t[j] == s[..k][j];
      } else if j > k {
        assert t[j] == s[k + 1..][j - k - 1];
      }
    }
  }

  /** A text with a line feed is its first line, the line feed and the rest. */
  lemma LinesUnfold(s: string)
    requires LineEnd(s) < |s|
    ensures s == s[..LineEnd(s)] + "\n" + s[LineEnd(s) + 1..]
    ensures Lines(s) == [DropCarriageReturn(s[..LineEnd(s)])] + Lines(s[LineEnd(s) + 1..])
  {
    SplitAround(s, LineEnd(s));
  }

  /** The line feed a text ends with, if it ends with one. */
  function FinalFeed(s: string): string {
    if s != [] && s[|s| - 1] == '\n' then "\n" else ""
  }

  /** The inductive step of `LinesJoin`, on a text known to be a line, a
      line feed and a non-empty rest. */
  lemma LinesJoinStep(s: string, line: string, rest: string)
    requires rest != [] && s == line + "\n" + rest
    requires Lines(s) == [line] + Lines(rest)
    requires JoinLines(Lines(rest)) + FinalFeed(rest) == rest
    ensures JoinLines(Lines(s)) + FinalFeed(s) == s
  {
    assert FinalFeed(s) == FinalFeed(rest) by {
      assert s[|s| - 1] == rest[|rest| - 1];
    }
    JoinLinesCons(line, Lines(rest), FinalFeed(rest));
  }

  /** In a text without carriage returns, the first line keeps its
      last character and the rest has no carriage return either. */
  lemma NoCarriageReturn(s: string, k: nat, rest: string)
    requires k < |s| && rest == s[k + 1..]
    requires forall j :: 0 <= j < |s| ==> s[j] != '\r'
    ensures DropCarriageReturn(s[..k]) == s[..k]
    ensures forall j :: 0 <= j < |rest| ==> rest[j] != '\r'
  {
    if k > 0 {
      assert s[..k][k - 1] == s[k - 1];
    }
    assert forall j :: 0 <= j < |rest| ==> rest[j] == s[k + 1 + j];
  }

  /** `s` saved with Windows line ends: a carriage return before every
      line feed. */
  function ToCrlf(s: string): string
    decreases |s|
  {
    if s == [] then []
    else ToCrlf(s[..|s| - 1]) + if s[|s| - 1] == '\n' then "\r\n" else [s[|s| - 1]]
  }

  lemma {:induction false} ToCrlfAppend(a: string, b: string)
    ensures ToCrlf(a + b) == ToCrlf(a) + ToCrlf(b)
    decreases |b|
  {
    if b != [] {
      var front := b[..|b| - 1];
      assert (a + b)[..|a + b| - 1] == a + front;
      assert (a + b)[|a + b| - 1] == b[|b| - 1];
      ToCrlfAppend(a, front);
    } else {
      assert a + b == a;
    }
  }

  lemma {:induction false} ToCrlfNoFeed(s: string)
    requires forall j :: 0 <= j < |s| ==> s[j] != '\n'
    ensures ToCrlf(s) == s
    decreases |s|
  {
    if s != [] {
      var front := s[..|s| - 1];
      assert forall j :: 0 <= j < |front| ==> front[j] == s[j];
      ToCrlfNoFeed(front);
      assert s == front + [s[|s| - 1]];
    }
  }

  /** The first line feed of `s`, found by position. */
  lemma LineEndAt(s: string, k: nat)
    requires k < |s| && s[k] == '\n'
    requires forall j :: 0 <= j < k ==> s[j] != '\n'
    ensures LineEnd(s) == k
  {
  }

  /** A line ended by "\r\n" is read without its carriage return. */
  lemma LinesCrlf(line: string, rest: string)
    requires forall j :: 0 <= j < |line| ==> line[j] != '\n'
    ensures Lines(line + "\r\n" + rest) == [line] + Lines(rest)
  {
    var s := line + "\r\n" + rest;
    var k := |line| + 1;
    LineEndAt(s, k);
    assert s[..k] == line + "\r";
    assert s[k + 1..] == rest;
  }

  /** A text without carriage returns splits into the same lines whether
      its line ends are Unix ("\n") or Windows ("\r\n") ones. */
  lemma {:induction false} LinesToCrlf(s: string)
    requires forall j :: 0 <= j < |s| ==> s[j] != '\r'
    ensures Lines(ToCrlf(s)) == Lines(s)
    decreases |s|
  {
    var k := LineEnd(s);
    if k == |s| {
      ToCrlfNoFeed(s);
    } else {
      var line, rest := s[..k], s[k + 1..];
      LinesUnfold(s);
      NoCarriageReturn(s, k, rest);
      ToCrlfNoFeed(line);
      ToCrlfAppend(line + "\n", rest);
      ToCrlfAppend(line, "\n");
      assert ToCrlf("\n") == "\r\n" by {
        assert "\n"[..0] == [];
      }
      LinesCrlf(line, ToCrlf(rest));
      LinesToCrlf(rest);
    }
  }

  /** Without carriage returns, `Lines` loses nothing but an optional
      final line feed: joining the lines again gives back the text. */
  lemma {:induction false} LinesJoin(s: string)
    requires forall j :: 0 <= j < |s| ==> s[j] != '\r'
    ensures JoinLines(Lines(s)) + FinalFeed(s) == s
    decreases |s|
  {
    if s != [] && LineEnd(s) < |s| {
      var k := LineEnd(s);
      var line, rest := s[..k], s[k + 1..];
      LinesUnfold(s);
      NoCarriageReturn(s, k, rest);
      if rest == [] {
        assert Lines(s) == [line];
        assert FinalFeed(s) == "\n";
      } else {
        LinesJoin(rest);
        LinesJoinStep(s, line, rest);
      }
    }
  }

  /** The character of a decimal digit. */
  function DigitChar(d: nat): (c: char)
    requires d < 10
    ensures '0' <= c <= '9'
  {
    ('0' as int + d) as char
  }

  /** The value of a decimal digit character, if it is one. */
  function DigitValue(c: char): (r: Option<nat>)
    ensures r.Some? <==> '0' <= c <= '9'
    ensures r.Some? ==> r.value < 10 && DigitChar(r.value) == c
  {
    if '0' <= c <= '9' then Some(c as int - '0' as int) else None
  }

  /** The decimal digits of `n`, most significant first, without leading zeros. */
  function NatDigits(n: nat): (r: string)
    ensures |r| >= 1
    ensures forall i :: 0 <= i < |r| ==> '0' <= r[i] <= '9'
  {
    if n < 10 then [DigitChar(n)] else NatDigits(n / 10) + [DigitChar(n % 10)]
  }

  /** `format!("{}", n)` of a signed integer: a minus sign for a negative
      value, then the digits of its magnitude. */
  function Decimal(n: int): string {
    if n < 0 then "-" + NatDigits(-n) else NatDigits(n)
  }

  /** Reads a non-empty string of decimal digits. */
  function ParseNat(s: string): Option<nat>
    decreases |s|
  {
    if |s| == 0 then None
    else
      match DigitValue(s[|s| - 1])
      case None => None
      case Some(d) =>
        if |s| == 1 then Some(d)
        else
          match ParseNat(s[..|s| - 1])
          case None => None
          case Some(m) => Some(10 * m + d)
  }

  /** Reads an optionally negative decimal integer. */
  function ParseInt(s: string): Option<int> {
    if |s| > 0 && s[0] == '-' then
      var m := ParseNat(s[1..]);
      if m.Some? then Some(-(m.value as int)) else None
    else
      var m := ParseNat(s);
      if m.Some? then Some(m.value as int) else None
  }

  lemma {:induction false} NatDigitsRoundTrip(n: nat)
    ensures ParseNat(NatDigits(n)) == Some(n)
  {
    if n >= 10 {
      NatDigitsRoundTrip(n / 10);
      var s := NatDigits(n);
      assert s[..|s| - 1] == NatDigits(n / 10);
      assert DigitValue(s[|s| - 1]) == Some(n % 10);
    } else {
      assert DigitValue(DigitChar(n)) == Some(n);
    }
  }

  lemma ParseIntNegative(digits: string)
    requires ParseNat(digits).Some?
    ensures ParseInt("-" + digits) == Some(-(ParseNat(digits).value as int))
  {
    assert ("-" + digits)[1..] == digits;
  }

  lemma ParseIntDigits(digits: string)
    requires ParseNat(digits).Some? && digits[0] != '-'
    ensures ParseInt(digits) == Some(ParseNat(digits).value as int)
  {
  }

  /** Decimal formatting loses nothing: the integer can be read back. */
  lemma {:induction false} DecimalRoundTrip(n: int)
    ensures ParseInt(Decimal(n)) == Some(n)
  {
    if n < 0 {
      NatDigitsRoundTrip(-n);
      ParseIntNegative(NatDigits(-n));
    } else {
      NatDigitsRoundTrip(n);
      ParseIntDigits(NatDigits(n));
    }
  }

  /** Distinct integers are written differently. */
  lemma DecimalInjective(a: int, b: int)
    ensures Decimal(a) == Decimal(b) ==> a == b
  {
    DecimalRoundTrip(a);
    DecimalRoundTrip(b);
  }

  /** A numeral as `format!` writes a natural number: digits only, with
      no leading zero unless the numeral is the single digit 0. */
  predicate CanonicalNat(s: string) {
    && |s| > 0
    && (forall i :: 0 <= i < |s| ==> '0' <= s[i] <= '9')
    && (s[0] == '0' ==> |s| == 1)
  }

  /** A numeral as `format!` writes an integer: a canonical natural
      numeral, or a minus sign before a canonical numeral other than 0
      (so neither "007" nor "-0" is one). */
  predicate CanonicalInt(s: string) {
    || CanonicalNat(s)
    || (|s| > 1 && s[0] == '-' && s[1] != '0' && CanonicalNat(s[1..]))
  }

  /** The digits of `n` start with 0 only when `n` is 0. */
  lemma {:induction false} NatDigitsLeading(n: nat)
    ensures NatDigits(n)[0] == '0' <==> n == 0
  {
    if n >= 10 {
      NatDigitsLeading(n / 10);
    }
  }

  /** `Decimal` writes every integer in canonical form. */
  lemma DecimalCanonical(n: int)
    ensures CanonicalInt(Decimal(n))
  {
    if n < 0 {
      NatDigitsLeading(-n);
      assert Decimal(n)[1..] == NatDigits(-n);
    } else {
      NatDigitsLeading(n);
    }
  }

  /** A canonical natural numeral is read and written back unchanged. */
  lemma {:induction false} CanonicalNatRoundTrip(s: string)
    requires CanonicalNat(s)
    ensures ParseNat(s).Some? && NatDigits(ParseNat(s).value) == s
    decreases |s|
  {
    var c := s[|s| - 1];
    var d := DigitValue(c).value;
    if |s| > 1 {
      var front := s[..|s| - 1];
      assert front[0] == s[0];
      CanonicalNatRoundTrip(front);
      var m := ParseNat(front).value;
      NatDigitsLeading(m);
      var v := 10 * m + d;
      assert ParseNat(s) == Some(v);
      assert v / 10 == m && v % 10 == d;
      assert s == front + [c];
    } else {
      assert s == [DigitChar(d)];
    }
  }

  /** Conversely to `DecimalRoundTrip`, the canonical numerals are exactly
      the ones `Decimal` writes: reading one and writing the value gives
      the same text. */
  lemma CanonicalRoundTrip(s: string)
    requires CanonicalInt(s)
    ensures ParseInt(s).Some? && Decimal(ParseInt(s).value) == s
  {
    if s[0] == '-' {
      var digits := s[1..];
      assert CanonicalNat(digits);
      CanonicalNatRoundTrip(digits);
      var m := ParseNat(digits).value;
      NatDigitsLeading(m);
      assert ParseInt(s) == Some(-(m as int));
      assert Decimal(-(m as int)) == "-" + NatDigits(m);
      assert s == "-" + digits;
    } else {
      assert CanonicalNat(s);
      CanonicalNatRoundTrip(s);
      assert ParseInt(s) == Some(ParseNat(s).value as int);
    }
  }

  /** The middle of `s` once `prefix` and `suffix` are cut off, when `s`
      starts with `prefix` and ends with `suffix`, clear of each other. */
  function StripAffixes(s: string, prefix: string, suffix: string): (r: Option<string>)
    ensures r.Some? ==> s == prefix + r.value + suffix
  {
    if |prefix| + |suffix| <= |s| && s[..|prefix|] == prefix && s[|s| - |suffix|..] == suffix then
      var m := s[|prefix|..|s| - |suffix|];
      assert s == s[..|prefix|] + m + s[|s| - |suffix|..];
      Some(m)
    else None
  }

  /** Text built by surrounding a middle part with fixed pieces gives
      that middle part back. */
  lemma StripAffixesInverse(prefix: string, middle: string, suffix: string)
    ensures StripAffixes(prefix + middle + suffix, prefix, suffix) == Some(middle)
  {
    var s := prefix + middle + suffix;
    assert s[..|prefix|] == prefix;
    assert s[|s| - |suffix|..] == suffix;
    assert s[|prefix|..|s| - |suffix|] == middle;
  }
}
