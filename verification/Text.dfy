/** Strings as the program uses them: splitting and joining at a separator, prefix tests,
    white-space trimming, and decimal numbers. A string is a sequence of Unicode scalar
    values; Go's byte strings hold the same text in UTF-8. */
module Text {

  datatype Option<+T> = None | Some(value: T)

  // ----- strings.Split and strings.Join with a one-character separator -----

  /** The pieces of s between separators; always at least one. */
  function Split(s: string, sep: char): (parts: seq<string>)
    ensures |parts| >= 1
    ensures forall i :: 0 <= i < |parts| ==> sep !in parts[i]
  {
    if s == "" then [""]
    else if s[0] == sep then [""] + Split(s[1..], sep)
    else
      var rest := Split(s[1..], sep);
      [[s[0]] + rest[0]] + rest[1..]
  }

  function Join(parts: seq<string>, sep: char): string
  {
    if |parts| == 0 then ""
    else if |parts| == 1 then parts[0]
    else parts[0] + [sep] + Join(parts[1..], sep)
  }

  /** Joining undoes splitting, for every string. */
  lemma {:induction false} JoinSplit(s: string, sep: char)
    ensures Join(Split(s, sep), sep) == s
  {
    if s != "" {
      var rest := Split(s[1..], sep);
      JoinSplit(s[1..], sep);
      if s[0] == sep {
        assert Split(s, sep)[1..] == rest;
        assert s == [s[0]] + s[1..];
      } else {
        assert Split(s, sep)[1..] == rest[1..];
        assert s == [s[0]] + s[1..];
        if |rest| > 1 {
          assert [s[0]] + (rest[0] + [sep] + Join(rest[1..], sep)) ==
                 ([s[0]] + rest[0]) + [sep] + Join(rest[1..], sep);
        }
      }
    }
  }

  /** A string without the separator is one piece. */
  lemma {:induction false} SplitOne(s: string, sep: char)
    requires sep !in s
    ensures Split(s, sep) == [s]
  {
    if s != "" {
      SplitOne(s[1..], sep);
      assert s == [s[0]] + s[1..];
    }
  }

  /** Splitting works from left to right: it distributes over a separator. */
  lemma {:induction false} SplitAtSeparator(a: string, sep: char, b: string)
    ensures Split(a + [sep] + b, sep) == Split(a, sep) + Split(b, sep)
  {
    if a == "" {
      assert (a + [sep] + b)[1..] == b;
    } else {
      assert (a + [sep] + b)[1..] == a[1..] + [sep] + b;
      SplitAtSeparator(a[1..], sep, b);
    }
  }

  /** Splitting undoes joining exactly on non-empty lists of separator-free pieces. */
  lemma {:induction false} SplitJoin(parts: seq<string>, sep: char)
    ensures Split(Join(parts, sep), sep) == parts <==>
            parts != [] && forall i :: 0 <= i < |parts| ==> sep !in parts[i]
  {
    if parts != [] && (forall i :: 0 <= i < |parts| ==> sep !in parts[i]) {
      SplitOne(parts[0], sep);
      if |parts| > 1 {
        SplitJoin(parts[1..], sep);
        SplitAtSeparator(parts[0], sep, Join(parts[1..], sep));
        assert parts == [parts[0]] + parts[1..];
      } else {
        assert parts == [parts[0]];
      }
    }
  }

  /** No piece of a split text contains the separator. */
  lemma {:induction false} PiecesAreApart(s: string, sep: char)
    ensures forall i :: 0 <= i < |Split(s, sep)| ==> sep !in Split(s, sep)[i]
  {
    JoinSplit(s, sep);
    SplitJoin(Split(s, sep), sep);
  }

  lemma {:induction false} JoinAppend(a: seq<string>, b: seq<string>, sep: char)
    requires a != [] && b != []
    ensures Join(a + b, sep) == Join(a, sep) + [sep] + Join(b, sep)
    decreases |a|
  {
    assert (a + b)[0] == a[0] && (a + b)[1..] == a[1..] + b;
    if |a| > 1 {
      JoinAppend(a[1..], b, sep);
      assert a[0] + [sep] + (Join(a[1..], sep) + [sep] + Join(b, sep)) ==
             a[0] + [sep] + Join(a[1..], sep) + [sep] + Join(b, sep);
    } else {
      assert a[1..] == [] && a[1..] + b == b;
    }
  }

  // ----- white space -----

  /** unicode.IsSpace */
  predicate IsSpace(c: char)
  {
    c == '\t' || c == '\n' || c == '\U{0B}' || c == '\U{0C}' || c == '\r' || c == ' ' ||
    c == '\U{85}' || c == '\U{A0}' || c == '\U{1680}' || '\U{2000}' <= c <= '\U{200A}' ||
    c == '\U{2028}' || c == '\U{2029}' || c == '\U{202F}' || c == '\U{205F}' || c == '\U{3000}'
  }

  function TrimLeft(s: string): string
  {
    if s != "" && IsSpace(s[0]) then TrimLeft(s[1..]) else s
  }

  function TrimRight(s: string): string
  {
    if s != "" && IsSpace(s[|s| - 1]) then TrimRight(s[..|s| - 1]) else s
  }

  /** bytes.TrimSpace */
  function TrimSpace(s: string): string
  {
    TrimRight(TrimLeft(s))
  }

  /** No white space at either end. */
  predicate Trimmed(s: string)
  {
    s == "" || (!IsSpace(s[0]) && !IsSpace(s[|s| - 1]))
  }

  predicate AllSpace(s: string)
  {
    forall i :: 0 <= i < |s| ==> IsSpace(s[i])
  }

  lemma {:induction false} TrimLeftDrops(s: string)
    ensures |TrimLeft(s)| <= |s|
    ensures TrimLeft(s) == s[|s| - |TrimLeft(s)|..]
    ensures AllSpace(s[..|s| - |TrimLeft(s)|])
    ensures TrimLeft(s) != "" ==> !IsSpace(TrimLeft(s)[0])
  {
    if s != "" && IsSpace(s[0]) {
      TrimLeftDrops(s[1..]);
      var n := |s| - |TrimLeft(s)|;
      assert s[..n] == [s[0]] + s[1..][..n - 1];
    }
  }

  lemma {:induction false} TrimRightDrops(s: string)
    ensures |TrimRight(s)| <= |s|
    ensures TrimRight(s) == s[..|TrimRight(s)|]
    ensures AllSpace(s[|TrimRight(s)|..])
    ensures TrimRight(s) != "" ==> !IsSpace(TrimRight(s)[|TrimRight(s)| - 1])
  {
    if s != "" && IsSpace(s[|s| - 1]) {
      TrimRightDrops(s[..|s| - 1]);
      var n := |TrimRight(s)|;
      assert s[n..] == s[..|s| - 1][n..] + [s[|s| - 1]];
    }
  }

  /** Trimming is characterised by what it leaves: padding a trimmed text with white space
      and trimming it gives the text back. */
  lemma {:induction false} TrimPadded(left: string, s: string, right: string)
    requires AllSpace(left) && AllSpace(right) && Trimmed(s)
    ensures TrimSpace(left + s + right) == s
  {
    if left != "" {
      assert (left + s + right)[1..] == left[1..] + s + right;
      TrimPadded(left[1..], s, right);
    } else {
      assert left + s + right == s + right;
      if s == "" {
        assert left + s + right == right;
        TrimLeftAllSpace(right);
      } else {
        TrimRightPadded(s, right);
      }
    }
  }

  lemma {:induction false} TrimLeftAllSpace(s: string)
    requires AllSpace(s)
    ensures TrimLeft(s) == ""
  {
    if s != "" {
      TrimLeftAllSpace(s[1..]);
    }
  }

  lemma {:induction false} TrimRightPadded(s: string, right: string)
    requires AllSpace(right) && s != "" && !IsSpace(s[|s| - 1])
    ensures TrimRight(s + right) == s
  {
    if right != "" {
      assert (s + right)[..|s + right| - 1] == s + right[..|right| - 1];
      TrimRightPadded(s, right[..|right| - 1]);
    } else {
      assert s + right == s;
    }
  }

  /** What trimming returns is trimmed, and a shorter text unless nothing was to trim. */
  lemma TrimSpaceResult(s: string)
    ensures Trimmed(TrimSpace(s))
    ensures TrimSpace(s) == s <==> Trimmed(s)
    ensures |TrimSpace(s)| <= |s|
    ensures forall c :: c in TrimSpace(s) ==> c in s
    ensures exists l, r :: AllSpace(l) && AllSpace(r) && s == l + TrimSpace(s) + r
  {
    var l, r := TrimSpaceParts(s);
    assert s == l + TrimSpace(s) + r;
    if Trimmed(s) {
      assert "" + s + "" == s;
      TrimPadded("", s, "");
    }
  }

  lemma TrimSpaceParts(s: string) returns (l: string, r: string)
    ensures AllSpace(l) && AllSpace(r) && s == l + TrimSpace(s) + r && Trimmed(TrimSpace(s))
  {
    TrimLeftDrops(s);
    var t := TrimLeft(s);
    TrimRightDrops(t);
    var u := TrimRight(t);
    l, r := s[..|s| - |t|], t[|u|..];
    assert s == l + t && t == u + r;
    if u != "" {
      assert u[0] == t[0];
    }
  }

  // ----- decimal numbers -----

  function DigitChar(d: nat): (c: char)
    requires d < 10
    ensures '0' <= c <= '9' && !IsSpace(c)
  {
    '0' + d as char
  }

  /** fmt's %d for an unsigned number. */
  function Decimal(n: nat): (s: string)
    ensures s != "" && forall i :: 0 <= i < |s| ==> '0' <= s[i] <= '9'
  {
    if n < 10 then [DigitChar(n)] else Decimal(n / 10) + [DigitChar(n % 10)]
  }

  function ParseDigits(s: string): Option<nat>
  {
    if s == "" then Some(0)
    else
      var c := s[|s| - 1];
      var rest := ParseDigits(s[..|s| - 1]);
      if rest.None? || c < '0' || c > '9' then None
      else Some(10 * rest.value + (c - '0') as nat)
  }

  const INT64_LIMIT: nat := 0x8000_0000_0000_0000

  /** strconv.ParseInt(s, 10, 64): an optional sign, at least one digit, and the signed
      64-bit range; None stands for any of its errors. */
  function ParseInt(s: string): Option<int>
  {
    if s == "" then None
    else
      var signed := s[0] == '+' || s[0] == '-';
      var digits := if signed then s[1..] else s;
      var magnitude := if digits == "" then None else ParseDigits(digits);
      if magnitude.None? then None
      else if s[0] == '-' then (if magnitude.value > INT64_LIMIT then None else Some(-magnitude.value))
      else if magnitude.value >= INT64_LIMIT then None
      else Some(magnitude.value)
  }

  lemma {:induction false} ParseDigitsDecimal(n: nat)
    ensures ParseDigits(Decimal(n)) == Some(n)
  {
    var s := Decimal(n);
    if n < 10 {
      assert s[..|s| - 1] == "";
    } else {
      ParseDigitsDecimal(n / 10);
      assert s[..|s| - 1] == Decimal(n / 10);
    }
  }

  /** Reading back a printed number gives the number, exactly when it fits 63 bits. */
  lemma {:induction false} ParseIntDecimal(n: nat)
    ensures ParseInt(Decimal(n)) == if n < INT64_LIMIT then Some(n) else None
  {
    ParseDigitsDecimal(n);
  }

  predicate IsDigit(c: char)
  {
    '0' <= c <= '9'
  }

  /** A number is printed without leading zeros. */
  lemma {:induction false} DecimalShape(n: nat)
    ensures |Decimal(n)| == 1 || Decimal(n)[0] != '0'
    ensures |Decimal(n)| == 1 <==> n < 10
  {
    if n >= 10 {
      DecimalShape(n / 10);
    }
  }

  lemma {:induction false} ParseDigitsAccepts(s: string)
    ensures ParseDigits(s).Some? <==> forall i :: 0 <= i < |s| ==> IsDigit(s[i])
  {
    if s != "" {
      ParseDigitsAccepts(s[..|s| - 1]);
    }
  }

  /** What is read as a number: an optional sign and at least one digit, in the signed 64-bit
      range; a minus sign negates, a plus sign does not matter. */
  lemma {:induction false} ParseIntAccepts(s: string)
    ensures ParseInt(s).Some? ==>
              var digits := if s != "" && (s[0] == '+' || s[0] == '-') then s[1..] else s;
              digits != "" && forall i :: 0 <= i < |digits| ==> IsDigit(digits[i])
    ensures ParseInt(s).Some? ==> 0 - INT64_LIMIT <= ParseInt(s).value < INT64_LIMIT
  {
    ParseDigitsAccepts(s);
    if s != "" {
      ParseDigitsAccepts(s[1..]);
    }
  }

  lemma {:induction false} ParseIntSigned(n: nat)
    ensures ParseInt("+" + Decimal(n)) == ParseInt(Decimal(n))
    ensures ParseInt("-" + Decimal(n)) == if n <= INT64_LIMIT then Some(0 - n) else None
  {
    ParseDigitsDecimal(n);
    assert ("+" + Decimal(n))[1..] == Decimal(n) && ("-" + Decimal(n))[1..] == Decimal(n);
  }
}
