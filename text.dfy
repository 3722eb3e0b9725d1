/** Character-level helpers shared by the configuration parser, the module-parameter
    directive interpreter, the list splitter and the blob-record writer: ASCII case folding
    as `strcasecmp`/`strncasecmp` see it, C strings inside a buffer, `sscanf("%d")` / `atoi`
    and decimal printing of integers. */
module CText {

  datatype Option<+T> = None | Some(value: T)

  /** The C string terminator. */
  const NUL: char := '\0'

  /** `tolower` in the C locale: only 'A'..'Z' change. */
  function Lower(c: char): char
  {
    if 'A' <= c <= 'Z' then (c as int + 32) as char else c
  }

  /** `strcasecmp(a, b) == 0` for two strings without an embedded NUL. */
  predicate EqualIgnoringCase(a: string, b: string)
  {
    |a| == |b| && forall k :: 0 <= k < |a| ==> Lower(a[k]) == Lower(b[k])
  }

  /** `strcasecmp(a, b) == 0` as the library computes it: character by character. */
  predicate StrCaseEq(a: string, b: string)
  {
    StrCaseEqFrom(a, b, 0)
  }

  /** The comparison from position `k` on: equal characters up to the end of both. */
  predicate StrCaseEqFrom(a: string, b: string, k: nat)
    decreases |a| - k
  {
    if |a| <= k || |b| <= k then |a| == |b|
    else Lower(a[k]) == Lower(b[k]) && StrCaseEqFrom(a, b, k + 1)
  }

  /** The character-by-character comparison agrees with `EqualIgnoringCase`. */
  lemma StrCaseEqIff(a: string, b: string)
    ensures StrCaseEq(a, b) <==> EqualIgnoringCase(a, b)
  {
    StrCaseEqFromIff(a, b, 0);
  }

  lemma {:induction false} StrCaseEqFromIff(a: string, b: string, k: nat)
    requires k <= |a| && k <= |b|
    ensures StrCaseEqFrom(a, b, k) <==>
            |a| == |b| && forall j :: k <= j < |a| ==> Lower(a[j]) == Lower(b[j])
    decreases |a| - k
  {
    if k < |a| && k < |b| {
      StrCaseEqFromIff(a, b, k + 1);
    }
  }

  /** `strncmp(s, p, |p|) == 0` for a string `s` without an embedded NUL. */
  predicate StartsWith(s: string, p: string)
  {
    |p| <= |s| && s[..|p|] == p
  }

  predicate NulFree(s: string)
  {
    forall k :: 0 <= k < |s| ==> s[k] != NUL
  }

  /** Index of the NUL that ends the C string starting at `i` in buffer `s`, or `|s|`
      when the buffer ends first. */
  function CEnd(s: seq<char>, i: nat): (j: nat)
    requires i <= |s|
    ensures i <= j <= |s|
    ensures forall k :: i <= k < j ==> s[k] != NUL
    ensures j < |s| ==> s[j] == NUL
    decreases |s| - i
  {
    if i == |s| || s[i] == NUL then i else CEnd(s, i + 1)
  }

  /** The C string that starts at index `i` of buffer `s`. */
  function CStringAt(s: seq<char>, i: nat): (r: string)
    requires i <= |s|
    ensures NulFree(r)
    ensures i + |r| <= |s| && r == s[i..i + |r|]
    ensures i + |r| < |s| ==> s[i + |r|] == NUL
  {
    s[i..CEnd(s, i)]
  }

  /** The terminator found by `CEnd` is the first NUL at or after `i`. */
  lemma {:induction false} CEndIs(s: seq<char>, i: nat, j: nat)
    requires i <= j < |s| && s[j] == NUL
    requires forall k :: i <= k < j ==> s[k] != NUL
    ensures CEnd(s, i) == j
    decreases j - i
  {
    if i < j {
      CEndIs(s, i + 1, j);
    }
  }

  /** A NUL at `e` ends every C string that starts at or before it. */
  lemma {:induction false} CEndAtMost(s: seq<char>, i: nat, e: nat)
    requires i <= e < |s| && s[e] == NUL
    ensures CEnd(s, i) <= e
    decreases e - i
  {
    if i < e && s[i] != NUL {
      CEndAtMost(s, i + 1, e);
    }
  }

  /** A buffer holding a C string at `i`: a NUL comes at or after `i`. */
  predicate Terminated(s: seq<char>, i: nat)
  {
    i <= |s| && CEnd(s, i) < |s|
  }

  /** What `strlen`/`strcpy` see of a string that may hold a NUL: the part before it. */
  function CString(s: string): (r: string)
    ensures NulFree(r)
    ensures r <= s
    ensures |r| < |s| ==> s[|r|] == NUL
  {
    CStringAt(s, 0)
  }

  /** A NUL-free string is its own C string. */
  lemma {:induction false} CStringOfNulFree(s: string)
    requires NulFree(s)
    ensures CString(s) == s
  {
  }

  /** A text copied with `strcpy` into a buffer: its C string, then the NUL. */
  lemma CStringBuffer(s: string)
    ensures Terminated(CString(s) + [NUL], 0)
    ensures CStringAt(CString(s) + [NUL], 0) == CString(s)
  {
    var b := CString(s) + [NUL];
    assert forall k :: 0 <= k < |CString(s)| ==> b[k] == CString(s)[k];
    CEndIs(b, 0, |CString(s)|);
    assert b[0..|CString(s)|] == CString(s);
  }

  // ---------------------------------------------------------------------------
  // Numbers: sscanf("%d"), atoi and decimal output

  /** `isspace` in the C locale, which `sscanf("%d")` and `atoi` skip. */
  predicate IsSpace(c: char)
  {
    c == ' ' || c == '\t' || c == '\n' || c == 11 as char || c == 12 as char || c == '\r'
  }

  predicate IsDigit(c: char)
  {
    '0' <= c <= '9'
  }

  predicate AllDigits(s: string)
  {
    forall k :: 0 <= k < |s| ==> IsDigit(s[k])
  }

  function DigitChar(d: nat): (c: char)
    requires d < 10
    ensures IsDigit(c)
  {
    ('0' as int + d) as char
  }

  /** Value of a run of decimal digits, most significant first. */
  function DigitsValue(ds: string): nat
    requires AllDigits(ds)
  {
    if ds == [] then 0
    else DigitsValue(ds[..|ds| - 1]) * 10 + (ds[|ds| - 1] as int - '0' as int)
  }

  /** Decimal digits of a natural number, as `operator<<` prints it: no leading zero. */
  function Digits(n: nat): (r: string)
    ensures 1 <= |r| && AllDigits(r)
    ensures |r| > 1 ==> r[0] != '0'
  {
    if n < 10 then [DigitChar(n)] else Digits(n / 10) + [DigitChar(n % 10)]
  }

  /** `operator<<` on an `int`: a '-' sign for negative values, then the digits. */
  function Decimal(n: int): (r: string)
    ensures 1 <= |r|
    ensures forall k :: 0 <= k < |r| ==> IsDigit(r[k]) || (k == 0 && r[k] == '-')
  {
    if n < 0 then "-" + Digits(-n) else Digits(n)
  }

  lemma {:induction false} DigitsValueOfDigits(n: nat)
    ensures DigitsValue(Digits(n)) == n
  {
    if n >= 10 {
      var ds := Digits(n);
      assert ds[..|ds| - 1] == Digits(n / 10);
      DigitsValueOfDigits(n / 10);
    }
  }

  /** First index at or after `i` that is not blank. */
  function SkipSpaces(s: string, i: nat): (j: nat)
    requires i <= |s|
    ensures i <= j <= |s|
    ensures forall k :: i <= k < j ==> IsSpace(s[k])
    ensures j < |s| ==> !IsSpace(s[j])
    decreases |s| - i
  {
    if i == |s| || !IsSpace(s[i]) then i else SkipSpaces(s, i + 1)
  }

  /** End of the run of digits that starts at `i`. */
  function DigitRunEnd(s: string, i: nat): (j: nat)
    requires i <= |s|
    ensures i <= j <= |s|
    ensures AllDigits(s[i..j])
    ensures j < |s| ==> !IsDigit(s[j])
    decreases |s| - i
  {
    if i == |s| || !IsDigit(s[i]) then i else DigitRunEnd(s, i + 1)
  }

  /** `sscanf(s, "%d", &v) == 1`: blanks, an optional sign, at least one digit; anything
      after the digits is ignored. `None` when no digit follows. */
  function ScanInt(s: string): (r: Option<int>)
    ensures s != [] && IsDigit(s[0]) ==> r.Some? && r.value >= 0
  {
    var i := SkipSpaces(s, 0);
    var signed := i < |s| && (s[i] == '-' || s[i] == '+');
    var j := if signed then i + 1 else i;
    var e := DigitRunEnd(s, j);
    var v: int := if e == j then 0 else DigitsValue(s[j..e]);
    if e == j then None
    else if signed && s[i] == '-' then Some(-v)
    else Some(v)
  }

  /** `sscanf` reads a number only from a text that holds a digit. */
  lemma ScanIntNeedsDigit(s: string)
    ensures ScanInt(s).Some? ==> exists k :: 0 <= k < |s| && IsDigit(s[k])
  {
    var i := SkipSpaces(s, 0);
    var j := if i < |s| && (s[i] == '-' || s[i] == '+') then i + 1 else i;
    var e := DigitRunEnd(s, j);
    if e > j {
      assert s[j..e][0] == s[j];
    }
  }

  /** `atoi`: the same scan, 0 when there is no number. */
  function Atoi(s: string): (v: int)
    ensures (forall k :: 0 <= k < |s| ==> !IsDigit(s[k])) ==> v == 0
  {
    ScanIntNeedsDigit(s);
    match ScanInt(s)
    case Some(v) => v
    case None => 0
  }

  lemma {:induction false} DigitRunOver(s: string, i: nat, ds: string)
    requires AllDigits(ds) && i + |ds| <= |s| && s[i..i + |ds|] == ds
    requires i + |ds| == |s| || !IsDigit(s[i + |ds|])
    ensures DigitRunEnd(s, i) == i + |ds|
    decreases |ds|
  {
    if ds != [] {
      assert s[i] == ds[0];
      assert s[i + 1..i + 1 + |ds[1..]|] == ds[1..];
      DigitRunOver(s, i + 1, ds[1..]);
    }
  }

  /** Reading back what `Decimal` printed gives the number again, whatever non-digit text
      follows it. */
  lemma {:induction false} ScanIntOfDecimal(n: int, rest: string)
    requires rest == [] || !IsDigit(rest[0])
    ensures ScanInt(Decimal(n) + rest) == Some(n)
  {
    var s := Decimal(n) + rest;
    var ds := Digits(if n < 0 then -n else n);
    assert !IsSpace(s[0]);
    assert SkipSpaces(s, 0) == 0;
    var j := if n < 0 then 1 else 0;
    assert s[j..j + |ds|] == ds;
    assert j + |ds| < |s| ==> s[j + |ds|] == rest[0];
    DigitRunOver(s, j, ds);
    DigitsValueOfDigits(if n < 0 then -n else n);
  }

  /** `atoi` reads back the number that `operator<<` printed. */
  lemma AtoiOfDecimal(n: int)
    ensures Atoi(Decimal(n)) == n
  {
    ScanIntOfDecimal(n, []);
    assert Decimal(n) + [] == Decimal(n);
  }

  // ---------------------------------------------------------------------------
  // strtok

  /** Length of the run of non-delimiters that `s` starts with. */
  function TokenLength(s: string, ds: seq<char>): (n: nat)
    ensures n <= |s|
    ensures forall k :: 0 <= k < n ==> s[k] !in ds
    ensures n < |s| ==> s[n] in ds
  {
    if s == [] || s[0] in ds then 0 else 1 + TokenLength(s[1..], ds)
  }

  /** The pieces successive `strtok` calls return for the text `s` and the delimiters `ds`:
      the maximal runs of non-delimiters, in order, so an empty piece between two
      delimiters is never returned. */
  function Tokens(s: string, ds: seq<char>): (r: seq<string>)
    ensures 2 * |r| <= |s| + 1
    decreases |s|
  {
    if s == [] then []
    else if s[0] in ds then Tokens(s[1..], ds)
    else
      var n := TokenLength(s, ds);
      assert n < |s| ==> Tokens(s[n..], ds) == Tokens(s[n + 1..], ds) by {
        if n < |s| {
          assert s[n..][1..] == s[n + 1..];
        }
      }
      [s[..n]] + Tokens(s[n..], ds)
  }

  /** A piece is not empty and holds no delimiter. */
  predicate IsToken(t: string, ds: seq<char>)
  {
    t != [] && forall k :: 0 <= k < |t| ==> t[k] !in ds
  }

  /** Every piece `strtok` returns is a non-empty run of non-delimiters, and a piece of a
      NUL-free text is NUL-free. */
  lemma {:induction false} TokensArePieces(s: string, ds: seq<char>)
    ensures forall j :: 0 <= j < |Tokens(s, ds)| ==> IsToken(Tokens(s, ds)[j], ds)
    ensures NulFree(s) ==> forall j :: 0 <= j < |Tokens(s, ds)| ==> NulFree(Tokens(s, ds)[j])
    decreases |s|
  {
    if s != [] {
      if s[0] in ds {
        TokensArePieces(s[1..], ds);
      } else {
        var n := TokenLength(s, ds);
        TokensArePieces(s[n..], ds);
        assert Tokens(s, ds) == [s[..n]] + Tokens(s[n..], ds);
        assert NulFree(s) ==> NulFree(s[..n]) by {
          assert forall k :: 0 <= k < n ==> s[..n][k] == s[k];
        }
      }
    }
  }

  /** A piece, a delimiter and the rest: the piece is the first token. */
  lemma TokensCons(t: string, c: char, rest: string, ds: seq<char>)
    requires IsToken(t, ds) && c in ds
    ensures Tokens(t + [c] + rest, ds) == [t] + Tokens(rest, ds)
  {
    var s := t + [c] + rest;
    TokenLengthOf(s, t, ds);
    assert s[..|t|] == t;
    assert s[|t|..][1..] == rest;
  }

  lemma {:induction false} TokenLengthOf(s: string, t: string, ds: seq<char>)
    requires IsToken(t, ds) && |t| < |s| && s[..|t|] == t && s[|t|] in ds
    ensures TokenLength(s, ds) == |t|
    decreases |t|
  {
    if |t| > 1 {
      assert s[1..][..|t| - 1] == t[1..];
      TokenLengthOf(s[1..], t[1..], ds);
    } else {
      assert s[1..][0] == s[1];
    }
  }

  /** A text that is only a piece is one token. */
  lemma TokensSingle(t: string, ds: seq<char>)
    requires IsToken(t, ds)
    ensures Tokens(t, ds) == [t]
  {
    assert TokenLength(t, ds) == |t| by {
      TokenLengthAll(t, ds);
    }
    assert t[0] !in ds && t[..|t|] == t && t[|t|..] == [];
  }

  lemma {:induction false} TokenLengthAll(t: string, ds: seq<char>)
    requires forall k :: 0 <= k < |t| ==> t[k] !in ds
    ensures TokenLength(t, ds) == |t|
    decreases |t|
  {
    if t != [] {
      TokenLengthAll(t[1..], ds);
    }
  }

  /** The pieces joined by the delimiter `d`. */
  function Join(xs: seq<string>, d: char): string
  {
    if xs == [] then [] else if |xs| == 1 then xs[0] else xs[0] + [d] + Join(xs[1..], d)
  }

  /** `strtok` on pieces joined by one of the delimiters gives the pieces back. */
  lemma {:induction false} TokensOfJoin(xs: seq<string>, d: char, ds: seq<char>)
    requires d in ds && forall j :: 0 <= j < |xs| ==> IsToken(xs[j], ds)
    ensures Tokens(Join(xs, d), ds) == xs
    decreases |xs|
  {
    if |xs| == 1 {
      TokensSingle(xs[0], ds);
    } else if |xs| > 1 {
      TokensOfJoin(xs[1..], d, ds);
      TokensCons(xs[0], d, Join(xs[1..], d), ds);
    }
  }

  /** Fields each followed by its separator: `Fields(["f", "1"], " \n")` is "f 1\n". */
  function Fields(xs: seq<string>, seps: seq<char>): string
    requires |xs| == |seps|
  {
    if xs == [] then [] else xs[0] + [seps[0]] + Fields(xs[1..], seps[1..])
  }

  /** Fields ended by separators, of which only the last is `nl`, make one line ended by
      `nl` when no field holds `nl`. */
  lemma {:induction false} FieldsOneLine(xs: seq<string>, seps: seq<char>, nl: char)
    requires |xs| == |seps| && |xs| > 0 && seps[|seps| - 1] == nl
    requires forall j :: 0 <= j < |seps| - 1 ==> seps[j] != nl
    requires forall j :: 0 <= j < |xs| ==> forall k :: 0 <= k < |xs[j]| ==> xs[j][k] != nl
    ensures var f := Fields(xs, seps); f != [] && f[|f| - 1] == nl
    ensures var f := Fields(xs, seps); forall k :: 0 <= k < |f| - 1 ==> f[k] != nl
    decreases |xs|
  {
    var f := Fields(xs, seps);
    var rest := Fields(xs[1..], seps[1..]);
    assert f == xs[0] + [seps[0]] + rest;
    if |xs| > 1 {
      FieldsOneLine(xs[1..], seps[1..], nl);
      assert forall k :: 0 <= k < |f| - 1 ==> f[k] != nl by {
        forall k | 0 <= k < |f| - 1
          ensures f[k] != nl
        {
          if k > |xs[0]| {
            assert f[k] == rest[k - |xs[0]| - 1];
          }
        }
      }
    }
  }

  /** `strtok` on fields ended by delimiters gives the fields back. */
  lemma {:induction false} TokensOfFields(xs: seq<string>, seps: seq<char>, ds: seq<char>)
    requires |xs| == |seps|
    requires forall j :: 0 <= j < |xs| ==> IsToken(xs[j], ds) && seps[j] in ds
    ensures Tokens(Fields(xs, seps), ds) == xs
    decreases |xs|
  {
    if xs != [] {
      TokensOfFields(xs[1..], seps[1..], ds);
      TokensCons(xs[0], seps[0], Fields(xs[1..], seps[1..]), ds);
    }
  }
}

