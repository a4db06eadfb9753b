/** String helpers shared by the back end and the front end: Python's
    `str.strip`, JavaScript's `trim` and `toLowerCase`, `split` on one
    character, `join`, substring search, and decimal rendering of integers.
    Whitespace and case are the ASCII ones. */
module Text {

  /** The whitespace characters `strip()` and `trim()` remove. */
  predicate IsSpace(c: char) {
    c == ' ' || c == '\t' || c == '\n' || c == '\r' || c == '\U{0B}' || c == '\U{0C}'
  }

  /** `s` with its leading whitespace removed. */
  function TrimStart(s: string): (r: string)
    ensures |r| <= |s| && r == s[|s| - |r|..]
    ensures forall k :: 0 <= k < |s| - |r| ==> IsSpace(s[k])
    ensures r == [] || !IsSpace(r[0])
  {
    if s != [] && IsSpace(s[0]) then
      var r := TrimStart(s[1..]);
      assert s[1..][|s| - 1 - |r|..] == s[|s| - |r|..];
      assert forall k :: 1 <= k < |s| ==> s[k] == s[1..][k - 1];
      r
    else s
  }

  /** `s` with its trailing whitespace removed. */
  function TrimEnd(s: string): (r: string)
    ensures |r| <= |s| && r == s[..|r|]
    ensures forall k :: |r| <= k < |s| ==> IsSpace(s[k])
    ensures r == [] || !IsSpace(r[|r| - 1])
  {
    if s != [] && IsSpace(s[|s| - 1]) then TrimEnd(s[..|s| - 1]) else s
  }

  /** Python's `s.strip()` and JavaScript's `s.trim()`. */
  function Trim(s: string): (r: string)
  {
    TrimEnd(TrimStart(s))
  }

  /** A string that neither starts nor ends with whitespace is left as it is. */
  lemma TrimKeeps(s: string)
    requires s == [] || (!IsSpace(s[0]) && !IsSpace(s[|s| - 1]))
    ensures Trim(s) == s
  {
  }

  /** A trimmed string is a contiguous slice of its input, everything cut off
      is whitespace, and it neither starts nor ends with whitespace. */
  lemma TrimSlice(s: string) returns (i: nat)
    ensures i + |Trim(s)| <= |s| && Trim(s) == s[i..i + |Trim(s)|]
    ensures forall k :: 0 <= k < i ==> IsSpace(s[k])
    ensures forall k :: i + |Trim(s)| <= k < |s| ==> IsSpace(s[k])
    ensures Trim(s) == [] || (!IsSpace(Trim(s)[0]) && !IsSpace(Trim(s)[|Trim(s)| - 1]))
  {
    var t := TrimStart(s);
    var r := TrimEnd(t);
    assert Trim(s) == r;
    i := |s| - |t|;
    assert i + |r| <= |s| && r == s[i..i + |r|] by {
      SliceOfSlice(s, i, t, r);
    }
    assert forall k :: i + |r| <= k < |s| ==> IsSpace(s[k]) by {
      SliceOfSlice(s, i, t, r);
      assert forall k :: |r| <= k < |t| ==> IsSpace(t[k]);
    }
    assert r == [] || (!IsSpace(r[0]) && !IsSpace(r[|r| - 1])) by {
      if r != [] {
        assert r[0] == t[0];
      }
    }
  }

  /** A prefix of a suffix is a slice. */
  lemma SliceOfSlice(s: string, i: nat, t: string, r: string)
    requires i <= |s| && t == s[i..] && |r| <= |t| && r == t[..|r|]
    ensures i + |r| <= |s| && r == s[i..i + |r|]
    ensures forall k :: i + |r| <= k < |s| ==> s[k] == t[k - i]
  {
  }

  /** The trimmed text is empty exactly when the text is all whitespace. */
  lemma TrimEmpty(s: string)
    ensures Trim(s) == [] <==> forall k :: 0 <= k < |s| ==> IsSpace(s[k])
  {
    var i := TrimSlice(s);
    if Trim(s) != [] {
      assert !IsSpace(s[i]);
    }
  }

  /** Trimming twice is trimming once. */
  lemma TrimIdempotent(s: string)
    ensures Trim(Trim(s)) == Trim(s)
  {
    var t := Trim(s);
    var _ := TrimSlice(s);
    if t != [] {
      assert TrimStart(t) == t;
      assert TrimEnd(t) == t;
    }
  }

  /** The ASCII lower-case of one character. */
  function LowerChar(c: char): (r: char)
    ensures 'A' <= c <= 'Z' ==> r as int == c as int + 32
    ensures !('A' <= c <= 'Z') ==> r == c
  {
    if 'A' <= c <= 'Z' then (c as int + 32) as char else c
  }

  /** JavaScript's `toLowerCase`, restricted to ASCII letters. */
  function Lower(s: string): (r: string)
    ensures |r| == |s|
    ensures forall k :: 0 <= k < |s| ==> r[k] == LowerChar(s[k])
  {
    seq(|s|, k requires 0 <= k < |s| => LowerChar(s[k]))
  }

  /** Lower-casing twice is lower-casing once. */
  lemma LowerIdempotent(s: string)
    ensures Lower(Lower(s)) == Lower(s)
  {
  }

  /** `t` occurs in `s` starting at `i`. */
  predicate OccursAt(s: string, t: string, i: int) {
    0 <= i && i + |t| <= |s| && s[i..i + |t|] == t
  }

  /** JavaScript's `s.includes(t)`: `t` is a contiguous part of `s`. */
  predicate Contains(s: string, t: string)
    decreases |s|
  {
    t <= s || (s != [] && Contains(s[1..], t))
  }

  /** `Contains` holds exactly when `t` occurs at some position of `s`. */
  lemma {:induction false} ContainsIff(s: string, t: string)
    ensures Contains(s, t) <==> exists i :: OccursAt(s, t, i)
    decreases |s|
  {
    if t <= s {
      assert OccursAt(s, t, 0);
    } else if s == [] {
      forall i | OccursAt(s, t, i) ensures false {
      }
    } else {
      ContainsIff(s[1..], t);
      if Contains(s[1..], t) {
        var i :| OccursAt(s[1..], t, i);
        assert s[i + 1..i + 1 + |t|] == s[1..][i..i + |t|];
        assert OccursAt(s, t, i + 1);
      } else {
        forall i | OccursAt(s, t, i) ensures false {
          if i == 0 {
            assert false;
          } else {
            OccursLater(s, t, i);
          }
        }
      }
    }
  }

  /** An occurrence after the first position is an occurrence in the tail. */
  lemma OccursLater(s: string, t: string, i: int)
    requires s != [] && 0 < i && OccursAt(s, t, i)
    ensures OccursAt(s[1..], t, i - 1)
  {
    assert s[1..][i - 1..i - 1 + |t|] == s[i..i + |t|];
  }

  /** The index of the first `c` in `s`, or `|s|` when there is none. */
  function IndexOf(s: string, c: char): (r: nat)
    ensures r <= |s|
    ensures r < |s| ==> s[r] == c
    ensures forall k :: 0 <= k < r ==> s[k] != c
  {
    if s == [] then 0
    else if s[0] == c then 0
    else 1 + IndexOf(s[1..], c)
  }

  /** The first `c` of `a + [c] + b` is the one after `a` when `a` has none. */
  lemma IndexOfJoined(a: string, c: char, b: string)
    requires c !in a
    ensures IndexOf(a + [c] + b, c) == |a|
  {
    if a != [] {
      assert (a + [c] + b)[1..] == a[1..] + [c] + b;
      IndexOfJoined(a[1..], c, b);
    }
  }

  /** Python's `s.split(c)` and JavaScript's `s.split(c)` on one character:
      the pieces between the occurrences of `c`, at least one piece. */
  function Split(s: string, c: char): (parts: seq<string>)
    ensures |parts| >= 1
    ensures forall k :: 0 <= k < |parts| ==> c !in parts[k]
    decreases |s|
  {
    var i := IndexOf(s, c);
    if i == |s| then [s] else [s[..i]] + Split(s[i + 1..], c)
  }

  /** `sep.join(parts)`. */
  function Join(parts: seq<string>, sep: string): string
  {
    if |parts| == 0 then ""
    else if |parts| == 1 then parts[0]
    else parts[0] + sep + Join(parts[1..], sep)
  }

  /** Splitting and joining back with the same character gives the text back. */
  lemma {:induction false} JoinSplit(s: string, c: char)
    ensures Join(Split(s, c), [c]) == s
    decreases |s|
  {
    var i := IndexOf(s, c);
    if i < |s| {
      JoinSplit(s[i + 1..], c);
      assert s == s[..i] + [c] + s[i + 1..];
    }
  }

  /** Joining pieces that do not contain `c` and splitting again gives the pieces back. */
  lemma {:induction false} SplitJoin(parts: seq<string>, c: char)
    requires |parts| >= 1
    requires forall k :: 0 <= k < |parts| ==> c !in parts[k]
    ensures Split(Join(parts, [c]), c) == parts
  {
    if |parts| > 1 {
      var rest := Join(parts[1..], [c]);
      IndexOfJoined(parts[0], c, rest);
      assert (parts[0] + [c] + rest)[..|parts[0]|] == parts[0];
      assert (parts[0] + [c] + rest)[|parts[0]| + 1..] == rest;
      SplitJoin(parts[1..], c);
    } else {
      assert IndexOf(parts[0], c) == |parts[0]|;
    }
  }

  /** Splitting text joined at one separator splits each side. */
  lemma SplitConcat(a: string, c: char, b: string)
    ensures Split(a + [c] + b, c) == Split(a, c) + Split(b, c)
  {
    var p, q := Split(a, c), Split(b, c);
    assert a + [c] + b == Join(p + q, [c]) by {
      JoinSplit(a, c);
      JoinSplit(b, c);
      JoinConcat(p, q, [c]);
    }
    SplitPartsConcat(p, q, c);
    SplitJoin(p + q, c);
  }

  /** Two lists of parts without the separator concatenate to one. */
  lemma SplitPartsConcat(p: seq<string>, q: seq<string>, c: char)
    requires forall k :: 0 <= k < |p| ==> c !in p[k]
    requires forall k :: 0 <= k < |q| ==> c !in q[k]
    ensures forall k :: 0 <= k < |p + q| ==> c !in (p + q)[k]
  {
    forall k | 0 <= k < |p + q| ensures c !in (p + q)[k] {
      if k < |p| {
        assert (p + q)[k] == p[k];
      } else {
        assert (p + q)[k] == q[k - |p|];
      }
    }
  }

  /** Joining two non-empty lists of parts puts the separator between their joins. */
  lemma {:induction false} JoinConcat(p: seq<string>, q: seq<string>, sep: string)
    requires |p| >= 1 && |q| >= 1
    ensures Join(p + q, sep) == Join(p, sep) + sep + Join(q, sep)
  {
    if |p| > 1 {
      assert (p + q)[1..] == p[1..] + q;
      JoinConcat(p[1..], q, sep);
    } else {
      assert (p + q)[1..] == q;
    }
  }

  /** The stripped, non-blank lines of a text, in order: Python's
      `[l.strip() for l in lines if l.strip()]` and JavaScript's
      `text.split('\n').map(d => d.trim()).filter(d => d)`. */
  function NonBlankLines(text: string): (r: seq<string>)
    ensures |r| <= |Split(text, '\n')|
  {
    TrimmedNonBlankShape(Split(text, '\n'));
    TrimmedNonBlank(Split(text, '\n'))
  }

  /** An empty text has no non-blank line. */
  lemma NonBlankLinesEmpty()
    ensures NonBlankLines("") == []
  {
    var e: string := [];
    assert IndexOf(e, '\n') == 0;
    assert Split(e, '\n') == [e];
    TrimKeeps(e);
    var lines := [e];
    assert lines[1..] == [];
    assert TrimmedNonBlank(lines) == [];
  }

  /** The trimmed, non-empty entries of `lines`, in order. */
  function TrimmedNonBlank(lines: seq<string>): seq<string>
  {
    if lines == [] then []
    else
      var rest := TrimmedNonBlank(lines[1..]);
      if Trim(lines[0]) != "" then [Trim(lines[0])] + rest else rest
  }

  /** Lines are kept or dropped one at a time. */
  lemma {:induction false} TrimmedNonBlankConcat(a: seq<string>, b: seq<string>)
    ensures TrimmedNonBlank(a + b) == TrimmedNonBlank(a) + TrimmedNonBlank(b)
  {
    if a == [] {
      assert a + b == b;
    } else {
      assert (a + b)[1..] == a[1..] + b;
      TrimmedNonBlankConcat(a[1..], b);
    }
  }

  /** Lines already trimmed and non-empty are all kept as they are. */
  lemma {:induction false} TrimmedNonBlankKeepsAll(lines: seq<string>)
    requires forall k :: 0 <= k < |lines| ==> lines[k] != "" && Trim(lines[k]) == lines[k]
    ensures TrimmedNonBlank(lines) == lines
  {
    if lines != [] {
      TrimmedNonBlankKeepsAll(lines[1..]);
    }
  }

  /** Every entry kept is non-empty and trimmed. */
  lemma {:induction false} TrimmedNonBlankShape(lines: seq<string>)
    ensures |TrimmedNonBlank(lines)| <= |lines|
    ensures forall k :: 0 <= k < |TrimmedNonBlank(lines)| ==>
      TrimmedNonBlank(lines)[k] != "" && Trim(TrimmedNonBlank(lines)[k]) == TrimmedNonBlank(lines)[k]
  {
    if lines != [] {
      TrimmedNonBlankShape(lines[1..]);
      TrimIdempotent(lines[0]);
    }
  }

  /** The entries are exactly the non-empty trimmed forms of the lines. */
  lemma {:induction false} TrimmedNonBlankMembers(lines: seq<string>, x: string)
    ensures x in TrimmedNonBlank(lines) <==> x != "" && exists i :: 0 <= i < |lines| && Trim(lines[i]) == x
  {
    if lines != [] {
      TrimmedNonBlankMembers(lines[1..], x);
      if x != "" && x in TrimmedNonBlank(lines[1..]) {
        var i :| 0 <= i < |lines[1..]| && Trim(lines[1..][i]) == x;
        assert Trim(lines[i + 1]) == x;
      }
      if x != "" && exists i :: 0 <= i < |lines| && Trim(lines[i]) == x {
        var i :| 0 <= i < |lines| && Trim(lines[i]) == x;
        if i > 0 {
          assert Trim(lines[1..][i - 1]) == x;
        }
      }
    }
  }

  /** The decimal digit character for `d`. */
  function Digit(d: nat): (c: char)
    requires d < 10
    ensures '0' <= c <= '9'
  {
    ('0' as int + d) as char
  }

  predicate IsDigit(c: char) {
    '0' <= c <= '9'
  }

  predicate AllDigits(s: string) {
    forall k :: 0 <= k < |s| ==> IsDigit(s[k])
  }

  /** The value of a string of decimal digits. */
  function DigitsValue(s: string): nat
    requires AllDigits(s)
  {
    if s == [] then 0 else DigitsValue(s[..|s| - 1]) * 10 + (s[|s| - 1] as int - '0' as int)
  }

  function Pow10(w: nat): (r: nat)
    ensures r >= 1
  {
    if w == 0 then 1 else 10 * Pow10(w - 1)
  }

  /** `n` written with exactly `w` digits, zero-padded (Python's `%0wd`). */
  function Pad(n: nat, w: nat): (r: string)
    requires n < Pow10(w)
    ensures |r| == w && AllDigits(r)
  {
    if w == 0 then "" else Pad(n / 10, w - 1) + [Digit(n % 10)]
  }

  /** Reading a padded number back gives the number. */
  lemma {:induction false} PadValue(n: nat, w: nat)
    requires n < Pow10(w)
    ensures DigitsValue(Pad(n, w)) == n
  {
    if w > 0 {
      PadValue(n / 10, w - 1);
      var p := Pad(n, w);
      assert p[..|p| - 1] == Pad(n / 10, w - 1);
    }
  }

  /** Padding the value of a digit string to its own width gives the string back. */
  lemma {:induction false} ValuePad(s: string)
    requires AllDigits(s)
    ensures DigitsValue(s) < Pow10(|s|)
    ensures Pad(DigitsValue(s), |s|) == s
  {
    if s != [] {
      var init := s[..|s| - 1];
      ValuePad(init);
      var d := s[|s| - 1] as int - '0' as int;
      var v := DigitsValue(s);
      assert v == DigitsValue(init) * 10 + d;
      assert v / 10 == DigitsValue(init) && v % 10 == d;
      assert s == init + [s[|s| - 1]];
    }
  }

  /** Python's `str(n)` for a natural number: its decimal digits, no leading zero. */
  function NatToString(n: nat): (r: string)
    ensures r != [] && AllDigits(r)
    ensures |r| > 1 ==> r[0] != '0'
  {
    if n < 10 then [Digit(n)] else NatToString(n / 10) + [Digit(n % 10)]
  }

  /** Reading the decimal rendering back gives the number. */
  lemma {:induction false} NatToStringValue(n: nat)
    ensures DigitsValue(NatToString(n)) == n
  {
    var r := NatToString(n);
    if n >= 10 {
      NatToStringValue(n / 10);
      assert r[..|r| - 1] == NatToString(n / 10);
    } else {
      assert r[..0] == [];
    }
  }

  /** Python's `str(i)` and JavaScript's `${i}` for an integer. */
  function IntToString(i: int): (r: string)
    ensures r != []
    ensures r[0] == '-' <==> i < 0
  {
    if i < 0 then "-" + NatToString(-i) else NatToString(i)
  }

  /** Distinct integers render as distinct strings. */
  lemma IntToStringInjective(i: int, j: int)
    requires IntToString(i) == IntToString(j)
    ensures i == j
  {
    if i < 0 {
      assert j < 0;
      assert NatToString(-i) == NatToString(-j) by {
        assert IntToString(i)[1..] == NatToString(-i);
        assert IntToString(j)[1..] == NatToString(-j);
      }
      NatToStringInjective(-i, -j);
    } else {
      NatToStringInjective(i, j);
    }
  }

  /** Distinct naturals render as distinct strings. */
  lemma NatToStringInjective(m: nat, n: nat)
    requires NatToString(m) == NatToString(n)
    ensures m == n
  {
    NatToStringValue(m);
    NatToStringValue(n);
  }

  /** How many of `lines` start with `prefix`. */
  function Tally(lines: seq<string>, prefix: string): (n: nat)
    ensures n <= |lines|
  {
    if lines == [] then 0
    else (if prefix <= lines[0] then 1 else 0) + Tally(lines[1..], prefix)
  }

  /** Tallies add up over a concatenation. */
  lemma {:induction false} TallyConcat(a: seq<string>, b: seq<string>, prefix: string)
    ensures Tally(a + b, prefix) == Tally(a, prefix) + Tally(b, prefix)
  {
    if a != [] {
      assert (a + b)[1..] == a[1..] + b;
      TallyConcat(a[1..], b, prefix);
    } else {
      assert a + b == b;
    }
  }

  /** No line starting with the prefix, no tally. */
  lemma {:induction false} TallyNone(lines: seq<string>, prefix: string)
    requires forall k :: 0 <= k < |lines| ==> !(prefix <= lines[k])
    ensures Tally(lines, prefix) == 0
  {
    if lines != [] {
      TallyNone(lines[1..], prefix);
    }
  }

  /** A single line is counted when it starts with the prefix. */
  lemma TallyOne(line: string, prefix: string)
    ensures Tally([line], prefix) == if prefix <= line then 1 else 0
  {
    assert [line][1..] == [];
  }

  /** Three lines are counted one by one. */
  lemma TallyThree(a: string, b: string, c: string, prefix: string)
    ensures Tally([a, b, c], prefix) ==
      (if prefix <= a then 1 else 0) + (if prefix <= b then 1 else 0) + (if prefix <= c then 1 else 0)
  {
    assert [a, b, c][1..] == [b, c];
    assert [b, c][1..] == [c];
    TallyOne(c, prefix);
  }

  /** No line begins with the prefix's first character, no tally. */
  lemma TallyNoneByFirst(lines: seq<string>, prefix: string)
    requires prefix != []
    requires forall k :: 0 <= k < |lines| ==> lines[k] == [] || lines[k][0] != prefix[0]
    ensures Tally(lines, prefix) == 0
  {
    forall k | 0 <= k < |lines|
      ensures !(prefix <= lines[k])
    {
      if lines[k] != [] {
        NotPrefix(prefix, lines[k], 0);
      }
    }
    TallyNone(lines, prefix);
  }

  /** A line that differs from the prefix at some position does not start with it. */
  lemma NotPrefix(prefix: string, line: string, k: nat)
    requires k < |prefix| && k < |line| && prefix[k] != line[k]
    ensures !(prefix <= line)
  {
  }
}
