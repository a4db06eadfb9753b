/** The host-name pattern that the bulk-add endpoint applies to every
    submitted name (backend/main.py, line 70): one or more labels, each
    followed by a dot, then a top-level label of at least two letters.
    A label is 1 to 63 ASCII letters, digits or hyphens that neither starts
    nor ends with a hyphen, the label syntax of section 2.3.1 of RFC 1035 as
    relaxed by section 2.1 of RFC 1123 (a label may start with a digit).

    The regular expression is written out as a character predicate: since
    neither a label nor the top-level label contains a dot, the dots of a
    matching name are exactly the label terminators, and `Matches` walks
    from one dot to the next. `Compose` is the independent, generative
    reading of the pattern, and the two lemmas at the end show that they
    accept the same names. */
module Hostname {
  import opened Text

  const MaxLabelLength := 63

  predicate IsLetter(c: char) {
    'a' <= c <= 'z' || 'A' <= c <= 'Z'
  }

  predicate IsAlnum(c: char) {
    IsLetter(c) || '0' <= c <= '9'
  }

  /** `[a-zA-Z0-9](?:[a-zA-Z0-9-]{0,61}[a-zA-Z0-9])?` */
  predicate IsLabel(s: string) {
    1 <= |s| <= MaxLabelLength
    && IsAlnum(s[0]) && IsAlnum(s[|s| - 1])
    && forall k :: 0 <= k < |s| ==> IsAlnum(s[k]) || s[k] == '-'
  }

  /** `[a-zA-Z]{2,}` */
  predicate IsTopLevel(s: string) {
    |s| >= 2 && forall k :: 0 <= k < |s| ==> IsLetter(s[k])
  }

  /** The whole pattern, anchored at both ends: a label up to the first dot,
      then either the top-level label or another matching name. */
  predicate Matches(s: string)
    ensures Matches(s) ==> '.' in s
    decreases |s|
  {
    var k := IndexOf(s, '.');
    k < |s| && IsLabel(s[..k]) && (IsTopLevel(s[k + 1..]) || Matches(s[k + 1..]))
  }

  /** `label1.label2. ... labelN.` */
  function DotTerminated(labels: seq<string>): string
  {
    if labels == [] then "" else labels[0] + "." + DotTerminated(labels[1..])
  }

  /** The name the pattern describes for the given labels and top-level label. */
  function Compose(labels: seq<string>, top: string): string
  {
    DotTerminated(labels) + top
  }

  predicate AllLabels(labels: seq<string>) {
    forall k :: 0 <= k < |labels| ==> IsLabel(labels[k])
  }

  /** Every name built from at least one label and a top-level label matches. */
  lemma {:induction false} ComposeMatches(labels: seq<string>, top: string)
    requires |labels| >= 1 && AllLabels(labels) && IsTopLevel(top)
    ensures Matches(Compose(labels, top))
    decreases |labels|
  {
    var rest := Compose(labels[1..], top);
    assert Compose(labels, top) == labels[0] + ['.'] + rest;
    assert '.' !in labels[0];
    IndexOfJoined(labels[0], '.', rest);
    assert (labels[0] + ['.'] + rest)[..|labels[0]|] == labels[0];
    assert (labels[0] + ['.'] + rest)[|labels[0]| + 1..] == rest;
    if |labels| > 1 {
      ComposeMatches(labels[1..], top);
    } else {
      assert rest == top;
    }
  }

  /** Every matching name splits into at least one label and a top-level label. */
  lemma {:induction false} Decompose(s: string) returns (labels: seq<string>, top: string)
    requires Matches(s)
    ensures |labels| >= 1 && AllLabels(labels) && IsTopLevel(top)
    ensures s == Compose(labels, top)
    decreases |s|
  {
    var first, rest := MatchesStep(s);
    if IsTopLevel(rest) {
      labels, top := [first], rest;
      ComposeCons(first, [], rest);
      assert labels == [first] + [];
    } else {
      var more;
      more, top := Decompose(rest);
      labels := [first] + more;
      ComposeCons(first, more, top);
    }
  }

  /** Putting a label in front of a composed name. */
  lemma ComposeCons(first: string, more: seq<string>, top: string)
    ensures AllLabels([first] + more) <==> IsLabel(first) && AllLabels(more)
    ensures Compose([first] + more, top) == first + "." + Compose(more, top)
  {
    LabelsCons(first, more);
    assert DotTerminated([first] + more) + top == first + "." + DotTerminated(more) + top;
  }

  /** A matching name is a label, a dot, and the rest of the name. */
  lemma MatchesStep(s: string) returns (first: string, rest: string)
    requires Matches(s)
    ensures s == first + "." + rest && IsLabel(first)
    ensures IsTopLevel(rest) || Matches(rest)
  {
    var k := IndexOf(s, '.');
    first, rest := s[..k], s[k + 1..];
    assert s == first + "." + rest;
  }

  /** Putting a label in front of labels. */
  lemma LabelsCons(first: string, more: seq<string>)
    ensures AllLabels([first] + more) <==> IsLabel(first) && AllLabels(more)
    ensures DotTerminated([first] + more) == first + "." + DotTerminated(more)
  {
    var labels := [first] + more;
    assert labels[0] == first && labels[1..] == more;
    assert forall m :: 1 <= m < |labels| ==> labels[m] == more[m - 1];
  }

  /** What a stored name looks like: it starts with a letter or digit,
      contains a dot, ends in two letters and holds no whitespace, so trimming
      it again changes nothing. */
  lemma {:induction false} MatchedShape(s: string)
    requires Matches(s)
    ensures |s| >= 4 && '.' in s
    ensures IsAlnum(s[0]) && IsLetter(s[|s| - 1]) && IsLetter(s[|s| - 2])
    ensures forall k :: 0 <= k < |s| ==> !IsSpace(s[k])
    ensures Trim(s) == s
  {
    var labels, top := Decompose(s);
    CompositionShape(labels, top);
    TrimEmpty(s);
    var i := TrimSlice(s);
    assert i == 0 && |Trim(s)| == |s|;
  }

  lemma {:induction false} CompositionShape(labels: seq<string>, top: string)
    requires |labels| >= 1 && AllLabels(labels) && IsTopLevel(top)
    ensures var s := Compose(labels, top);
      |s| >= 4 && s[|labels[0]|] == '.'
      && IsAlnum(s[0]) && IsLetter(s[|s| - 1]) && IsLetter(s[|s| - 2])
      && forall k :: 0 <= k < |s| ==> IsAlnum(s[k]) || s[k] == '-' || s[k] == '.'
    decreases |labels|
  {
    var rest := Compose(labels[1..], top);
    var s := Compose(labels, top);
    assert s == labels[0] + "." + rest;
    if |labels| > 1 {
      CompositionShape(labels[1..], top);
    }
    forall k | 0 <= k < |s|
      ensures IsAlnum(s[k]) || s[k] == '-' || s[k] == '.'
    {
      if k > |labels[0]| {
        assert s[k] == rest[k - |labels[0]| - 1];
      }
    }
  }

  /** Names the pattern accepts. */
  lemma AcceptedExample()
    ensures Matches("example.com")
  {
    var labels, top := ["example"], "com";
    assert IsLabel(labels[0]) && IsTopLevel(top);
    ComposeMatches(labels, top);
    assert DotTerminated(labels[1..]) == "";
    assert Compose(labels, top) == "example.com";
  }

  /** A name may have several labels; labels may hold hyphens and digits. */
  lemma AcceptedSeveralLabels()
    ensures Matches("a-b.c2.org")
  {
    var a, b, top := "a-b", "c2", "org";
    assert IsLabel(a) && IsLabel(b) && IsTopLevel(top);
    LabelsCons(b, []);
    LabelsCons(a, [b]);
    assert [a, b] == [a] + [b];
    ComposeMatches([a, b], top);
    SeveralLabelsSpelled();
  }

  /** The name `AcceptedSeveralLabels` composes. */
  lemma SeveralLabelsSpelled()
    ensures Compose(["a-b", "c2"], "org") == "a-b.c2.org"
  {
    var a, b, top := "a-b", "c2", "org";
    LabelsCons(b, []);
    LabelsCons(a, [b]);
    assert [a, b] == [a] + [b];
    assert Compose([a, b], top) == a + "." + (b + "." + "") + top;
  }

  /** A label may not start or end with a hyphen. */
  lemma HyphenExamples()
    ensures !Matches("-a.com") && !Matches("a-.com")
  {
    assert IndexOf("-a.com", '.') == 2;
    assert "-a.com"[..2] == "-a";
    assert IndexOf("a-.com", '.') == 2;
    assert "a-.com"[..2] == "a-";
  }

  /** The top-level label has at least two characters, all letters. */
  lemma TopLevelExamples()
    ensures !Matches("a.c") && !Matches("a.c0m")
  {
    assert IndexOf("a.c", '.') == 1;
    assert "a.c"[2..] == "c";
    assert IndexOf("c", '.') == 1;
    assert IndexOf("a.c0m", '.') == 1;
    assert "a.c0m"[2..] == "c0m";
    assert IndexOf("c0m", '.') == 3;
  }

  /** There is at least one label, no label is empty, and a name does not end in a dot. */
  lemma DotExamples()
    ensures !Matches("com") && !Matches("a..com") && !Matches("a.com.")
  {
    assert IndexOf("com", '.') == 3;
    assert IndexOf("a..com", '.') == 1;
    assert "a..com"[2..] == ".com";
    assert IndexOf(".com", '.') == 0;
    assert IndexOf("a.com.", '.') == 1;
    assert "a.com."[2..] == "com.";
    assert IndexOf("com.", '.') == 3;
    assert "com."[4..] == "";
    assert IndexOf("", '.') == 0;
  }
}
