/** The three text-to-HTML rewrites the response formatter applies
    (utils/utility_functions.py): newlines become `<br>`, the known field
    labels ("Distance:", "Total Cost:", ...) are wrapped in `<strong>`, and in
    the fallback text `**bold**` spans become `<strong>` spans. Each rewrite is
    given with the reading that undoes it. */
module Markup {
  import opened Common
  import opened Text

  const Br: string := "<br>"
  const StrongOpen: string := "<strong>"
  const StrongClose: string := "</strong>"

  // ---------------------------------------------------------------------
  // Newlines
  // ---------------------------------------------------------------------

  /** `s.replace('\n', '<br>')`. */
  function NewlinesToBr(s: string): (r: string)
    ensures '\n' !in r
    ensures |r| >= |s|
  {
    if s == [] then []
    else (if s[0] == '\n' then Br else [s[0]]) + NewlinesToBr(s[1..])
  }

  /** Reads `<br>` back as a newline. */
  function BrToNewlines(s: string): string
    decreases |s|
  {
    if s == [] then []
    else if StartsWith(s, Br) then "\n" + BrToNewlines(s[|Br|..])
    else [s[0]] + BrToNewlines(s[1..])
  }

  /** Every `<` of a text is the start of `<b...`: the only tags are `<br>`
      and what can be read back as one. */
  predicate AnglesOpenB(s: string) {
    forall i :: 0 <= i < |s| && s[i] == '<' ==> i + 1 < |s| && s[i + 1] == 'b'
  }

  /** Without a `<` of its own, a text comes back from its `<br>` form. */
  lemma {:induction false} NewlinesRoundTrip(s: string)
    requires '<' !in s
    ensures BrToNewlines(NewlinesToBr(s)) == s
    ensures AnglesOpenB(NewlinesToBr(s))
  {
    if s != [] {
      NewlinesRoundTrip(s[1..]);
      var rest := NewlinesToBr(s[1..]);
      if s[0] == '\n' {
        assert (Br + rest)[|Br|..] == rest;
        assert StartsWith(Br + rest, Br);
      } else {
        assert s[0] in s;
        DiffersAt([s[0]] + rest, Br, 0);
        assert ([s[0]] + rest)[1..] == rest;
      }
      assert s == [s[0]] + s[1..];
    }
  }

  // ---------------------------------------------------------------------
  // Field labels
  // ---------------------------------------------------------------------

  /** The labels the card formatter emphasises, in the order the pattern's
      alternatives are tried; "Weather Alerts?:" is its two spellings. */
  const Labels: seq<string> := [
    "Distance:", "Duration:", "ETA:", "Base Duration:", "Adjusted ETA:", "Temperature:",
    "Traffic:", "Cost:", "Vehicle:", "Origin:", "Destination:", "Current Traffic:",
    "Traffic Factor:", "Expected Delay:", "Advice:", "Recommended Vehicle:", "Total Cost:",
    "Weather Alerts:", "Weather Alert:", "Condition:", "Starting from:", "Best visiting order:",
    "Total Travel Time:", "Route Details:", "Optimization Summary:"
  ]

  /** Every label starts with a capital letter and has no `<`. */
  predicate PlainLabel(l: string) {
    l != [] && 'A' <= l[0] <= 'Z' && '<' !in l
  }

  /** The five `LabelsArePlainFrom` lemmas below state one fact, five labels
      at a time; they only split the work so each proof stays small. */
  lemma LabelsArePlain()
    ensures forall l :: l in Labels ==> PlainLabel(l)
  {
    LabelsArePlainFrom0();
    LabelsArePlainFrom5();
    LabelsArePlainFrom10();
    LabelsArePlainFrom15();
    LabelsArePlainFrom20();
    forall l | l in Labels ensures PlainLabel(l) {
      var i :| 0 <= i < |Labels| && Labels[i] == l;
    }
  }

  lemma LabelsArePlainFrom0()
    ensures forall i :: 0 <= i < 5 ==> PlainLabel(Labels[i])
  {
    assert PlainLabel(Labels[0]);
    assert PlainLabel(Labels[1]);
    assert PlainLabel(Labels[2]);
    assert PlainLabel(Labels[3]);
    assert PlainLabel(Labels[4]);
  }

  lemma LabelsArePlainFrom5()
    ensures forall i :: 5 <= i < 10 ==> PlainLabel(Labels[i])
  {
    assert PlainLabel(Labels[5]);
    assert PlainLabel(Labels[6]);
    assert PlainLabel(Labels[7]);
    assert PlainLabel(Labels[8]);
    assert PlainLabel(Labels[9]);
  }

  lemma LabelsArePlainFrom10()
    ensures forall i :: 10 <= i < 15 ==> PlainLabel(Labels[i])
  {
    assert PlainLabel(Labels[10]);
    assert PlainLabel(Labels[11]);
    assert PlainLabel(Labels[12]);
    assert PlainLabel(Labels[13]);
    assert PlainLabel(Labels[14]);
  }

  lemma LabelsArePlainFrom15()
    ensures forall i :: 15 <= i < 20 ==> PlainLabel(Labels[i])
  {
    assert PlainLabel(Labels[15]);
    assert PlainLabel(Labels[16]);
    assert PlainLabel(Labels[17]);
    assert PlainLabel(Labels[18]);
    assert PlainLabel(Labels[19]);
  }

  lemma LabelsArePlainFrom20()
    ensures forall i :: 20 <= i < 25 ==> PlainLabel(Labels[i])
  {
    assert PlainLabel(Labels[20]);
    assert PlainLabel(Labels[21]);
    assert PlainLabel(Labels[22]);
    assert PlainLabel(Labels[23]);
    assert PlainLabel(Labels[24]);
  }

  /** The first label, in pattern order, that `s` starts with. */
  function LabelAt(s: string, labels: seq<string>): (r: Option<string>)
  {
    if labels == [] then None
    else if StartsWith(s, labels[0]) then Some(labels[0])
    else LabelAt(s, labels[1..])
  }

  /** The label found is one of the labels and starts the text; when none is
      found, no label starts the text. */
  lemma {:induction false} LabelAtFinds(s: string, labels: seq<string>)
    ensures LabelAt(s, labels).Some? ==> LabelAt(s, labels).value in labels && StartsWith(s, LabelAt(s, labels).value)
    ensures LabelAt(s, labels).None? <==> forall l :: l in labels ==> !StartsWith(s, l)
  {
    if labels != [] {
      LabelAtFinds(s, labels[1..]);
      assert labels == [labels[0]] + labels[1..];
    }
  }

  /** The label substitution: scanning from the left, each label found is
      wrapped in `<strong>` and the scan resumes after it. */
  function Emphasize(s: string): string
    decreases |s|
  {
    if s == [] then []
    else
      var l := LabelAt(s, Labels);
      // a label found always fits in s (LabelAtFinds); the bound is for the slice
      if l.Some? && 0 < |l.value| <= |s| then StrongOpen + l.value + StrongClose + Emphasize(s[|l.value|..])
      else [s[0]] + Emphasize(s[1..])
  }

  /** Reads a text without its `<strong>` and `</strong>` tags. */
  function Unemphasize(s: string): string
    decreases |s|
  {
    if s == [] then []
    else if StartsWith(s, StrongOpen) then Unemphasize(s[|StrongOpen|..])
    else if StartsWith(s, StrongClose) then Unemphasize(s[|StrongClose|..])
    else [s[0]] + Unemphasize(s[1..])
  }

  /** A text that differs from `p` at position k does not start with `p`. */
  lemma DiffersAt(s: string, p: string, k: nat)
    requires k < |s| && k < |p| && s[k] != p[k]
    ensures !StartsWith(s, p)
  {
    if |p| <= |s| {
      assert s[..|p|][k] == s[k];
    }
  }

  /** A text without `<` passes through the tag reader unchanged. */
  lemma {:induction false} UnemphasizePlain(a: string, b: string)
    requires '<' !in a
    ensures Unemphasize(a + b) == a + Unemphasize(b)
    decreases |a|
  {
    if a != [] {
      assert a[0] in a;
      DiffersAt(a + b, StrongOpen, 0);
      DiffersAt(a + b, StrongClose, 0);
      assert (a + b)[1..] == a[1..] + b;
      assert Unemphasize(a + b) == [a[0]] + Unemphasize(a[1..] + b);
      UnemphasizePlain(a[1..], b);
      assert a == [a[0]] + a[1..];
    } else {
      assert a + b == b;
    }
  }

  /** The emphasised text keeps its first character unless it starts with a label. */
  lemma EmphasizeHead(s: string)
    requires s != [] && LabelAt(s, Labels).None?
    ensures Emphasize(s) != [] && Emphasize(s)[0] == s[0]
  {
  }

  /** The tail of a text keeps the property that every `<` opens a `<b...`. */
  lemma AnglesOpenBSuffix(s: string, n: nat)
    requires AnglesOpenB(s) && n <= |s|
    ensures AnglesOpenB(s[n..])
  {
    var rest := s[n..];
    forall i | 0 <= i < |rest| && rest[i] == '<' ensures i + 1 < |rest| && rest[i + 1] == 'b' {
      assert s[i + n] == '<';
    }
  }

  /** A label and its tags read back as the label. */
  lemma UnemphasizeSpan(w: string, e: string)
    requires '<' !in w
    ensures Unemphasize(StrongOpen + w + StrongClose + e) == w + Unemphasize(e)
  {
    var t := StrongOpen + w + StrongClose + e;
    assert t[..|StrongOpen|] == StrongOpen;
    assert t[|StrongOpen|..] == w + (StrongClose + e);
    assert Unemphasize(t) == Unemphasize(w + (StrongClose + e));
    UnemphasizePlain(w, StrongClose + e);
    var u := StrongClose + e;
    assert u[..|StrongClose|] == StrongClose;
    DiffersAt(u, StrongOpen, 1);
    assert u[|StrongClose|..] == e;
    assert Unemphasize(u) == Unemphasize(e);
  }

  /** A character that opens no tag reads back as itself. */
  lemma UnemphasizeChar(c: char, e: string)
    requires c != '<' || (e != [] && e[0] == 'b')
    ensures Unemphasize([c] + e) == [c] + Unemphasize(e)
  {
    var t := [c] + e;
    if c == '<' {
      DiffersAt(t, StrongOpen, 1);
      DiffersAt(t, StrongClose, 1);
    } else {
      DiffersAt(t, StrongOpen, 0);
      DiffersAt(t, StrongClose, 0);
    }
    assert t[1..] == e;
  }

  /** Dropping the tags gives the text back, as long as each of its `<` opens a
      `<b...`, as the `<br>` form of a text without `<` does. */
  lemma {:induction false} EmphasizeRoundTrip(s: string)
    requires AnglesOpenB(s)
    ensures Unemphasize(Emphasize(s)) == s
    decreases |s|
  {
    if s != [] {
      LabelsArePlain();
      var l := LabelAt(s, Labels);
      LabelAtFinds(s, Labels);
      if l.Some? && 0 < |l.value| <= |s| {
        var w := l.value;
        AnglesOpenBSuffix(s, |w|);
        EmphasizeRoundTrip(s[|w|..]);
        UnemphasizeSpan(w, Emphasize(s[|w|..]));
        assert s == w + s[|w|..] by {
          assert s[..|w|] == w;
        }
      } else {
        AnglesOpenBSuffix(s, 1);
        EmphasizeRoundTrip(s[1..]);
        if s[0] == '<' {
          assert |s| > 1 && s[1] == 'b';
          assert LabelAt(s[1..], Labels).None? by {
            LabelAtFinds(s[1..], Labels);
            forall lb | lb in Labels ensures !StartsWith(s[1..], lb) {
              assert PlainLabel(lb);
            }
          }
          EmphasizeHead(s[1..]);
        }
        UnemphasizeChar(s[0], Emphasize(s[1..]));
        assert s == [s[0]] + s[1..];
      }
    }
  }

  /** A text without `<` comes back from its `<br>` form with emphasised labels. */
  lemma MarkupRoundTrip(s: string)
    requires '<' !in s
    ensures BrToNewlines(Unemphasize(Emphasize(NewlinesToBr(s)))) == s
  {
    NewlinesRoundTrip(s);
    EmphasizeRoundTrip(NewlinesToBr(s));
  }

  // ---------------------------------------------------------------------
  // **bold** spans
  // ---------------------------------------------------------------------

  /** Where the span opened before position j closes: the first `**` at or
      after j, provided no newline comes first. */
  function CloseAt(s: string, j: nat): (r: Option<nat>)
    requires j <= |s|
    ensures r.Some? ==> j <= r.value && r.value + 2 <= |s| && StartsWith(s[r.value..], "**")
                        && '\n' !in s[j..r.value]
    decreases |s| - j
  {
    if j + 2 > |s| then None
    else if StartsWith(s[j..], "**") then Some(j)
    else if s[j] == '\n' then None
    else
      var r := CloseAt(s, j + 1);
      if r.Some? then
        assert s[j..r.value] == [s[j]] + s[j + 1..r.value];
        r
      else r
  }

  /** `re.sub(r'\*\*(.+?)\*\*', r'<strong>\1</strong>', s)`: scanning from the
      left, a `**` followed by at least one character and then the nearest
      `**`, with no newline between, becomes a `<strong>` span. */
  function Bold(s: string): string
    decreases |s|
  {
    if |s| >= 3 && s[..2] == "**" && s[2] != '\n' && CloseAt(s, 3).Some? then
      var k := CloseAt(s, 3).value;
      StrongOpen + s[2..k] + StrongClose + Bold(s[k + 2..])
    else if s == [] then []
    else [s[0]] + Bold(s[1..])
  }

  /** `s` has `**` at position i. */
  predicate StarsAt(s: string, i: nat) {
    i + 1 < |s| && s[i] == '*' && s[i + 1] == '*'
  }

  /** A text without `**` has no bold span. */
  lemma {:induction false} BoldWithoutStars(s: string)
    requires forall i :: 0 <= i < |s| ==> !StarsAt(s, i)
    ensures Bold(s) == s
    decreases |s|
  {
    if s != [] {
      if |s| >= 3 {
        assert !StarsAt(s, 0);
        assert s[..2][0] == s[0] && s[..2][1] == s[1];
      }
      forall i | 0 <= i < |s[1..]| ensures !StarsAt(s[1..], i) {
        assert !StarsAt(s, i + 1);
      }
      BoldWithoutStars(s[1..]);
      assert s == [s[0]] + s[1..];
    }
  }

  /** `**w**`, for a one-line `w` without `**`, is the span `<strong>w</strong>`. */
  lemma BoldSpan(w: string)
    requires w != [] && '\n' !in w
    requires forall i :: 0 <= i < |w| ==> !StarsAt(w, i)
    requires w[|w| - 1] != '*'
    ensures Bold("**" + w + "**") == StrongOpen + w + StrongClose
  {
    var s := "**" + w + "**";
    var k := |w| + 2;
    SpanCloses(s, w);
    BoldOpensAtFront(s, k);
    SpanParts(s, w);
    assert Bold(s[k + 2..]) == [];
  }

  lemma SpanParts(s: string, w: string)
    requires s == "**" + w + "**"
    ensures s[2..|w| + 2] == w && s[|w| + 4..] == []
  {
  }

  /** A text that starts with a closed span has that span in front. */
  lemma BoldOpensAtFront(s: string, k: nat)
    requires |s| >= 3 && s[0] == '*' && s[1] == '*' && s[2] != '\n' && CloseAt(s, 3) == Some(k)
    ensures Bold(s) == StrongOpen + s[2..k] + StrongClose + Bold(s[k + 2..])
  {
    assert s[..2] == "**";
  }

  /** In `**w**` the span opened at the front closes at the final `**`. */
  lemma SpanCloses(s: string, w: string)
    requires s == "**" + w + "**"
    requires w != [] && '\n' !in w
    requires forall i :: 0 <= i < |w| ==> !StarsAt(w, i)
    requires w[|w| - 1] != '*'
    ensures |s| >= 3 && s[0] == '*' && s[1] == '*' && s[2] != '\n'
    ensures CloseAt(s, 3) == Some(|w| + 2)
  {
    var k := |w| + 2;
    assert forall i :: 2 <= i < k ==> s[i] == w[i - 2];
    forall i | 3 <= i < k
      ensures s[i] != '\n' && !StarsAt(s, i)
    {
      assert s[i] in w;
      if i + 1 < k {
        assert !StarsAt(w, i - 2);
      }
    }
    assert s[2] in w;
    CloseFound(s, 3, k);
  }

  /** The nearest `**` is found when nothing before it closes the span. */
  lemma {:induction false} CloseFound(s: string, j: nat, k: nat)
    requires j <= k && k + 2 <= |s| && s[k] == '*' && s[k + 1] == '*'
    requires forall i :: j <= i < k ==> s[i] != '\n' && !StarsAt(s, i)
    ensures CloseAt(s, j) == Some(k)
    decreases k - j
  {
    if j < k {
      assert !StartsWith(s[j..], "**") by {
        assert !StarsAt(s, j);
        assert s[j..][..2][0] == s[j] && s[j..][..2][1] == s[j + 1];
      }
      CloseFound(s, j + 1, k);
    } else {
      assert s[j..][..2] == "**";
    }
  }
}
