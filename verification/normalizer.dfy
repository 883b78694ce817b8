/** The label normaliser: moderation labels in, the five-field score string
    out (`getConfidenceForLabel` and `convertLabelsToTrueSightFormat`). */
module TrueSight {
  import opened Wrappers
  import Ascii
  import Decimal
  import Delimited

  /** One moderation label: its name and its confidence in percent. */
  datatype Label = Label(name: string, confidence: real)

  const ExplicitNudity: string := "Explicit Nudity"
  const Suggestive: string := "Suggestive"
  const Violence: string := "Violence"
  const VisuallyDisturbing: string := "Visually Disturbing"
  const HateSymbols: string := "Hate Symbols"

  /** The five categories in the order of the output fields. */
  const Categories: seq<string> := [ExplicitNudity, Suggestive, Violence, VisuallyDisturbing, HateSymbols]

  const Separator: char := ','

  /** The characters the output is made of. */
  predicate NumberOrSeparator(c: char) {
    Decimal.IsDigit(c) || c == '-' || c == Separator
  }

  /** A label belongs to a category when the names agree ignoring letter case. */
  predicate Matches(entry: Label, category: string): (b: bool)
    ensures b <==> Ascii.SameIgnoringCase(entry.name, category)
  {
    Ascii.LowerEqualIff(entry.name, category);
    Ascii.Lower(entry.name) == Ascii.Lower(category)
  }

  /** `i` is the position of the first label of the category. */
  predicate IsFirstMatch(labels: seq<Label>, category: string, i: int) {
    && 0 <= i < |labels|
    && Matches(labels[i], category)
    && forall j :: 0 <= j < i ==> !Matches(labels[j], category)
  }

  /** `Math.round`: the nearest integer, halves rounded up. */
  function Round(c: real): (r: int)
    ensures c - 0.5 < r as real <= c + 0.5
  {
    (c + 0.5).Floor
  }

  /** The labels of the category, in input order (the `filter` call). */
  function MatchingLabels(labels: seq<Label>, category: string): (m: seq<Label>)
    ensures forall k :: 0 <= k < |m| ==> Matches(m[k], category)
    ensures |m| == 0 <==> forall i :: 0 <= i < |labels| ==> !Matches(labels[i], category)
    ensures forall i :: IsFirstMatch(labels, category, i) ==> |m| > 0 && m[0] == labels[i]
    decreases |labels|
  {
    if |labels| == 0 then []
    else
      var rest := MatchingLabels(labels[1..], category);
      assert forall i :: 1 <= i < |labels| ==> labels[i] == labels[1..][i - 1];
      assert forall i :: 1 <= i && IsFirstMatch(labels, category, i) ==> IsFirstMatch(labels[1..], category, i - 1);
      if Matches(labels[0], category) then [labels[0]] + rest else rest
  }

  /** Score of one category: the rounded confidence of its first label, 0 when
      no label belongs to it. */
  function ConfidenceForLabel(labels: seq<Label>, category: string): (r: int)
    ensures (forall i :: 0 <= i < |labels| ==> !Matches(labels[i], category)) ==> r == 0
    ensures forall i :: IsFirstMatch(labels, category, i) ==> r == Round(labels[i].confidence)
  {
    var m := MatchingLabels(labels, category);
    if |m| == 0 then 0 else Round(m[0].confidence)
  }

  /** The five scores in category order. */
  function Scores(labels: seq<Label>): (s: seq<int>)
    ensures |s| == |Categories|
    ensures forall k :: 0 <= k < |s| && (forall i :: 0 <= i < |labels| ==> !Matches(labels[i], Categories[k])) ==>
              s[k] == 0
    ensures forall k, i :: 0 <= k < |s| && IsFirstMatch(labels, Categories[k], i) ==>
              s[k] == Round(labels[i].confidence)
  {
    seq(|Categories|, k requires 0 <= k < |Categories| => ConfidenceForLabel(labels, Categories[k]))
  }

  /** The decimal text of each score. */
  function Fields(scores: seq<int>): (f: seq<string>)
    ensures |f| == |scores|
    ensures forall k :: 0 <= k < |f| ==> Decimal.ParseInt(f[k]) == Some(scores[k])
    ensures forall k :: 0 <= k < |f| ==> |f[k]| >= 1 && Separator !in f[k]
    ensures forall k, j :: 0 <= k < |f| && 0 <= j < |f[k]| ==> NumberOrSeparator(f[k][j])
    ensures forall k :: 0 <= k < |f| ==>
              && (f[k][0] == '0' ==> f[k] == "0")
              && (f[k][0] == '-' ==> |f[k]| >= 2 && f[k][1] != '0')
  {
    forall k | 0 <= k < |scores| ensures Decimal.ParseInt(Decimal.IntToString(scores[k])) == Some(scores[k]) {
      Decimal.ParseIntToString(scores[k]);
    }
    seq(|scores|, k requires 0 <= k < |scores| => Decimal.IntToString(scores[k]))
  }

  /** `convertLabelsToTrueSightFormat`: the five scores joined with commas. */
  function Convert(labels: seq<Label>): (r: string)
    ensures Delimited.Split(r, Separator) == Fields(Scores(labels))
  {
    var fields := Fields(Scores(labels));
    Delimited.SplitJoin(fields, Separator);
    Delimited.Join(fields, Separator)
  }

  /** Reference definition of first-match lookup, by scanning positions
      instead of filtering: the position of the first label of the category. */
  function FirstMatch(labels: seq<Label>, category: string): (r: Option<nat>)
    ensures r.None? <==> forall i :: 0 <= i < |labels| ==> !Matches(labels[i], category)
    ensures r.Some? ==> IsFirstMatch(labels, category, r.value)
    decreases |labels|
  {
    if |labels| == 0 then None
    else if Matches(labels[0], category) then Some(0)
    else match FirstMatch(labels[1..], category)
      case None => None
      case Some(i) => Some(i + 1)
  }

  /** The filter-based score agrees with the position-based reference: 0 when
      the category is absent, otherwise the rounded confidence at the first match. */
  lemma ConfidenceIsFirstMatch(labels: seq<Label>, category: string)
    ensures ConfidenceForLabel(labels, category) ==
            match FirstMatch(labels, category)
            case None => 0
            case Some(i) => Round(labels[i].confidence)
  {
  }

  /** Reading the output: it splits on commas into exactly five fields, field
      `k` is the decimal text of category `k`'s score and reads back as it. */
  lemma ConvertSplitsIntoScores(labels: seq<Label>)
    ensures |Delimited.Split(Convert(labels), Separator)| == 5
    ensures forall k :: 0 <= k < 5 ==>
              Delimited.Split(Convert(labels), Separator)[k] == Decimal.IntToString(ConfidenceForLabel(labels, Categories[k]))
    ensures forall k :: 0 <= k < 5 ==>
              Decimal.ParseInt(Delimited.Split(Convert(labels), Separator)[k]) == Some(ConfidenceForLabel(labels, Categories[k]))
  {
    var fields := Fields(Scores(labels));
    Delimited.SplitJoin(fields, Separator);
  }

  /** The output holds exactly four commas. */
  lemma ConvertCommaCount(labels: seq<Label>)
    ensures multiset(Convert(labels))[Separator] == 4
  {
    ConvertSplitsIntoScores(labels);
    Delimited.SplitCount(Convert(labels), Separator);
  }

  /** Apart from the commas the output holds only digits and minus signs:
      no whitespace. */
  lemma ConvertAlphabet(labels: seq<Label>)
    ensures forall j :: 0 <= j < |Convert(labels)| ==> NumberOrSeparator(Convert(labels)[j])
  {
    var fields := Fields(Scores(labels));
    Delimited.JoinChars(fields, Separator, NumberOrSeparator);
  }

  /** The output neither starts nor ends with a comma. */
  lemma ConvertEnds(labels: seq<Label>)
    ensures |Convert(labels)| >= 1
    ensures Convert(labels)[0] != Separator
    ensures Convert(labels)[|Convert(labels)| - 1] != Separator
  {
    var fields := Fields(Scores(labels));
    Delimited.JoinEnds(fields, Separator);
    assert fields[0][0] in fields[0];
    assert fields[4][|fields[4]| - 1] in fields[4];
  }

  /** A category no label belongs to contributes the field "0". */
  lemma AbsentCategoryIsZero(labels: seq<Label>, k: nat)
    requires k < |Categories|
    requires forall i :: 0 <= i < |labels| ==> !Matches(labels[i], Categories[k])
    ensures |Delimited.Split(Convert(labels), Separator)| == 5
    ensures Delimited.Split(Convert(labels), Separator)[k] == "0"
  {
    ConvertSplitsIntoScores(labels);
  }

  /** When several labels belong to a category, the first one alone decides
      its score: labels appended after it make no difference. */
  lemma FirstMatchWins(labels: seq<Label>, later: seq<Label>, category: string, i: nat)
    requires i < |labels| && Matches(labels[i], category)
    ensures ConfidenceForLabel(labels + later, category) == ConfidenceForLabel(labels, category)
  {
    var j := FirstMatch(labels, category).value;
    assert IsFirstMatch(labels + later, category, j) by {
      forall m | 0 <= m < j ensures !Matches((labels + later)[m], category) {
        assert (labels + later)[m] == labels[m];
      }
    }
  }

  /** Two label sequences that agree position by position on which labels
      belong to a category and on their confidences score that category alike. */
  lemma {:induction false} SameMembershipSameScore(a: seq<Label>, b: seq<Label>, category: string)
    requires |a| == |b|
    requires forall i :: 0 <= i < |a| ==> (Matches(a[i], category) <==> Matches(b[i], category))
    requires forall i :: 0 <= i < |a| ==> a[i].confidence == b[i].confidence
    ensures ConfidenceForLabel(a, category) == ConfidenceForLabel(b, category)
  {
    match FirstMatch(a, category)
    case None =>
    case Some(i) =>
      assert IsFirstMatch(b, category, i);
  }

  /** Changing the letter case of label names does not change the output. */
  lemma {:induction false} CaseInsensitive(a: seq<Label>, b: seq<Label>)
    requires |a| == |b|
    requires forall i :: 0 <= i < |a| ==> Ascii.SameIgnoringCase(a[i].name, b[i].name)
    requires forall i :: 0 <= i < |a| ==> a[i].confidence == b[i].confidence
    ensures Convert(a) == Convert(b)
  {
    forall i | 0 <= i < |a| ensures Ascii.Lower(a[i].name) == Ascii.Lower(b[i].name) {
      Ascii.LowerEqualIff(a[i].name, b[i].name);
    }
    forall k | 0 <= k < |Categories|
      ensures ConfidenceForLabel(a, Categories[k]) == ConfidenceForLabel(b, Categories[k])
    {
      SameMembershipSameScore(a, b, Categories[k]);
    }
    assert Scores(a) == Scores(b);
  }

  /** A label that belongs to none of the five categories has no effect,
      wherever it is inserted. */
  lemma {:induction false} IrrelevantLabelIgnored(labels: seq<Label>, x: Label, at: nat)
    requires at <= |labels|
    requires forall k :: 0 <= k < |Categories| ==> !Matches(x, Categories[k])
    ensures Convert(labels[..at] + [x] + labels[at..]) == Convert(labels)
  {
    var grown := labels[..at] + [x] + labels[at..];
    forall k | 0 <= k < |Categories|
      ensures ConfidenceForLabel(grown, Categories[k]) == ConfidenceForLabel(labels, Categories[k])
    {
      var c := Categories[k];
      assert forall i :: 0 <= i < at ==> grown[i] == labels[i];
      assert forall i :: at < i < |grown| ==> grown[i] == labels[i - 1];
      match FirstMatch(labels, c)
      case None =>
        assert forall i :: 0 <= i < |grown| ==> !Matches(grown[i], c);
      case Some(j) =>
        if j < at {
          assert IsFirstMatch(grown, c, j);
        } else {
          assert IsFirstMatch(grown, c, j + 1);
        }
    }
    assert Scores(grown) == Scores(labels);
  }

  /** A category's score lies in [0, 100] when every confidence does. */
  lemma {:induction false} ScoreInRange(labels: seq<Label>, category: string)
    requires forall i :: 0 <= i < |labels| ==> 0.0 <= labels[i].confidence <= 100.0
    ensures 0 <= ConfidenceForLabel(labels, category) <= 100
  {
    match FirstMatch(labels, category)
    case None =>
    case Some(i) =>
      assert ConfidenceForLabel(labels, category) == Round(labels[i].confidence);
  }

  /** Confidences in [0, 100] give fields of one to three digits whose values
      lie in [0, 100]. */
  lemma {:induction false} ScoresInRange(labels: seq<Label>)
    requires forall i :: 0 <= i < |labels| ==> 0.0 <= labels[i].confidence <= 100.0
    ensures |Delimited.Split(Convert(labels), Separator)| == 5
    ensures forall k :: 0 <= k < 5 ==>
              var f := Delimited.Split(Convert(labels), Separator)[k];
              && 1 <= |f| <= 3
              && Decimal.AllDigits(f)
              && 0 <= Decimal.ParseNat(f) <= 100
  {
    ConvertSplitsIntoScores(labels);
    var parts := Delimited.Split(Convert(labels), Separator);
    forall k | 0 <= k < 5
      ensures 1 <= |parts[k]| <= 3 && Decimal.AllDigits(parts[k]) && 0 <= Decimal.ParseNat(parts[k]) <= 100
    {
      var score := ConfidenceForLabel(labels, Categories[k]);
      ScoreInRange(labels, Categories[k]);
      Decimal.NatToStringShort(score);
      Decimal.ParseNatToString(score);
    }
  }

  /** Labels nudity 2.3 and violence 95.8 score 2, 0, 96, 0, 0. */
  lemma WorkedExampleScores()
    ensures Scores([Label("Explicit Nudity", 2.3), Label("Violence", 95.8)]) == [2, 0, 96, 0, 0]
  {
    var labels := [Label("Explicit Nudity", 2.3), Label("Violence", 95.8)];
    // The five category names have pairwise different lengths, so each
    // label matches exactly the category it names.
    forall i, k | 0 <= i < 2 && 0 <= k < 5 && |labels[i].name| != |Categories[k]|
      ensures !Matches(labels[i], Categories[k])
    {
      assert |Ascii.Lower(labels[i].name)| == |labels[i].name|;
    }
    assert IsFirstMatch(labels, ExplicitNudity, 0);
    assert IsFirstMatch(labels, Violence, 1);
    assert Round(2.3) == 2;
    assert Round(95.8) == 96;
  }

  /** The scores 2, 0, 96, 0, 0 are written as "2,0,96,0,0". */
  lemma WorkedExampleText()
    ensures Delimited.Join(Fields([2, 0, 96, 0, 0]), Separator) == "2,0,96,0,0"
  {
    var fields := ["2", "0", "96", "0", "0"];
    assert Fields([2, 0, 96, 0, 0]) == fields by {
      var f := Fields([2, 0, 96, 0, 0]);
      assert Decimal.IntToString(96) == "96" by {
        assert Decimal.NatToString(9) == "9";
        assert Decimal.DigitChar(6) == '6';
      }
      assert f[2] == "96";
      assert f[0] == "2";
      assert f[1] == "0" && f[3] == "0" && f[4] == "0";
    }
    assert Delimited.Join(fields, Separator) == "2,0,96,0,0" by {
      assert fields[4..] == ["0"];
      assert Delimited.Join(fields[3..], Separator) == "0,0";
      assert Delimited.Join(fields[2..], Separator) == "96,0,0";
      assert Delimited.Join(fields[1..], Separator) == "0,96,0,0";
    }
  }

  /** Labels nudity 2.3 and violence 95.8 give "2,0,96,0,0": the three
      categories without a label read 0. */
  lemma WorkedExample()
    ensures Convert([Label("Explicit Nudity", 2.3), Label("Violence", 95.8)]) == "2,0,96,0,0"
  {
    WorkedExampleScores();
    WorkedExampleText();
  }
}
