/** The Vimium-style label generator `generateLabels` of
    scripts/visual-check.js: index 0..25 gives one letter, later indices
    two letters. */
module Labels {

  /** `chars` */
  const Alphabet: string := "abcdefghijklmnopqrstuvwxyz"

  /** Letter `k` of the alphabet, by code point. */
  function Letter(k: nat): (c: char)
    requires k < 26
  {
    (97 + k) as char
  }

  /** The alphabet holds the 26 consecutive letters from 'a'. */
  lemma AlphabetLetters()
    ensures |Alphabet| == 26
    ensures forall k :: 0 <= k < 26 ==> Alphabet[k] == Letter(k)
  {
  }

  /** `chars[k]` concatenated into a string: the letter, or the text
      "undefined" that JavaScript produces for an index past the end. */
  function CharAt(k: nat): (r: string)
    ensures |r| == if k < 26 then 1 else 9
  {
    if k < 26 then [Letter(k)] else "undefined"
  }

  /** Label `i` as the loop body builds it. */
  function Label(i: nat): string {
    if i < 26 then CharAt(i) else CharAt(i / 26 - 1) + CharAt(i % 26)
  }

  /** Below 702 every label is one or two letters of the alphabet:
      26 gives "aa", 52 gives "ba", 701 gives "zz". */
  lemma LabelShape(i: nat)
    requires i < 702
    ensures i < 26 ==> Label(i) == [Letter(i)]
    ensures i >= 26 ==> Label(i) == [Letter(i / 26 - 1), Letter(i % 26)]
  {
  }

  lemma LabelExamples()
    ensures Label(0) == "a" && Label(25) == "z"
    ensures Label(26) == "aa" && Label(52) == "ba" && Label(701) == "zz"
  {
  }

  /** From 702 on, the first index runs past the alphabet: labels 702 and
      728 are both "undefineda". */
  lemma LabelCollision()
    ensures Label(702) == Label(728) == "undefineda"
  {
  }

  /** `generateLabels(count)`: a counted loop pushing label after label. */
  method GenerateLabels(count: nat) returns (labels: seq<string>)
    ensures |labels| == count
    ensures forall i :: 0 <= i < count ==> labels[i] == Label(i)
  {
    labels := [];
    for i := 0 to count
      invariant |labels| == i
      invariant forall k :: 0 <= k < i ==> labels[k] == Label(k)
    {
      if i < 26 {
        labels := labels + [CharAt(i)];
      } else {
        labels := labels + [CharAt(i / 26 - 1) + CharAt(i % 26)];
      }
    }
  }

  /** The labels continued past "zz" as bijective base 26: "aaa", "aab", … */
  function CorrectedLabel(i: nat): (r: string)
    ensures |r| >= 1 && (i >= 26 ==> |r| >= 2)
    ensures forall k :: 0 <= k < |r| ==> 'a' <= r[k] <= 'z'
    ensures r[|r| - 1] == Letter(i % 26)
  {
    if i < 26 then [Letter(i)] else CorrectedLabel(i / 26 - 1) + [Letter(i % 26)]
  }

  /** The corrected labels agree with the original below 702. */
  lemma CorrectedAgrees(i: nat)
    requires i < 702
    ensures CorrectedLabel(i) == Label(i)
  {
  }

  /** An index is determined by its quotient and remainder by 26. */
  lemma DivModDetermine(i: nat, j: nat)
    requires i / 26 == j / 26 && i % 26 == j % 26
    ensures i == j
  {
  }

  /** Different indices always give different corrected labels. */
  lemma {:induction false} CorrectedLabelInjective(i: nat, j: nat)
    requires i != j
    ensures CorrectedLabel(i) != CorrectedLabel(j)
  {
    var a, b := CorrectedLabel(i), CorrectedLabel(j);
    if i < 26 && j < 26 {
      assert a[0] == Letter(i) && b[0] == Letter(j);
    } else if i >= 26 && j >= 26 {
      if i % 26 != j % 26 {
        assert a[|a| - 1] == Letter(i % 26) && b[|b| - 1] == Letter(j % 26);
      } else {
        if i / 26 == j / 26 {
          DivModDetermine(i, j);
        }
        CorrectedLabelInjective(i / 26 - 1, j / 26 - 1);
        assert a[..|a| - 1] == CorrectedLabel(i / 26 - 1);
        assert b[..|b| - 1] == CorrectedLabel(j / 26 - 1);
      }
    } else {
      assert |a| != |b|;
    }
  }

  /** The first 702 labels are pairwise different. */
  lemma LabelsDistinct(i: nat, j: nat)
    requires i < j < 702
    ensures Label(i) != Label(j)
  {
    CorrectedAgrees(i);
    CorrectedAgrees(j);
    CorrectedLabelInjective(i, j);
  }

  /** So `generateLabels(count)` for any count up to 702 gives distinct labels. */
  lemma GeneratedLabelsDistinct(labels: seq<string>)
    requires |labels| <= 702
    requires forall i :: 0 <= i < |labels| ==> labels[i] == Label(i)
    ensures forall i, j :: 0 <= i < j < |labels| ==> labels[i] != labels[j]
  {
    forall i, j | 0 <= i < j < |labels| ensures labels[i] != labels[j] {
      LabelsDistinct(i, j);
    }
  }

  /** The corrected generator: `count` labels, pairwise different for every count. */
  method GenerateCorrectedLabels(count: nat) returns (labels: seq<string>)
    ensures |labels| == count
    ensures forall i :: 0 <= i < count ==> labels[i] == CorrectedLabel(i)
    ensures forall i, j :: 0 <= i < j < count ==> labels[i] != labels[j]
  {
    labels := [];
    for i := 0 to count
      invariant |labels| == i
      invariant forall k :: 0 <= k < i ==> labels[k] == CorrectedLabel(k)
    {
      labels := labels + [CorrectedLabel(i)];
    }
    forall i, j | 0 <= i < j < count ensures labels[i] != labels[j] {
      CorrectedLabelInjective(i, j);
    }
  }
}
