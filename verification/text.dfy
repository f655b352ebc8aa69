/**
 * The history-entry texts of labelImg.py: decimal rendering of counts
 * (Python's `str(n)`), the group description of `undoTextselect`, and the
 * entry names pushed by the editing commands.
 */
module Text {
  import opened Nudge

  predicate IsDigit(c: char) { '0' <= c <= '9' }

  function DigitChar(d: nat): (c: char)
    requires d < 10
    ensures IsDigit(c) && c as int - '0' as int == d
  {
    ['0', '1', '2', '3', '4', '5', '6', '7', '8', '9'][d]
  }

  /** Python's `str(n)` for a non-negative integer: decimal digits, no leading zero. */
  function NatToString(n: nat): (r: string)
    ensures |r| > 0 && forall i | 0 <= i < |r| :: IsDigit(r[i])
    ensures |r| > 1 ==> r[0] != '0'
    ensures n < 10 <==> |r| == 1
  {
    if n < 10 then [DigitChar(n)] else NatToString(n / 10) + [DigitChar(n % 10)]
  }

  /** The value of a string of decimal digits. */
  function DigitsValue(s: string): nat
    requires forall i | 0 <= i < |s| :: IsDigit(s[i])
  {
    if |s| == 0 then 0
    else
      var last := s[|s| - 1];
      assert IsDigit(last);
      10 * DigitsValue(s[..|s| - 1]) + (last as int - '0' as int)
  }

  /** Reading back the rendered digits gives the number: the rendering loses nothing. */
  lemma {:induction false} NatToStringRoundTrip(n: nat)
    ensures DigitsValue(NatToString(n)) == n
  {
    if n >= 10 {
      var a := NatToString(n / 10);
      var s := a + [DigitChar(n % 10)];
      assert s[..|s| - 1] == a;
      NatToStringRoundTrip(n / 10);
    }
  }

  /** Two numbers render alike only if they are equal. */
  lemma NatToStringInjective(m: nat, n: nat)
    requires NatToString(m) == NatToString(n)
    ensures m == n
  {
    NatToStringRoundTrip(m);
    NatToStringRoundTrip(n);
  }

  /** Python's `set(labellist)`: the distinct labels. */
  function LabelSet(labels: seq<string>): (r: set<string>)
    ensures forall l :: l in r <==> l in labels
  {
    if |labels| == 0 then {} else LabelSet(labels[..|labels| - 1]) + {labels[|labels| - 1]}
  }

  /** More than one distinct label exactly when some label differs from the first. */
  lemma LabelSetMany(labels: seq<string>)
    requires |labels| > 0
    ensures |LabelSet(labels)| > 1 <==> exists i | 0 <= i < |labels| :: labels[i] != labels[0]
  {
    var s := LabelSet(labels);
    if exists i | 0 <= i < |labels| :: labels[i] != labels[0] {
      var i :| 0 <= i < |labels| && labels[i] != labels[0];
      assert {labels[0], labels[i]} <= s;
      assert |{labels[0], labels[i]}| == 2;
      SubsetCard({labels[0], labels[i]}, s);
    } else {
      assert s == {labels[0]};
    }
  }

  lemma SubsetCard(a: set<string>, b: set<string>)
    requires a <= b
    ensures |a| <= |b|
  {
    assert b == a + (b - a);
  }

  /** The fixed text of a multi-label group. */
  const MultiLabel: string := "다중 라벨"

  /**
   * `undoTextselect`: the label of a single shape; for a group, its size
   * followed by " Shapes (" and either the common label or the multi-label
   * text. The source indexes the first label, so the group is not empty.
   */
  function UndoTextSelect(labels: seq<string>): (r: string)
    requires |labels| > 0
  {
    if |labels| == 1 then labels[0]
    else if |LabelSet(labels)| > 1 then NatToString(|labels|) + " Shapes (" + MultiLabel + ")"
    else NatToString(|labels|) + " Shapes (" + labels[0] + ")"
  }

  /** The three cases of the group text, stated on the labels themselves. */
  lemma UndoTextSelectCases(labels: seq<string>)
    requires |labels| > 0
    ensures |labels| == 1 ==> UndoTextSelect(labels) == labels[0]
    ensures |labels| > 1 && (exists i | 0 <= i < |labels| :: labels[i] != labels[0]) ==>
      UndoTextSelect(labels) == NatToString(|labels|) + " Shapes (" + MultiLabel + ")"
    ensures |labels| > 1 && (forall i | 0 <= i < |labels| :: labels[i] == labels[0]) ==>
      UndoTextSelect(labels) == NatToString(|labels|) + " Shapes (" + labels[0] + ")"
  {
    LabelSetMany(labels);
  }

  /** "<base> (<tag>)", the shape of every single-shape entry name. */
  function Tagged(base: string, tag: string): (r: string)
    ensures |r| == |base| + |tag| + 3 && r[..|base|] == base && r[|base| + 2 .. |r| - 1] == tag && r[|r| - 1] == ')'
  {
    base + " (" + tag + ")"
  }

  const HorizontalCutText: string := "가로방향 자르기"
  const VerticalCutText: string := "세로방향 자르기"
  const CrossCutText: string := "십자 자르기"
  const ResizeText: string := "라벨 박스 클릭 수정"
  const RotateText: string := "라벨 박스 회전"
  const ClickmoveText: string := "라벨 박스 클릭 이동"
  const AutotrackingText: string := "라벨 박스 자동 추적"
  const MergeText: string := "라벨 박스 합치기"
  const OpenFileText: string := "파일 열기"

  /** The action word of an arrow-key entry, by the arrow mode that produced it. */
  function KeypressBase(mode: ArrowMode): string {
    match mode
    case Reduction => "라벨 박스 크기 감소 - 방향키"
    case Expansion => "라벨 박스 크기 증가 - 방향키"
    case MoveMode => "라벨 박스 이동 - 방향키"
  }

  /**
   * `keypressUndosave`: "<action> (<direction> <pixels> 픽셀) (<label>)".
   * The pixel count can be read back from the text.
   */
  function KeypressText(mode: ArrowMode, word: string, pixels: nat, tag: string): (r: string)
    ensures var value := word + " " + NatToString(pixels) + " 픽셀";
      r == Tagged(KeypressBase(mode), value) + " (" + tag + ")"
  {
    KeypressBase(mode) + " (" + word + " " + NatToString(pixels) + " 픽셀" + ") (" + tag + ")"
  }

  /** Different arrow modes give different entry names. */
  lemma KeypressTextDistinguishesModes(m1: ArrowMode, m2: ArrowMode, w: string, n: nat, l: string)
    requires m1 != m2
    ensures KeypressText(m1, w, n, l) != KeypressText(m2, w, n, l)
  {
    var r1 := KeypressText(m1, w, n, l);
    var r2 := KeypressText(m2, w, n, l);
    assert r1[..|KeypressBase(m1)|] == KeypressBase(m1);
    assert r2[..|KeypressBase(m2)|] == KeypressBase(m2);
  }

  /** `mergeShapemethod`'s entry: "<merge> (<group text>) -> (<result label>)". */
  function MergeEntryText(groupText: string, tag: string): string {
    MergeText + " (" + groupText + ") -> (" + tag + ")"
  }
}
