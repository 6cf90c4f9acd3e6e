/**
 * Model of src/gameplay/entities/scoreManager.ts: the score entity, which shows its score
 * as one text run, left-padded with zeros to at least four characters.
 */
module ScoreManager {
  import Strings

  /** An `IText` run. */
  datatype TextRun = TextRun(font: string, fillStyle: string, value: string)

  const Font: string := "40px VT323"
  const Fill: string := "white"

  /** The padded width of the score text. */
  const Width: int := 4

  /** `value` is `digits` behind as many '0' characters as it takes to reach four characters. */
  predicate PaddedFrom(value: string, digits: string) {
    var pad := if |digits| < Width then Width - |digits| else 0;
    && |value| == |digits| + pad
    && value[pad..] == digits
    && (forall k :: 0 <= k < pad ==> value[k] == '0')
  }

  /** `getText(n)` for an integer: one white VT323 run holding the zero-padded `String(n)`. */
  method GetText(n: int) returns (runs: seq<TextRun>)
    ensures |runs| == 1 && runs[0].font == Font && runs[0].fillStyle == Fill
    ensures PaddedFrom(runs[0].value, Strings.IntToString(n))
  {
    var digits := Strings.IntToString(n);
    var value := digits;
    while |value| < Width
      invariant |digits| <= |value|
      invariant |digits| < Width ==> |value| <= Width
      invariant |digits| >= Width ==> value == digits
      invariant value[|value| - |digits|..] == digits
      invariant forall k :: 0 <= k < |value| - |digits| ==> value[k] == '0'
      decreases Width - |value|
    {
      value := "0" + value;
    }
    runs := [TextRun(Font, Fill, value)];
  }

  /** A padded text is at least four characters long and keeps a long number as it is. */
  lemma PaddedLength(value: string, digits: string)
    requires PaddedFrom(value, digits)
    ensures |value| == if |digits| < Width then Width else |digits|
    ensures |digits| >= Width ==> value == digits
  {
  }

  /** Different scores of zero or more show different texts: the padding can be read back. */
  lemma PaddedScoresDiffer(value: string, a: nat, b: nat)
    requires PaddedFrom(value, Strings.NatToString(a))
    requires PaddedFrom(value, Strings.NatToString(b))
    ensures a == b
  {
    var sa, sb := Strings.NatToString(a), Strings.NatToString(b);
    if |sa| == |sb| {
      Strings.NatToStringInjective(a, b);
    } else if |sa| < |sb| {
      ZeroLedNumber(value, sb, b, sa);
    } else {
      ZeroLedNumber(value, sa, a, sb);
    }
  }

  /**
   * When the text of `long` and a non-empty text both pad to `value`, `long`'s text is not
   * the longer one: otherwise it would start with a padding '0', so `long` would be 0,
   * whose text has only one character.
   */
  lemma ZeroLedNumber(value: string, longText: string, long: nat, shortText: string)
    requires longText == Strings.NatToString(long)
    requires |shortText| >= 1
    requires PaddedFrom(value, longText) && PaddedFrom(value, shortText)
    ensures |longText| <= |shortText|
  {
    if |shortText| < |longText| {
      var pad := Width - |shortText|;
      var padLong := if |longText| < Width then Width - |longText| else 0;
      assert value[padLong] == longText[0];
      assert padLong < pad;
      Strings.NatToStringNoLeadingZero(long);
      Strings.NatToStringLength(long);
      assert false;
    }
  }

  class ScoreManager {
    var score: int
    var text: seq<TextRun>

    /** A new score manager starts at 0. */
    constructor (initialText: seq<TextRun>)
      ensures score == 0 && text == initialText
    {
      score := 0;
      text := initialText;
    }

    /** `addPoints`: the score grows by `amount` and the text shows the new score. */
    method AddPoints(amount: int)
      modifies this
      ensures score == old(score) + amount
      ensures |text| == 1 && text[0].font == Font && text[0].fillStyle == Fill
      ensures PaddedFrom(text[0].value, Strings.IntToString(score))
    {
      score := score + amount;
      text := GetText(score);
    }
  }

  /**
   * The text of a score of 7 is "0007" and of 12345 is "12345"; a negative score is padded
   * in front of its sign, so -5 shows as "00-5".
   */
  method ExampleTexts() returns (short: string, long: string, negative: string)
    ensures short == "0007" && long == "12345" && negative == "00-5"
  {
    var r1 := GetText(7);
    var r2 := GetText(12345);
    var r3 := GetText(-5);
    short := r1[0].value;
    long := r2[0].value;
    negative := r3[0].value;
    assert Strings.IntToString(7) == "7";
    assert Strings.IntToString(12345) == "12345";
    assert Strings.IntToString(-5) == "-5";
  }
}
