/**
 * `parseColoredText` of src/components/ServerListItem.tsx: a project name
 * written with colour codes becomes a list of `<span>` segments, each a run
 * of text and the colour in effect for it. The React elements are modelled
 * as `Segment` values; the element keys are left out.
 */
module ServerListItem {
  import opened Strings
  import opened ColorCodes
  import Seqs

  /** One `<span style={{ color }}>` with its text. */
  datatype Segment = Segment(color: string, text: string)

  /** One visible character and the colour it is drawn in. */
  datatype Painted = Painted(ch: char, color: string)

  /** `text.split(/(\^\d)/g).filter(Boolean)`: the codes, each as its own
      part, and the maximal runs of text between them, without empty parts. */
  function SplitParts(s: string): (parts: seq<string>)
    decreases |s|
  {
    if s == [] then []
    else if CodeAt(s, 0) then [s[..2]] + SplitParts(s[2..])
    else
      var rest := SplitParts(s[1..]);
      if rest != [] && !IsCode(rest[0]) then [[s[0]] + rest[0]] + rest[1..]
      else [[s[0]]] + rest
  }

  function Join(parts: seq<string>): string
    decreases |parts|
  {
    if parts == [] then [] else parts[0] + Join(parts[1..])
  }

  /** The parts put back together are the input; every part is non-empty and
      is either a single code or text that contains no code. */
  lemma {:induction false} SplitPartsShape(s: string)
    ensures Join(SplitParts(s)) == s
    ensures forall k :: 0 <= k < |SplitParts(s)| ==>
      SplitParts(s)[k] != [] && (IsCode(SplitParts(s)[k]) || !HasCode(SplitParts(s)[k]))
    ensures s != [] ==> SplitParts(s) != [] && SplitParts(s)[0][0] == s[0]
    decreases |s|
  {
    if s != [] {
      var parts := SplitParts(s);
      if CodeAt(s, 0) {
        SplitPartsShape(s[2..]);
        assert parts[1..] == SplitParts(s[2..]);
        assert s == s[..2] + s[2..];
      } else {
        var rest := SplitParts(s[1..]);
        SplitPartsShape(s[1..]);
        if rest != [] && !IsCode(rest[0]) {
          var head := [s[0]] + rest[0];
          assert parts == [head] + rest[1..];
          assert parts[1..] == rest[1..];
          assert !HasCode(head) by {
            forall i | 0 <= i < |head| ensures !CodeAt(head, i) {
              if i == 0 {
                assert s[1..] != [] && rest[0][0] == s[1];
                assert !CodeAt(s, 0);
              } else {
                assert !CodeAt(rest[0], i - 1);
              }
            }
          }
          assert Join(rest) == rest[0] + Join(rest[1..]);
        } else {
          assert parts[1..] == rest;
          assert !HasCode([s[0]]);
        }
        assert s == [s[0]] + s[1..];
      }
    }
  }

  /** A code at the front is a part of its own. */
  lemma SplitPartsCode(s: string)
    requires CodeAt(s, 0)
    ensures SplitParts(s) != [] && IsCode(SplitParts(s)[0]) && SplitParts(s)[0][1] == s[1]
    ensures SplitParts(s)[1..] == SplitParts(s[2..])
  {
  }

  /** Text at the front joins the first part of the rest when that part is
      text too; the joined part is not a code. */
  lemma SplitPartsMerge(s: string)
    requires s != [] && !CodeAt(s, 0)
    requires SplitParts(s[1..]) != [] && !IsCode(SplitParts(s[1..])[0])
    ensures var rest := SplitParts(s[1..]);
      SplitParts(s) == [[s[0]] + rest[0]] + rest[1..] && !IsCode([s[0]] + rest[0])
  {
    var rest := SplitParts(s[1..]);
    var head := [s[0]] + rest[0];
    if |head| == 2 {
      SplitPartsShape(s[1..]);
      assert head == [s[0], s[1]];
    }
  }

  /** Otherwise it is a part of its own, which is not a code either. */
  lemma SplitPartsAlone(s: string)
    requires s != [] && !CodeAt(s, 0)
    requires SplitParts(s[1..]) == [] || IsCode(SplitParts(s[1..])[0])
    ensures SplitParts(s) == [[s[0]]] + SplitParts(s[1..]) && !IsCode([s[0]])
  {
    assert |[s[0]]| == 1;
  }

  /** A run of text painted in one colour. */
  function Paint(text: string, color: string): (r: seq<Painted>)
    ensures |r| == |text|
  {
    seq(|text|, i requires 0 <= i < |text| => Painted(text[i], color))
  }

  lemma PaintAppend(a: string, b: string, color: string)
    ensures Paint(a + b, color) == Paint(a, color) + Paint(b, color)
  {
    assert forall i :: 0 <= i < |a + b| ==> Paint(a + b, color)[i] == (Paint(a, color) + Paint(b, color))[i];
  }

  /** The reference reading of a coloured text: every character that is not
      part of a code, in the colour of the last code before it, or `color`
      when there is none. */
  function CharColors(s: string, color: string): seq<Painted>
    decreases |s|
  {
    if s == [] then []
    else if CodeAt(s, 0) then CharColors(s[2..], CodeColor(s[1]))
    else [Painted(s[0], color)] + CharColors(s[1..], color)
  }

  /** The colour in effect after reading all of `s`. */
  function FinalColor(s: string, color: string): string
    decreases |s|
  {
    if s == [] then color
    else if CodeAt(s, 0) then FinalColor(s[2..], CodeColor(s[1]))
    else FinalColor(s[1..], color)
  }

  /** The characters of a painted sequence. */
  function Chars(p: seq<Painted>): (r: string)
    ensures |r| == |p|
  {
    seq(|p|, i requires 0 <= i < |p| => p[i].ch)
  }

  /** The same reading over the parts of `SplitParts`. */
  function PartsColors(parts: seq<string>, color: string): seq<Painted>
    decreases |parts|
  {
    if parts == [] then []
    else if IsCode(parts[0]) then PartsColors(parts[1..], CodeColor(parts[0][1]))
    else Paint(parts[0], color) + PartsColors(parts[1..], color)
  }

  /** Reading the parts gives the same colouring as reading the characters. */
  lemma {:induction false} PartsColorsAgree(s: string, color: string)
    ensures PartsColors(SplitParts(s), color) == CharColors(s, color)
    decreases |s|
  {
    if s != [] {
      if CodeAt(s, 0) {
        PartsColorsAgree(s[2..], CodeColor(s[1]));
        SplitPartsCode(s);
      } else {
        PartsColorsAgree(s[1..], color);
        PartsColorsText(s, color);
      }
    }
  }

  /** The step of `PartsColorsAgree` for text at the front. */
  lemma PartsColorsText(s: string, color: string)
    requires s != [] && !CodeAt(s, 0)
    requires PartsColors(SplitParts(s[1..]), color) == CharColors(s[1..], color)
    ensures PartsColors(SplitParts(s), color) == CharColors(s, color)
  {
    var rest := SplitParts(s[1..]);
    assert Paint([s[0]], color) == [Painted(s[0], color)];
    if rest != [] && !IsCode(rest[0]) {
      SplitPartsMerge(s);
      PartsColorsMerge(s[0], rest, color);
    } else {
      SplitPartsAlone(s);
    }
  }

  /** A character joined to a leading run of text is painted before it. */
  lemma PartsColorsMerge(c: char, rest: seq<string>, color: string)
    requires rest != [] && !IsCode(rest[0]) && !IsCode([c] + rest[0])
    ensures PartsColors([[c] + rest[0]] + rest[1..], color) == Paint([c], color) + PartsColors(rest, color)
  {
    var parts := [[c] + rest[0]] + rest[1..];
    var tail := PartsColors(rest[1..], color);
    assert parts[0] == [c] + rest[0] && parts[1..] == rest[1..];
    assert PartsColors(parts, color) == Paint([c] + rest[0], color) + tail;
    assert PartsColors(rest, color) == Paint(rest[0], color) + tail;
    PaintAppend([c], rest[0], color);
    Seqs.AppendAssoc(Paint([c], color), Paint(rest[0], color), tail);
  }

  /** The characters of a colouring are the text without its codes. */
  lemma {:induction false} CharColorsChars(s: string, color: string)
    ensures Chars(CharColors(s, color)) == StripCodes(s)
    decreases |s|
  {
    if s != [] {
      if CodeAt(s, 0) {
        CharColorsChars(s[2..], CodeColor(s[1]));
      } else {
        CharColorsChars(s[1..], color);
        var rest := CharColors(s[1..], color);
        assert Chars([Painted(s[0], color)] + rest) == [s[0]] + Chars(rest);
      }
    }
  }

  /** Reading `s + t` is reading `s` and then `t` in the colour `s` leaves in
      effect, when `t` does not start with a digit that would complete a code
      begun at the end of `s`. */
  lemma {:induction false} CharColorsAppend(s: string, t: string, color: string)
    requires t == [] || !IsDigit(t[0])
    ensures CharColors(s + t, color) == CharColors(s, color) + CharColors(t, FinalColor(s, color))
    decreases |s|
  {
    if s == [] {
      assert s + t == t;
    } else if CodeAt(s, 0) {
      assert CodeAt(s + t, 0) && (s + t)[1] == s[1];
      assert (s + t)[2..] == s[2..] + t;
      CharColorsAppend(s[2..], t, CodeColor(s[1]));
    } else {
      assert !CodeAt(s + t, 0) by {
        if |s| == 1 { assert t == [] || !IsDigit((s + t)[1]); }
        else { assert (s + t)[1] == s[1]; }
      }
      assert (s + t)[1..] == s[1..] + t;
      CharColorsAppend(s[1..], t, color);
    }
  }

  /** Codes at the end of a text emit nothing, and of several codes in a row
      only the last one colours the text that follows. */
  lemma CodesInARow(d: char, e: char, t: string, color: string)
    requires IsDigit(d) && IsDigit(e)
    ensures CharColors(['^', d], color) == []
    ensures CharColors(['^', d, '^', e] + t, color) == CharColors(['^', e] + t, color)
  {
    var s := ['^', d, '^', e] + t;
    assert CodeAt(s, 0) && s[2..] == ['^', e] + t && s[1] == d;
    assert CodeAt(['^', d], 0) && ['^', d][2..] == [];
  }

  /** A code at the very end of a text adds nothing to its colouring. */
  lemma TrailingCodeEmitsNothing(s: string, d: char, color: string)
    requires IsDigit(d)
    ensures CharColors(s + ['^', d], color) == CharColors(s, color)
  {
    CharColorsAppend(s, ['^', d], color);
    CodesInARow(d, d, [], FinalColor(s, color));
  }

  /** The painted characters of a list of segments, in order. */
  function Explode(segs: seq<Segment>): seq<Painted>
    decreases |segs|
  {
    if segs == [] then []
    else Explode(segs[..|segs| - 1]) + Paint(segs[|segs| - 1].text, segs[|segs| - 1].color)
  }

  /** The texts of a list of segments, concatenated. */
  function Texts(segs: seq<Segment>): string
    decreases |segs|
  {
    if segs == [] then [] else Texts(segs[..|segs| - 1]) + segs[|segs| - 1].text
  }

  lemma {:induction false} ExplodeChars(segs: seq<Segment>)
    ensures Chars(Explode(segs)) == Texts(segs)
    decreases |segs|
  {
    if segs != [] {
      var init := segs[..|segs| - 1];
      var last := segs[|segs| - 1];
      ExplodeChars(init);
      assert Chars(Explode(init) + Paint(last.text, last.color)) == Chars(Explode(init)) + last.text;
    }
  }

  /** Reading the parts from index `i` on, one part at a time. */
  lemma PartsColorsStep(parts: seq<string>, i: int, color: string)
    requires 0 <= i < |parts|
    ensures PartsColors(parts[i..], color) ==
      if IsCode(parts[i]) then PartsColors(parts[i + 1..], CodeColor(parts[i][1]))
      else Paint(parts[i], color) + PartsColors(parts[i + 1..], color)
  {
    assert parts[i..][0] == parts[i] && parts[i..][1..] == parts[i + 1..];
  }

  /** One more segment paints its text after the others. */
  lemma ExplodeSnoc(segs: seq<Segment>, seg: Segment)
    ensures Explode(segs + [seg]) == Explode(segs) + Paint(seg.text, seg.color)
  {
    assert (segs + [seg])[..|segs|] == segs;
  }

  /** `parseColoredText(text)`: walks the parts, keeping the current colour
      (white until a code is seen) and emitting one segment per run of text. */
  method ParseColoredText(text: string) returns (elements: seq<Segment>)
    ensures forall k :: 0 <= k < |elements| ==> elements[k].text != [] && !HasCode(elements[k].text)
    ensures Explode(elements) == CharColors(text, White)
    ensures Texts(elements) == StripCodes(text)
  {
    var parts := SplitParts(text);
    SplitPartsShape(text);
    PartsColorsAgree(text, White);
    ColorMapKeys();
    var currentColor := ColorMap["^0"];
    elements := [];
    for i := 0 to |parts|
      invariant forall k :: 0 <= k < |elements| ==> elements[k].text != [] && !HasCode(elements[k].text)
      invariant Explode(elements) + PartsColors(parts[i..], currentColor) == CharColors(text, White)
    {
      PartsColorsStep(parts, i, currentColor);
      if parts[i] in ColorMap {
        assert parts[i] == ['^', parts[i][1]];
        CodeColorInMap(parts[i][1]);
        currentColor := ColorMap[parts[i]];
      } else {
        var seg := Segment(currentColor, parts[i]);
        ExplodeSnoc(elements, seg);
        Seqs.AppendAssoc(Explode(elements), Paint(parts[i], currentColor), PartsColors(parts[i + 1..], currentColor));
        elements := elements + [seg];
      }
    }
    assert parts[|parts|..] == [];
    ExplodeChars(elements);
    CharColorsChars(text, White);
  }
}
