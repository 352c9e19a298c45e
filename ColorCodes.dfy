/**
 * The game's colour codes: a caret followed by one decimal digit (`^0` …
 * `^9`) switches the colour of the text that follows it. `ColorMap` is the
 * table of src/lib/utils.ts; src/components/ServerListItem.tsx holds a
 * copy with the same ten entries, and both are modelled by this one table.
 */
module ColorCodes {
  import opened Strings

  const White := "#FFFFF0"

  /** The colour of each code, as a CSS colour. */
  const ColorMap: map<string, string> := map[
    "^0" := White,      // white
    "^1" := "#F44336",  // red
    "^2" := "#4CAF50",  // green
    "^3" := "#FFEB3B",  // yellow
    "^4" := "#42A5F5",  // blue
    "^5" := "#03A9F4",  // light blue
    "^6" := "#9C27B0",  // purple
    "^7" := White,      // white
    "^8" := "#FF5722",  // orange
    "^9" := "#9E9E9E"   // grey
  ]

  /** `p` is exactly one colour code, as the regular expression `\^\d` matches it. */
  predicate IsCode(p: string) { |p| == 2 && p[0] == '^' && IsDigit(p[1]) }

  /** A colour code starts at index `i` of `s`. */
  predicate CodeAt(s: string, i: int) {
    0 <= i && i + 1 < |s| && s[i] == '^' && IsDigit(s[i + 1])
  }

  predicate HasCode(s: string) { exists i | 0 <= i < |s| :: CodeAt(s, i) }

  /** A CSS colour of the form `#RRGGBB`, in upper-case hexadecimal. */
  predicate IsHexColor(c: string) {
    |c| == 7 && c[0] == '#' && forall i | 1 <= i < 7 :: IsDigit(c[i]) || 'A' <= c[i] <= 'F'
  }

  /** The table holds nothing but the ten codes, every colour is a `#RRGGBB`
      colour, and `^0` and `^7` share one, white. */
  lemma ColorMapShape()
    ensures forall p :: p in ColorMap ==> IsCode(p)
    ensures forall p :: p in ColorMap ==> IsHexColor(ColorMap[p])
    ensures ColorMap["^0"] == ColorMap["^7"] == White
  {
    assert ColorMap.Keys == {"^0", "^1", "^2", "^3", "^4", "^5", "^6", "^7", "^8", "^9"};
  }

  /** The keys of the table are exactly the ten codes. */
  lemma ColorMapKeys()
    ensures forall p :: p in ColorMap <==> IsCode(p)
  {
    ColorMapShape();
    forall p | IsCode(p) ensures p in ColorMap {
      CodeColorInMap(p[1]);
      assert p == ['^', p[1]];
    }
  }

  /** The colour the code `^d` selects, read off the table by its digit. */
  function CodeColor(d: char): string
    requires IsDigit(d)
  {
    if d == '0' then White
    else if d == '1' then "#F44336"
    else if d == '2' then "#4CAF50"
    else if d == '3' then "#FFEB3B"
    else if d == '4' then "#42A5F5"
    else if d == '5' then "#03A9F4"
    else if d == '6' then "#9C27B0"
    else if d == '7' then White
    else if d == '8' then "#FF5722"
    else "#9E9E9E"
  }

  /** `CodeColor` is the table's entry for the code `^d`. */
  lemma CodeColorInMap(d: char)
    requires IsDigit(d)
    ensures ['^', d] in ColorMap && ColorMap[['^', d]] == CodeColor(d)
  {
    if d == '0' { assert ['^', d] == "^0"; }
    else if d == '1' { assert ['^', d] == "^1"; }
    else if d == '2' { assert ['^', d] == "^2"; }
    else if d == '3' { assert ['^', d] == "^3"; }
    else if d == '4' { assert ['^', d] == "^4"; }
    else if d == '5' { assert ['^', d] == "^5"; }
    else if d == '6' { assert ['^', d] == "^6"; }
    else if d == '7' { assert ['^', d] == "^7"; }
    else if d == '8' { assert ['^', d] == "^8"; }
    else { assert d == '9'; assert ['^', d] == "^9"; }
  }

  /** Every code selects a `#RRGGBB` colour, never the fallback `inherit`. */
  lemma CodeColorHex(d: char)
    requires IsDigit(d)
    ensures IsHexColor(CodeColor(d)) && CodeColor(d) != "inherit"
  {
    CodeColorInMap(d);
    ColorMapShape();
    assert CodeColor(d)[0] == '#';
  }

  /** `s.replace(/\^[0-9]/g, '')`: the text with every colour code removed. */
  function StripCodes(s: string): (r: string)
    ensures |r| <= |s|
    decreases |s|
  {
    if s == [] then []
    else if CodeAt(s, 0) then StripCodes(s[2..])
    else [s[0]] + StripCodes(s[1..])
  }

  /** The number of colour codes in `s`, matched from left to right. */
  function CodeCount(s: string): nat
    decreases |s|
  {
    if s == [] then 0
    else if CodeAt(s, 0) then 1 + CodeCount(s[2..])
    else CodeCount(s[1..])
  }

  /** Removing the codes shortens the text by exactly two characters per code. */
  lemma {:induction false} StripCodesLength(s: string)
    ensures |StripCodes(s)| + 2 * CodeCount(s) == |s|
    decreases |s|
  {
    if s != [] {
      if CodeAt(s, 0) { StripCodesLength(s[2..]); } else { StripCodesLength(s[1..]); }
    }
  }

  /** Removing the codes works part by part when the second part does not
      begin with a digit, so that no code straddles the join. */
  lemma {:induction false} StripCodesAppend(s: string, t: string)
    requires t == [] || !IsDigit(t[0])
    ensures StripCodes(s + t) == StripCodes(s) + StripCodes(t)
    decreases |s|
  {
    if s == [] {
      assert s + t == t;
    } else if CodeAt(s, 0) {
      assert CodeAt(s + t, 0);
      assert (s + t)[2..] == s[2..] + t;
      StripCodesAppend(s[2..], t);
    } else {
      assert !CodeAt(s + t, 0) by {
        if |s| == 1 { assert t == [] || !IsDigit((s + t)[1]); }
        else { assert (s + t)[1] == s[1]; }
      }
      assert (s + t)[1..] == s[1..] + t;
      StripCodesAppend(s[1..], t);
    }
  }

  /** Two texts joined by a space lose their codes separately: the space
      neither forms nor breaks a code. */
  lemma StripCodesJoin(a: string, b: string)
    ensures StripCodes(a + " " + b) == StripCodes(a) + " " + StripCodes(b)
  {
    assert a + " " + b == a + (" " + b);
    StripCodesAppend(a, " " + b);
    assert !CodeAt(" " + b, 0);
    assert (" " + b)[1..] == b;
  }

  /** A text without codes is left as it is. */
  lemma {:induction false} StripCodesNoCode(s: string)
    requires !HasCode(s)
    ensures StripCodes(s) == s
    ensures CodeCount(s) == 0
    decreases |s|
  {
    if s != [] {
      assert !CodeAt(s, 0);
      assert !HasCode(s[1..]) by {
        forall i | 0 <= i < |s[1..]| ensures !CodeAt(s[1..], i) {
          assert !CodeAt(s, i + 1);
        }
      }
      StripCodesNoCode(s[1..]);
      assert s == [s[0]] + s[1..];
    }
  }
}
