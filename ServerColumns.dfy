/**
 * Two cells of the server table in src/components/list/servers/columns.tsx:
 * the project name, whose colour codes are rewritten into opening `<span>`
 * tags with one closing tag appended, and the country, shown as `us` when
 * the row has none.
 */
module ServerColumns {
  import opened Wrappers
  import opened Strings
  import opened ColorCodes
  import opened Seqs
  import ServerListItem

  /** `colorMap[key] || "inherit"`. */
  function ColorOrInherit(key: string): string {
    if key in ColorMap && ColorMap[key] != "" then ColorMap[key] else "inherit"
  }

  /** The replacement of the code `^d`. */
  function OpenTag(d: char): string {
    "<" + TagHead + ColorOrInherit(['^', d]) + TagTail
  }

  /** The opening tag after its `<`, up to the colour, and after the colour. */
  const TagHead := "span style='color: "
  const TagTail := "'>"

  const CloseTag := "</span>"

  /** `s.replace(/\^(\d)/g, (_, code) => replace(code))`: every code, matched
      from left to right, becomes what the callback makes of its digit. */
  function ReplaceCodes(s: string, replace: char -> string): string
    decreases |s|
  {
    if s == [] then []
    else if CodeAt(s, 0) then replace(s[1]) + ReplaceCodes(s[2..], replace)
    else [s[0]] + ReplaceCodes(s[1..], replace)
  }

  /** The HTML of the project-name cell. */
  function FormatProjectName(name: string): string {
    ReplaceCodes(name, OpenTag) + CloseTag
  }

  /** Every code is mapped, so a code never falls back to `inherit`. */
  lemma OpenTagColor(d: char)
    requires IsDigit(d)
    ensures OpenTag(d) == "<span style='color: " + CodeColor(d) + "'>"
  {
    CodeColorInMap(d);
    CodeColorHex(d);
    assert "<" + TagHead == "<span style='color: ";
  }

  /** The number of occurrences of `c` in `s`. */
  function Occurrences(s: string, c: char): nat
    decreases |s|
  {
    if s == [] then 0 else (if s[0] == c then 1 else 0) + Occurrences(s[1..], c)
  }

  lemma {:induction false} OccurrencesAppend(a: string, b: string, c: char)
    ensures Occurrences(a + b, c) == Occurrences(a, c) + Occurrences(b, c)
    decreases |a|
  {
    if a == [] {
      assert a + b == b;
    } else {
      assert (a + b)[0] == a[0] && (a + b)[1..] == a[1..] + b;
      OccurrencesAppend(a[1..], b, c);
    }
  }

  lemma {:induction false} OccurrencesNone(s: string, c: char)
    requires forall i | 0 <= i < |s| :: s[i] != c
    ensures Occurrences(s, c) == 0
    decreases |s|
  {
    if s != [] {
      assert forall i | 0 <= i < |s[1..]| :: s[1..][i] == s[i + 1];
      OccurrencesNone(s[1..], c);
    }
  }

  /** Text with neither `<` nor `/`: it opens and closes no tag. */
  predicate Plain(s: string) {
    forall i | 0 <= i < |s| :: s[i] != '<' && s[i] != '/'
  }

  lemma PlainCounts(s: string)
    requires Plain(s)
    ensures Occurrences(s, '<') == 0 && Occurrences(s, '/') == 0
  {
    OccurrencesNone(s, '<');
    OccurrencesNone(s, '/');
  }

  lemma PlainPieces(color: string)
    requires IsHexColor(color)
    ensures Plain(TagHead) && Plain(TagTail) && Plain(color)
  {
  }

  /** `<` followed by plain pieces holds one `<` and no `/`. */
  lemma TagCounts(head: string, color: string, tail: string)
    requires Plain(head) && Plain(color) && Plain(tail)
    ensures Occurrences("<" + head + color + tail, '<') == 1
    ensures Occurrences("<" + head + color + tail, '/') == 0
  {
    var rest := head + (color + tail);
    PlainConcat(color, tail);
    PlainConcat(head, color + tail);
    PlainCounts(rest);
    var whole := "<" + head + color + tail;
    assert whole == ['<'] + rest;
    assert whole[0] == '<' && whole[1..] == rest;
  }

  lemma PlainConcat(a: string, b: string)
    requires Plain(a) && Plain(b)
    ensures Plain(a + b)
  {
  }

  /** An opening tag holds one `<` and no `/`. */
  lemma OpenTagCounts(d: char)
    requires IsDigit(d)
    ensures Occurrences(OpenTag(d), '<') == 1
    ensures Occurrences(OpenTag(d), '/') == 0
  {
    var color := CodeColor(d);
    assert ColorOrInherit(['^', d]) == color by {
      CodeColorInMap(d);
      CodeColorHex(d);
    }
    PlainPieces(color);
    TagCounts(TagHead, color, TagTail);
  }

  /** One opening tag per code of the name and exactly one closing tag,
      whatever the number of codes: the cell holds one `<` more than the name
      for each code plus one, and one more `/`. */
  lemma {:induction false} FormatTagCounts(name: string)
    ensures Occurrences(FormatProjectName(name), '<') == Occurrences(name, '<') + CodeCount(name) + 1
    ensures Occurrences(FormatProjectName(name), '/') == Occurrences(name, '/') + 1
  {
    ReplaceCodesCounts(name);
    OccurrencesAppend(ReplaceCodes(name, OpenTag), CloseTag, '<');
    OccurrencesAppend(ReplaceCodes(name, OpenTag), CloseTag, '/');
    assert CloseTag == "<" + ("/" + "span>");
    OccurrencesNone("span>", '<'); OccurrencesNone("span>", '/');
    OccurrencesAppend("/", "span>", '<'); OccurrencesAppend("/", "span>", '/');
    OccurrencesAppend("<", "/" + "span>", '<'); OccurrencesAppend("<", "/" + "span>", '/');
  }

  lemma {:induction false} ReplaceCodesCounts(s: string)
    ensures Occurrences(ReplaceCodes(s, OpenTag), '<') == Occurrences(s, '<') + CodeCount(s)
    ensures Occurrences(ReplaceCodes(s, OpenTag), '/') == Occurrences(s, '/')
    decreases |s|
  {
    if s != [] {
      if CodeAt(s, 0) {
        ReplaceCodesCounts(s[2..]);
        OpenTagCounts(s[1]);
        OccurrencesAppend(OpenTag(s[1]), ReplaceCodes(s[2..], OpenTag), '<');
        OccurrencesAppend(OpenTag(s[1]), ReplaceCodes(s[2..], OpenTag), '/');
        assert s == [s[0], s[1]] + s[2..];
        OccurrencesAppend([s[0], s[1]], s[2..], '<');
        OccurrencesAppend([s[0], s[1]], s[2..], '/');
        assert Occurrences([s[0], s[1]], '<') == 0 && Occurrences([s[0], s[1]], '/') == 0 by {
          OccurrencesNone([s[0], s[1]], '<');
          OccurrencesNone([s[0], s[1]], '/');
        }
      } else {
        ReplaceCodesCounts(s[1..]);
        OccurrencesAppend([s[0]], ReplaceCodes(s[1..], OpenTag), '<');
        OccurrencesAppend([s[0]], ReplaceCodes(s[1..], OpenTag), '/');
      }
    }
  }

  /** The replacement done part by part: each code of `SplitParts` becomes
      what the callback makes of it and every run of text, including a `^`
      that no digit follows, is copied unchanged and in order. */
  function RenderParts(parts: seq<string>, replace: char -> string): string
    decreases |parts|
  {
    if parts == [] then []
    else (if IsCode(parts[0]) then replace(parts[0][1]) else parts[0]) + RenderParts(parts[1..], replace)
  }

  lemma {:induction false} ReplaceCodesByParts(s: string, replace: char -> string)
    ensures ReplaceCodes(s, replace) == RenderParts(ServerListItem.SplitParts(s), replace)
    decreases |s|
  {
    if s != [] {
      if CodeAt(s, 0) {
        ReplaceCodesByParts(s[2..], replace);
        ServerListItem.SplitPartsCode(s);
      } else {
        ReplaceCodesByParts(s[1..], replace);
        RenderText(s, replace);
      }
    }
  }

  /** The step of `ReplaceCodesByParts` for text at the front. */
  lemma RenderText(s: string, replace: char -> string)
    requires s != [] && !CodeAt(s, 0)
    requires ReplaceCodes(s[1..], replace) == RenderParts(ServerListItem.SplitParts(s[1..]), replace)
    ensures ReplaceCodes(s, replace) == RenderParts(ServerListItem.SplitParts(s), replace)
  {
    var rest := ServerListItem.SplitParts(s[1..]);
    if rest != [] && !IsCode(rest[0]) {
      ServerListItem.SplitPartsMerge(s);
      RenderMerge(s[0], rest, replace);
    } else {
      ServerListItem.SplitPartsAlone(s);
    }
  }

  /** A character joined to a leading run of text is copied before it. */
  lemma RenderMerge(c: char, rest: seq<string>, replace: char -> string)
    requires rest != [] && !IsCode(rest[0]) && !IsCode([c] + rest[0])
    ensures RenderParts([[c] + rest[0]] + rest[1..], replace) == [c] + RenderParts(rest, replace)
  {
    var parts := [[c] + rest[0]] + rest[1..];
    var tail := RenderParts(rest[1..], replace);
    assert parts[0] == [c] + rest[0] && parts[1..] == rest[1..];
    assert RenderParts(parts, replace) == ([c] + rest[0]) + tail;
    assert RenderParts(rest, replace) == rest[0] + tail;
    AppendAssoc([c], rest[0], tail);
  }

  /** The project-name cell is the rendered parts followed by one closing tag. */
  lemma FormatProjectNameByParts(name: string)
    ensures FormatProjectName(name) == RenderParts(ServerListItem.SplitParts(name), OpenTag) + CloseTag
  {
    ReplaceCodesByParts(name, OpenTag);
  }

  /** A name without codes is shown as it is, followed by the closing tag. */
  lemma {:induction false} FormatWithoutCodes(name: string)
    requires !HasCode(name)
    ensures FormatProjectName(name) == name + CloseTag
  {
    ReplaceCodesNoCode(name, OpenTag);
  }

  /** Text without codes has nothing to replace. */
  lemma {:induction false} ReplaceCodesNoCode(s: string, replace: char -> string)
    requires !HasCode(s)
    ensures ReplaceCodes(s, replace) == s
    decreases |s|
  {
    if s != [] {
      assert !CodeAt(s, 0);
      assert !HasCode(s[1..]) by {
        forall i | 0 <= i < |s[1..]| ensures !CodeAt(s[1..], i) {
          assert !CodeAt(s, i + 1);
        }
      }
      ReplaceCodesNoCode(s[1..], replace);
      assert s == [s[0]] + s[1..];
    }
  }

  /** `row.original.localeCountry || "us"`. */
  function DisplayCountry(localeCountry: Option<string>): (shown: string)
    ensures shown != ""
    ensures localeCountry.Some? && localeCountry.value != "" ==> shown == localeCountry.value
    ensures localeCountry.None? || localeCountry.value == "" ==> shown == "us"
  {
    match localeCountry
    case Some(c) => if c != "" then c else "us"
    case None => "us"
  }
}
