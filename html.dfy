/** Rendering a page as an HTML document: the metadata entries, one per
    line, go into the head and the body goes verbatim into the body of a
    fixed template. */
module Html {
  import opened Schema

  /** `join("\n")`: the entries with one newline between each two, none
      before the first or after the last. */
  function JoinLines(parts: seq<string>): (r: string)
    ensures |r| == TotalLength(parts) + (if parts == [] then 0 else |parts| - 1)
    ensures |parts| > 1 ==> '\n' in r
  {
    if |parts| == 0 then ""
    else if |parts| == 1 then parts[0]
    else parts[0] + "\n" + JoinLines(parts[1..])
  }

  /** The summed lengths of the entries. */
  function TotalLength(parts: seq<string>): nat
  {
    if parts == [] then 0 else |parts[0]| + TotalLength(parts[1..])
  }

  /** Cuts a string at every newline; the inverse of `JoinLines`. */
  function SplitLines(s: string): (r: seq<string>)
    ensures |r| >= 1
    ensures forall i | 0 <= i < |r| :: '\n' !in r[i]
  {
    if s == [] then [""]
    else
      var rest := SplitLines(s[1..]);
      if s[0] == '\n' then [""] + rest
      else [[s[0]] + rest[0]] + rest[1..]
  }

  /** The template text before the head slot, between the head and the body
      slots, and after the body slot. */
  const HEAD_OPEN: string := "\n    <!DOCTYPE html>\n    <html>\n        <head>\n            "
  const HEAD_TO_BODY: string := "\n        </head>\n        <body>\n            "
  const BODY_CLOSE: string := "\n        </body>\n    </html>\n    "

  /** The document `page_to_response` sends. */
  function RenderPage(page: Page): (html: string)
    ensures |html| == |HEAD_OPEN| + |JoinLines(page.metadata)| + |HEAD_TO_BODY| + |page.body| + |BODY_CLOSE|
    ensures html[..|HEAD_OPEN|] == HEAD_OPEN
    ensures html[|HEAD_OPEN|..|HEAD_OPEN| + |JoinLines(page.metadata)|] == JoinLines(page.metadata)
    ensures html[|html| - |BODY_CLOSE| - |page.body| - |HEAD_TO_BODY|..|html| - |BODY_CLOSE| - |page.body|] == HEAD_TO_BODY
    ensures html[|html| - |BODY_CLOSE| - |page.body|..|html| - |BODY_CLOSE|] == page.body
    ensures html[|html| - |BODY_CLOSE|..] == BODY_CLOSE
  {
    var metadata := JoinLines(page.metadata);
    HEAD_OPEN + metadata + HEAD_TO_BODY + page.body + BODY_CLOSE
  }

  /** The head slot of a rendered document. */
  function HeadSlot(html: string, bodyLength: nat): string
    requires |HEAD_OPEN| + |HEAD_TO_BODY| + bodyLength + |BODY_CLOSE| <= |html|
  {
    html[|HEAD_OPEN|..|html| - |BODY_CLOSE| - bodyLength - |HEAD_TO_BODY|]
  }

  /** A single entry goes in verbatim. */
  lemma JoinSingle(m: string)
    ensures JoinLines([m]) == m
  {
  }

  /** Joining one more entry in front adds it and one separator. */
  lemma JoinCons(m: string, parts: seq<string>)
    requires parts != []
    ensures JoinLines([m] + parts) == m + "\n" + JoinLines(parts)
  {
    assert ([m] + parts)[1..] == parts;
  }

  /** Prepending a character to the first line prepends it to the join. */
  lemma {:induction false} JoinPrependToFirst(c: char, lines: seq<string>)
    requires lines != []
    ensures JoinLines([[c] + lines[0]] + lines[1..]) == [c] + JoinLines(lines)
  {
    var first, tail := lines[0], lines[1..];
    assert [first] + tail == lines;
    if tail == [] {
      assert [[c] + first] + tail == [[c] + first];
    } else {
      var j := JoinLines(tail);
      JoinCons([c] + first, tail);
      JoinCons(first, tail);
      assert ([c] + first) + "\n" + j == [c] + (first + "\n" + j);
    }
  }

  /** The join starts with the first entry and ends with the last: no
      separator leads or trails. */
  lemma {:induction false} JoinBoundaries(parts: seq<string>)
    requires parts != []
    ensures |parts[0]| <= |JoinLines(parts)| && |parts[|parts| - 1]| <= |JoinLines(parts)|
    ensures JoinLines(parts)[..|parts[0]|] == parts[0]
    ensures JoinLines(parts)[|JoinLines(parts)| - |parts[|parts| - 1]|..] == parts[|parts| - 1]
  {
    if |parts| > 1 {
      JoinBoundaries(parts[1..]);
      var j := JoinLines(parts[1..]);
      assert JoinLines(parts) == parts[0] + "\n" + j;
      assert parts[1..][|parts[1..]| - 1] == parts[|parts| - 1];
    }
  }

  /** Splitting at the newlines and joining again gives back every string. */
  lemma {:induction false} JoinSplit(s: string)
    ensures JoinLines(SplitLines(s)) == s
  {
    if s != [] {
      var rest := SplitLines(s[1..]);
      JoinSplit(s[1..]);
      if s[0] == '\n' {
        JoinCons("", rest);
      } else {
        JoinPrependToFirst(s[0], rest);
      }
      assert [s[0]] + s[1..] == s;
    }
  }

  /** A string without newlines is one line. */
  lemma {:induction false} SplitSingleLine(a: string)
    requires '\n' !in a
    ensures SplitLines(a) == [a]
  {
    if a != [] {
      SplitSingleLine(a[1..]);
      assert [a[0]] + a[1..] == a;
    }
  }

  /** A line, a newline, then the rest: the line comes off first. */
  lemma {:induction false} SplitAtNewline(a: string, t: string)
    requires '\n' !in a
    ensures SplitLines(a + "\n" + t) == [a] + SplitLines(t)
  {
    if a == [] {
      assert a + "\n" + t == "\n" + t;
      assert ("\n" + t)[1..] == t;
    } else {
      var s := a + "\n" + t;
      assert s[0] == a[0];
      assert s[1..] == a[1..] + "\n" + t;
      SplitAtNewline(a[1..], t);
      assert [a[0]] + a[1..] == a;
    }
  }

  /** Joining entries that hold no newline and splitting again gives back the
      entries; the empty list comes back as one empty entry. */
  lemma {:induction false} SplitJoin(parts: seq<string>)
    requires forall i | 0 <= i < |parts| :: '\n' !in parts[i]
    ensures SplitLines(JoinLines(parts)) == if parts == [] then [""] else parts
  {
    if |parts| == 1 {
      SplitSingleLine(parts[0]);
    } else if |parts| > 1 {
      SplitJoin(parts[1..]);
      SplitAtNewline(parts[0], JoinLines(parts[1..]));
      assert [parts[0]] + parts[1..] == parts;
    }
  }

  /** Empty metadata leaves the head slot empty. */
  lemma RenderEmptyMetadata(page: Page)
    requires page.metadata == []
    ensures RenderPage(page) == HEAD_OPEN + HEAD_TO_BODY + page.body + BODY_CLOSE
  {
  }

  /** A rendered document gives back its page's body unchanged and, when no
      entry holds a newline, its metadata entries. */
  lemma RenderRecoversPage(page: Page)
    requires page.metadata != []
    requires forall i | 0 <= i < |page.metadata| :: '\n' !in page.metadata[i]
    ensures var html := RenderPage(page);
            |HEAD_OPEN| + |HEAD_TO_BODY| + |page.body| + |BODY_CLOSE| <= |html| &&
            SplitLines(HeadSlot(html, |page.body|)) == page.metadata &&
            html[|html| - |BODY_CLOSE| - |page.body|..|html| - |BODY_CLOSE|] == page.body
  {
    var html := RenderPage(page);
    assert HeadSlot(html, |page.body|) == JoinLines(page.metadata);
    SplitJoin(page.metadata);
  }
}
