/** `_build_quote` of roles/k8s_infra/files/hermes_email_gateway_patched.py: the `> ` block
    appended under a reply, and its length budget. */
module QuoteBlock {
  import opened PyText

  const QUOTE_TRUNCATED := "> [...]"

  // ---- lines ---------------------------------------------------------------------------

  /** `body.replace("\r\n", "\n").replace("\r", "\n").split("\n")` */
  function SplitLines(body: string): (r: seq<string>)
    ensures |r| >= 1
  {
    if body == "" then [""]
    else if body[0] == '\r' && |body| > 1 && body[1] == '\n' then [""] + SplitLines(body[2..])
    else if body[0] in "\r\n" then [""] + SplitLines(body[1..])
    else
      var rest := SplitLines(body[1..]);
      [[body[0]] + rest[0]] + rest[1..]
  }

  function StripEach(lines: seq<string>): seq<string> {
    if lines == [] then [] else [RStrip(lines[0])] + StripEach(lines[1..])
  }

  function DropBlankEnd(lines: seq<string>): seq<string> {
    if lines != [] && lines[|lines| - 1] == "" then DropBlankEnd(lines[..|lines| - 1]) else lines
  }

  function DropBlankStart(lines: seq<string>): seq<string> {
    if lines != [] && lines[0] == "" then DropBlankStart(lines[1..]) else lines
  }

  /** The lines that are quoted. */
  function BodyLines(body: string): seq<string> {
    DropBlankStart(DropBlankEnd(StripEach(SplitLines(body))))
  }

  function QuoteLine(line: string): (q: string)
    ensures |q| >= 1 && q[0] == '>'
  {
    if line != "" && line[0] == '>' then ">" + line
    else if line != "" then "> " + line
    else ">"
  }

  function QuoteLines(lines: seq<string>): (r: seq<string>)
    ensures |r| == |lines|
  {
    if lines == [] then [] else [QuoteLine(lines[0])] + QuoteLines(lines[1..])
  }

  /** `"\n".join(lines)` */
  function JoinLines(lines: seq<string>): string {
    if lines == [] then ""
    else if |lines| == 1 then lines[0]
    else lines[0] + "\n" + JoinLines(lines[1..])
  }

  /** Length of the lines with a newline each. */
  function Size(lines: seq<string>): nat {
    if lines == [] then 0 else Size(lines[..|lines| - 1]) + |lines[|lines| - 1]| + 1
  }

  // ---- the block -----------------------------------------------------------------------

  /** How many whole lines fit beside the truncation mark: the largest such prefix. */
  ghost predicate IsCut(quoted: seq<string>, maxChars: int, k: nat) {
    && k <= |quoted|
    && (k > 0 ==> |QUOTE_TRUNCATED| + Size(quoted[..k]) <= maxChars)
    && (k < |quoted| ==> |QUOTE_TRUNCATED| + Size(quoted[..k + 1]) > maxChars)
  }

  /** The quoted text for a budget; empty if there is nothing to quote or nothing fits. */
  ghost predicate IsQuotedText(body: string, maxChars: int, text: string) {
    var quoted := QuoteLines(BodyLines(body));
    if quoted == [] || maxChars <= 0 then text == ""
    else if |JoinLines(quoted)| <= maxChars then text == JoinLines(quoted)
    else exists k: nat :: IsCut(quoted, maxChars, k)
                     && text == if k == 0 then "" else JoinLines(quoted[..k] + [QUOTE_TRUNCATED])
  }

  /** Header and quoted text. The header is formatted from date, name and address only. */
  function Block(header: string, text: string): string {
    if text == "" then "" else "\n\n" + header + "\n" + text
  }

  /** The block for a body, a header and a budget. */
  ghost predicate IsQuote(body: string, header: string, maxChars: int, block: string) {
    exists text :: IsQuotedText(body, maxChars, text) && block == Block(header, text)
  }

  method BuildQuote(originalBody: string, header: string, maxChars: int) returns (block: string, ghost text: string)
    ensures IsQuote(originalBody, header, maxChars, block)
    ensures IsQuotedText(originalBody, maxChars, text) && block == Block(header, text)
  {
    var lines := BodyLines(originalBody);
    if lines == [] || maxChars <= 0 {
      assert IsQuotedText(originalBody, maxChars, "");
      return "", "";
    }
    var quoted := QuoteLines(lines);
    JoinNonEmpty(quoted);
    if |JoinLines(quoted)| <= maxChars {
      assert IsQuotedText(originalBody, maxChars, JoinLines(quoted));
      return "\n\n" + header + "\n" + JoinLines(quoted), JoinLines(quoted);
    }
    var kept: seq<string> := [];
    var used := |QUOTE_TRUNCATED|;
    var i := 0;
    var going := true;
    hide Size, BodyLines, QuoteLines, JoinLines;
    SizeStart(quoted);
    while going && i < |quoted|
      invariant 0 <= i <= |quoted| && kept == quoted[..i] && used == |QUOTE_TRUNCATED| + Size(quoted[..i])
      invariant i > 0 ==> used <= maxChars
      invariant !going ==> IsCut(quoted, maxChars, i)
      decreases |quoted| - i, going
    {
      SizeSnoc(quoted, i);
      if used + |quoted[i]| + 1 > maxChars {
        going := false;
      } else {
        assert quoted[..i + 1] == quoted[..i] + [quoted[i]];
        kept := kept + [quoted[i]];
        used := used + |quoted[i]| + 1;
        i := i + 1;
      }
    }
    assert IsCut(quoted, maxChars, i);
    if kept == [] {
      assert IsQuotedText(originalBody, maxChars, "");
      return "", "";
    }
    assert IsQuotedText(originalBody, maxChars, JoinLines(kept + [QUOTE_TRUNCATED]));
    JoinNonEmpty(kept + [QUOTE_TRUNCATED]);
    return "\n\n" + header + "\n" + JoinLines(kept + [QUOTE_TRUNCATED]), JoinLines(kept + [QUOTE_TRUNCATED]);
  }

  lemma SizeStart(quoted: seq<string>)
    ensures Size(quoted[..0]) == 0
  {
  }

  lemma SizeSnoc(quoted: seq<string>, i: nat)
    requires i < |quoted|
    ensures Size(quoted[..i + 1]) == Size(quoted[..i]) + |quoted[i]| + 1
  {
    assert quoted[..i + 1][..i] == quoted[..i];
  }

  lemma JoinNonEmpty(lines: seq<string>)
    ensures lines != [] && |lines[0]| > 0 ==> JoinLines(lines) != ""
  {
  }

  // ---- the budget ----------------------------------------------------------------------

  lemma {:induction false} JoinSize(lines: seq<string>, last: string)
    ensures |JoinLines(lines + [last])| == Size(lines) + |last|
  {
    if lines == [] {
      assert lines + [last] == [last];
    } else {
      assert (lines + [last])[1..] == lines[1..] + [last];
      JoinSize(lines[1..], last);
      SizeCons(lines);
    }
  }

  lemma {:induction false} SizeCons(lines: seq<string>)
    requires lines != []
    ensures Size(lines) == |lines[0]| + 1 + Size(lines[1..])
    decreases |lines|
  {
    if |lines| == 1 {
      assert lines[..0] == [] == lines[1..];
    } else {
      SizeCons(lines[..|lines| - 1]);
      assert lines[..|lines| - 1][1..] == lines[1..][..|lines| - 2];
      SizeSnoc(lines[1..], |lines| - 2);
      assert lines[1..][..|lines| - 1] == lines[1..];
    }
  }

  lemma {:induction false} SizeMonotone(lines: seq<string>, i: nat, j: nat)
    requires i <= j <= |lines|
    ensures Size(lines[..i]) <= Size(lines[..j])
    decreases j - i
  {
    if i < j {
      SizeSnoc(lines, j - 1);
      SizeMonotone(lines, i, j - 1);
    }
  }

  /** The quoted text stays within its budget, and a text that was cut lost a line. */
  lemma WithinBudget(body: string, maxChars: int, text: string)
    requires IsQuotedText(body, maxChars, text)
    ensures text != "" ==> |text| <= maxChars
    ensures text != "" && text != JoinLines(QuoteLines(BodyLines(body))) ==>
              exists k: nat :: 0 < k < |BodyLines(body)|
                               && text == JoinLines(QuoteLines(BodyLines(body))[..k] + [QUOTE_TRUNCATED])
  {
    hide BodyLines, QuoteLines, JoinLines, Size;
    var quoted := QuoteLines(BodyLines(body));
    if quoted != [] && maxChars > 0 && |JoinLines(quoted)| > maxChars && text != "" {
      var k: nat :| IsCut(quoted, maxChars, k)
                    && text == if k == 0 then "" else JoinLines(quoted[..k] + [QUOTE_TRUNCATED]);
      JoinSize(quoted[..k], QUOTE_TRUNCATED);
      // All lines cannot have been kept: joined, they are shorter than that.
      var n := |quoted| - 1;
      assert quoted == quoted[..n] + [quoted[n]] && quoted[..n + 1] == quoted;
      JoinSize(quoted[..n], quoted[n]);
      SizeSnoc(quoted, n);
    }
  }

  /** The declarative reading leaves no choice. */
  lemma QuotedTextIsUnique(body: string, maxChars: int, a: string, b: string)
    requires IsQuotedText(body, maxChars, a) && IsQuotedText(body, maxChars, b)
    ensures a == b
  {
    hide BodyLines, QuoteLines, JoinLines, Size;
    var quoted := QuoteLines(BodyLines(body));
    if quoted != [] && maxChars > 0 && |JoinLines(quoted)| > maxChars {
      var i: nat :| IsCut(quoted, maxChars, i)
                    && a == if i == 0 then "" else JoinLines(quoted[..i] + [QUOTE_TRUNCATED]);
      var j: nat :| IsCut(quoted, maxChars, j)
                    && b == if j == 0 then "" else JoinLines(quoted[..j] + [QUOTE_TRUNCATED]);
      if i < j { SizeMonotone(quoted, i + 1, j); }
      if j < i { SizeMonotone(quoted, j + 1, i); }
    }
  }

  // ---- reading a quote back ------------------------------------------------------------

  ghost predicate OneLineEach(lines: seq<string>) {
    forall i :: 0 <= i < |lines| ==> OneLine(lines[i])
  }

  /** What a reader does who takes one quote level off a line. */
  function Unquote(q: string): string {
    if |q| >= 2 && q[0] == '>' && q[1] == ' ' then q[2..]
    else if q != "" && q[0] == '>' then q[1..]
    else q
  }

  function UnquoteLines(lines: seq<string>): (r: seq<string>)
    ensures |r| == |lines|
  {
    if lines == [] then [] else [Unquote(lines[0])] + UnquoteLines(lines[1..])
  }

  lemma {:induction false} UnquoteQuote(lines: seq<string>)
    ensures UnquoteLines(QuoteLines(lines)) == lines
  {
    if lines != [] {
      var q := QuoteLine(lines[0]);
      assert Unquote(q) == lines[0] by {
        if lines[0] != "" && lines[0][0] == '>' { assert q[1] == '>'; }
      }
      UnquoteQuote(lines[1..]);
    }
  }

  lemma {:induction false} SplitLinesAreLines(body: string)
    ensures OneLineEach(SplitLines(body))
    decreases |body|
  {
    if body != "" {
      if body[0] == '\r' && |body| > 1 && body[1] == '\n' {
        SplitLinesAreLines(body[2..]);
      } else {
        SplitLinesAreLines(body[1..]);
      }
    }
  }

  lemma {:induction false} BodyLinesAreLines(lines: seq<string>)
    requires OneLineEach(lines)
    ensures OneLineEach(StripEach(lines)) && OneLineEach(QuoteLines(lines))
  {
    if lines != [] {
      BodyLinesAreLines(lines[1..]);
      assert RStrip(lines[0]) <= lines[0];
    }
  }

  lemma {:induction false} DropsKeepLines(lines: seq<string>)
    requires OneLineEach(lines)
    ensures OneLineEach(DropBlankEnd(lines)) && OneLineEach(DropBlankStart(lines))
    decreases |lines|
  {
    if lines != [] {
      DropsKeepLines(lines[1..]);
      DropsKeepLines(lines[..|lines| - 1]);
    }
  }

  /** Joining lines and splitting again is the identity. */
  lemma {:induction false} SplitJoin(lines: seq<string>)
    requires lines != [] && OneLineEach(lines)
    ensures SplitLines(JoinLines(lines)) == lines
    decreases |lines|
  {
    if |lines| == 1 {
      SplitOne(lines[0], "");
      assert lines[0] + "" == lines[0];
    } else {
      SplitJoin(lines[1..]);
      SplitOne(lines[0], "\n" + JoinLines(lines[1..]));
      assert ("\n" + JoinLines(lines[1..]))[1..] == JoinLines(lines[1..]);
      assert SplitLines("\n" + JoinLines(lines[1..])) == [""] + lines[1..];
      assert lines[0] + "" == lines[0] && ([""] + lines[1..])[1..] == lines[1..];
      assert JoinLines(lines) == lines[0] + ("\n" + JoinLines(lines[1..]));
    }
  }

  lemma {:induction false} SplitOne(line: string, rest: string)
    requires OneLine(line)
    ensures var r := SplitLines(rest); SplitLines(line + rest) == [line + r[0]] + r[1..]
  {
    var r := SplitLines(rest);
    if line == "" {
      assert line + rest == rest && "" + r[0] == r[0];
    } else {
      assert (line + rest)[1..] == line[1..] + rest;
      SplitOne(line[1..], rest);
      assert [line[0]] + (line[1..] + r[0]) == line + r[0];
    }
  }

  /** Nothing is garbled: taking one quote level off gives the body's lines back, or, when
      the quote was cut, a proper prefix of them and the truncation mark. */
  lemma QuoteReadsBack(body: string, maxChars: int, text: string)
    requires IsQuotedText(body, maxChars, text) && text != ""
    ensures var lines := BodyLines(body);
            var seen := UnquoteLines(SplitLines(text));
            || seen == lines
            || exists k: nat :: 0 < k < |lines| && seen == lines[..k] + ["[...]"]
  {
    hide BodyLines, QuoteLines, JoinLines, Size, SplitLines, UnquoteLines;
    var lines := BodyLines(body);
    var quoted := QuoteLines(lines);
    assert OneLineEach(quoted) by { QuotedAreLines(body); }
    WithinBudget(body, maxChars, text);
    if text == JoinLines(quoted) && quoted != [] {
      SplitJoin(quoted);
      UnquoteQuote(lines);
    } else {
      var k: nat :| 0 < k < |lines| && text == JoinLines(quoted[..k] + [QUOTE_TRUNCATED]);
      SplitJoin(quoted[..k] + [QUOTE_TRUNCATED]);
      UnquoteCut(lines, k);
      assert UnquoteLines(SplitLines(text)) == lines[..k] + ["[...]"];
    }
  }

  lemma QuotedAreLines(body: string)
    ensures OneLineEach(QuoteLines(BodyLines(body)))
  {
    SplitLinesAreLines(body);
    var split := SplitLines(body);
    BodyLinesAreLines(split);
    DropsKeepLines(StripEach(split));
    DropsKeepLines(DropBlankEnd(StripEach(split)));
    BodyLinesAreLines(BodyLines(body));
  }

  lemma {:induction false} UnquoteCut(lines: seq<string>, k: nat)
    requires k <= |lines|
    ensures UnquoteLines(QuoteLines(lines)[..k] + [QUOTE_TRUNCATED]) == lines[..k] + ["[...]"]
  {
    var q := QuoteLines(lines)[..k] + [QUOTE_TRUNCATED];
    if k == 0 {
      assert q == [QUOTE_TRUNCATED] && q[1..] == [];
    } else {
      UnquoteCut(lines[1..], k - 1);
      UnquoteQuote([lines[0]]);
      assert q[1..] == QuoteLines(lines[1..])[..k - 1] + [QUOTE_TRUNCATED];
      assert QuoteLines([lines[0]]) == [q[0]];
      assert lines[..k] == [lines[0]] + lines[1..][..k - 1];
    }
  }
}
