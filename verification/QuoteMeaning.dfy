/** Which mail a reply quotes, and with which lines: the claims of
    roles/k8s_infra/files/hermes_email_gateway_patched.py in terms of the mails that were
    remembered and the characters that are sent. */
module QuoteMeaning {
  import opened Options
  import opened PyText
  import opened QuoteBlock
  import opened QuoteLedger

  // ---- the mail that is replied to -----------------------------------------------------

  /** The reply is to this Message-ID: an explicit one goes before the thread's. */
  predicate RepliesTo(send: Send, id: string) {
    (send.replyTo != "" && id == Strip(send.replyTo)) || (send.replyTo == "" && id == Strip(send.contextId))
  }

  /** Record `r` is of the mail with this Message-ID or, if none is known, of the sender's last
      mail. The sender's last mail also serves when the other lookup has lost the Message-ID. */
  ghost predicate Wanted(l: Ledger, send: Send, id: string, r: nat)
    requires WfReferences(l)
  {
    if id == "" then Entry(send.to, r) in l.bySender
    else
      || Entry(id, r) in l.byMessageId
      || ((forall e :: e in l.byMessageId ==> e.key != id)
          && Entry(send.to, r) in l.bySender && l.records[r].messageId == id)
  }

  /** The lookups find exactly the wanted record. */
  lemma LookupFindsWanted(l: Ledger, send: Send, id: string, r: nat)
    requires Consistent(l) && WfReferences(l) && RepliesTo(send, id)
    ensures Lookup(l, send) == Some(r) <==> Wanted(l, send, id, r)
  {
    hide Strip;
    if Entry(id, r) in l.byMessageId { GetFinds(l.byMessageId, Entry(id, r)); }
    if Entry(send.to, r) in l.bySender { GetFinds(l.bySender, Entry(send.to, r)); }
    hide Get;
  }

  /** A claimed record has the Message-ID that is replied to, whatever else is known; without
      one it is of the recipient's last mail. */
  lemma ClaimsTheRightMail(
    l: Ledger, cfg: Config, send: Send, l': Ledger, text: string, claim: Option<nat>)
    requires Consistent(l) && WfReferences(l) && Claimed(l, cfg, send, l', text, claim) && claim.Some?
    ensures claim.value < |l.records| && l.records[claim.value].address == send.to
    ensures send.replyTo != "" && Strip(send.replyTo) != "" ==>
              l.records[claim.value].messageId == Strip(send.replyTo)
    ensures send.replyTo == "" && Strip(send.contextId) != "" ==>
              l.records[claim.value].messageId == Strip(send.contextId)
    ensures RepliesTo(send, "") ==> Entry(send.to, claim.value) in l.bySender
  {
    var id := Strip(if send.replyTo != "" then send.replyTo else send.contextId);
    assert Quotable(l, cfg, send) && claim == Lookup(l, send) by { hide Strip, Lookup; }
    hide Strip, Claimed, Quotable, Lookup;
    LookupFindsWanted(l, send, id, claim.value);
    assert l.records[claim.value].address == send.to by { ClaimIsRight(l, cfg, send, l', text, claim); }
  }

  /** `record` is free, of the recipient, and some of its lines fit beside the reply. */
  ghost predicate CanBeQuoted(cfg: Config, send: Send, record: Record) {
    && record.address == send.to && record.state == Free
    && SomethingFits(record.body, cfg.quoteMaxChars, MAX_MESSAGE_LENGTH - |send.body| - |record.header| - 3)
  }

  /** The whole quote, or its first line and the truncation mark, is within both limits. */
  predicate SomethingFits(body: string, limit: int, room: int) {
    var quoted := QuoteLines(BodyLines(body));
    && quoted != []
    && ((0 < |JoinLines(quoted)| <= limit && |JoinLines(quoted)| <= room)
        || (|quoted[0]| + |"> [...]"| + 1 <= limit && |quoted[0]| + |"> [...]"| + 1 <= room))
  }

  lemma JoinAtLeastHead(lines: seq<string>)
    requires lines != []
    ensures |JoinLines(lines)| >= |lines[0]|
  {
  }

  lemma FitsIff(body: string, budget: int, text: string)
    requires IsQuotedText(body, budget, text)
    ensures text != "" <==> SomethingFits(body, budget, budget)
  {
    var quoted := QuoteLines(BodyLines(body));
    if quoted != [] {
      JoinAtLeastHead(quoted);
      SizeSnoc(quoted, 0);
      SizeStart(quoted);
      if budget > 0 && |JoinLines(quoted)| > budget {
        var k: nat :| IsCut(quoted, budget, k)
                      && text == if k == 0 then "" else JoinLines(quoted[..k] + [QUOTE_TRUNCATED]);
        if k > 0 {
          SizeMonotone(quoted, 1, k);
          JoinAtLeastHead(quoted[..k] + [QUOTE_TRUNCATED]);
        }
      }
    }
  }

  lemma BudgetIs(cfg: Config, body: string, header: string)
    ensures var room := MAX_MESSAGE_LENGTH - |body| - |header| - 3;
            Budget(cfg, body, header) == if cfg.quoteMaxChars <= room then cfg.quoteMaxChars else room
  {
  }

  lemma FitsWithin(body: string, limit: int, room: int)
    ensures SomethingFits(body, if limit <= room then limit else room, if limit <= room then limit else room)
       <==> SomethingFits(body, limit, room)
  {
    hide BodyLines, QuoteLines, JoinLines;
  }

  lemma ClaimedWhen(l: Ledger, cfg: Config, send: Send, l': Ledger, text: string, claim: Option<nat>, r: nat)
    requires WfReferences(l) && Claimed(l, cfg, send, l', text, claim)
    ensures claim == Some(r) <==>
            && cfg.quoteOriginal && send.final && Lookup(l, send) == Some(r)
            && r < |l.records| && CanBeQuoted(cfg, send, l.records[r])
  {
    hide Lookup, SomethingFits, IsQuotedText, Budget;
    if Quotable(l, cfg, send) {
      var record := l.records[Lookup(l, send).value];
      var budget := Budget(cfg, send.body, record.header);
      var quoted :| IsQuotedText(record.body, budget, quoted)
                    && if quoted == "" then claim == None else claim == Lookup(l, send);
      FitsIff(record.body, budget, quoted);
      BudgetIs(cfg, send.body, record.header);
      FitsWithin(record.body, cfg.quoteMaxChars, MAX_MESSAGE_LENGTH - |send.body| - |record.header| - 3);
    }
  }

  /** Exactly when a send gets a claim, and on which record. */
  lemma ClaimIff(l: Ledger, cfg: Config, send: Send, l': Ledger, text: string, claim: Option<nat>, id: string, r: nat)
    requires Consistent(l) && WfReferences(l) && Claimed(l, cfg, send, l', text, claim) && RepliesTo(send, id)
    ensures claim == Some(r) <==>
            && cfg.quoteOriginal && send.final && Wanted(l, send, id, r)
            && r < |l.records| && CanBeQuoted(cfg, send, l.records[r])
  {
    hide *;
    LookupFindsWanted(l, send, id, r);
    ClaimedWhen(l, cfg, send, l', text, claim, r);
  }

  /** What is sent: the reply, a blank line, the header, and the quoted lines; without a reply
      no line breaks come first. */
  lemma ClaimedText(l: Ledger, cfg: Config, send: Send, l': Ledger, text: string, claim: Option<nat>)
    requires WfReferences(l) && Claimed(l, cfg, send, l', text, claim) && claim.Some?
    ensures var record := l.records[claim.value];
            exists quoted ::
              && quoted != ""
              && IsQuotedText(record.body, Budget(cfg, send.body, record.header), quoted)
              && SentAs(send.body, record.header, quoted, text)
  {
    hide Lookup, IsQuotedText, Budget, SentAs, WithQuote;
    var record := l.records[claim.value];
    var quoted :| IsQuotedText(record.body, Budget(cfg, send.body, record.header), quoted) && quoted != ""
                  && text == WithQuote(send.body, Block(record.header, quoted));
    QuoteIsSent(send.body, record.header, quoted);
  }

  ghost predicate SentAs(body: string, header: string, quoted: string, text: string) {
    var block := header + "\n" + quoted;
    if body != "" then text == body + "\n\n" + block
    else exists breaks :: OnlyBreaks(breaks) && block == breaks + text && (text == "" || text[0] != '\n')
  }

  lemma QuoteIsSent(body: string, header: string, quoted: string)
    requires quoted != ""
    ensures SentAs(body, header, quoted, WithQuote(body, Block(header, quoted)))
  {
    var block := header + "\n" + quoted;
    assert Block(header, quoted) == "\n\n" + block;
    assert body + ("\n\n" + block) == body + "\n\n" + block;
    if body == "" {
      LStripTwo(block);
      LStripParts(block);
    }
  }

  predicate OnlyBreaks(s: string) { forall i :: 0 <= i < |s| ==> s[i] == '\n' }

  lemma LStripTwo(s: string)
    ensures LStripNewlines("\n\n" + s) == LStripNewlines(s)
  {
    assert ("\n\n" + s)[1..] == "\n" + s && ("\n" + s)[1..] == s;
  }

  lemma {:induction false} LStripParts(s: string)
    ensures exists breaks :: OnlyBreaks(breaks) && s == breaks + LStripNewlines(s)
    ensures LStripNewlines(s) == "" || LStripNewlines(s)[0] != '\n'
  {
    if s != "" && s[0] == '\n' {
      LStripParts(s[1..]);
      var breaks :| OnlyBreaks(breaks) && s[1..] == breaks + LStripNewlines(s[1..]);
      assert OnlyBreaks("\n" + breaks) && s == "\n" + breaks + LStripNewlines(s);
    } else {
      assert OnlyBreaks("") && s == "" + LStripNewlines(s);
    }
  }

  // ---- remembering and forgetting ------------------------------------------------------

  /** A mail that was just remembered is the one a reply to it wants, by its Message-ID or, if
      none is known, as the sender's last; its record holds the mail and is free. */
  lemma RememberedIsWanted(l: Ledger, mail: Mail, send: Send, id: string)
    requires Consistent(l) && RepliesTo(send, id) && send.to == mail.sender
    requires id == "" || id == Strip(mail.messageId)
    ensures var l' := Remembered(l, mail);
            && WfReferences(l') && |l'.records| == |l.records| + 1
            && Wanted(l', send, id, |l.records|) && Lookup(l', send) == Some(|l.records|)
            && l'.records[|l.records|] == Record(Strip(mail.messageId), mail.body, mail.header, mail.sender, Free)
            && forall r :: 0 <= r < |l.records| ==> l'.records[r] == l.records[r]
  {
    RememberIsConsistent(l, mail);
    ConsistentReferences(Remembered(l, mail));
    PutIsAnUpdate(l.byMessageId, Strip(mail.messageId), |l.records|);
    PutIsAnUpdate(l.bySender, mail.sender, |l.records|);
    hide Put, Strip, Lookup, WfDict, WfReferences, Truthful, Distinct;
    assert Wanted(Remembered(l, mail), send, id, |l.records|) by { hide RepliesTo; }
    hide Wanted, Remembered;
    LookupFindsWanted(Remembered(l, mail), send, id, |l.records|);
  }

  /** After a sender's fallback is dropped, a reply without a known Message-ID finds nothing. */
  lemma ForgottenIsNotFound(l: Ledger, send: Send)
    requires Consistent(l) && RepliesTo(send, "")
    ensures WfReferences(Forgotten(l, send.to)) && Lookup(Forgotten(l, send.to), send) == None
  {
    hide Strip;
    ForgetIsConsistent(l, send.to);
    ConsistentReferences(Forgotten(l, send.to));
  }

  // ---- the quoted lines ----------------------------------------------------------------

  /** `replace("\r\n", "\n")` */
  function PairsToBreaks(s: string): string {
    if s == "" then ""
    else if |s| >= 2 && s[0] == '\r' && s[1] == '\n' then "\n" + PairsToBreaks(s[2..])
    else [s[0]] + PairsToBreaks(s[1..])
  }

  /** `replace("\r", "\n")` */
  function ReturnsToBreaks(s: string): string {
    seq(|s|, i requires 0 <= i < |s| => if s[i] == '\r' then '\n' else s[i])
  }

  /** The lines are those of the text with its line ends made uniform, and there is no other way
      to cut it into lines. */
  lemma {:induction false} LinesOfBody(body: string)
    ensures JoinLines(SplitLines(body)) == ReturnsToBreaks(PairsToBreaks(body))
    ensures OneLineEach(SplitLines(body))
    decreases |body|
  {
    SplitLinesAreLines(body);
    if body != "" {
      if body[0] == '\r' && |body| > 1 && body[1] == '\n' {
        LinesOfBody(body[2..]);
        JoinBlank(SplitLines(body[2..]));
        ReturnsHead('\n', PairsToBreaks(body[2..]));
      } else {
        LinesOfBody(body[1..]);
        ReturnsHead(body[0], PairsToBreaks(body[1..]));
        if body[0] in "\r\n" {
          JoinBlank(SplitLines(body[1..]));
        } else {
          JoinLonger(body[0], SplitLines(body[1..]));
        }
      }
    }
  }

  lemma ReturnsHead(c: char, s: string)
    ensures ReturnsToBreaks([c] + s) == [if c == '\r' then '\n' else c] + ReturnsToBreaks(s)
  {
  }

  lemma JoinBlank(lines: seq<string>)
    requires lines != []
    ensures JoinLines([""] + lines) == "\n" + JoinLines(lines)
  {
    assert ([""] + lines)[1..] == lines && "" + "\n" == "\n";
  }

  lemma JoinLonger(c: char, lines: seq<string>)
    requires lines != []
    ensures JoinLines([[c] + lines[0]] + lines[1..]) == [c] + JoinLines(lines)
  {
    var longer := [[c] + lines[0]] + lines[1..];
    assert longer[1..] == lines[1..];
    if |lines| > 1 {
      assert JoinLines(longer) == [c] + lines[0] + "\n" + JoinLines(lines[1..]);
    }
  }

  /** Lines `a` up to `b`, without spaces at their ends, between blank ones. */
  ghost predicate IsMiddle(all: seq<string>, lines: seq<string>, a: nat, b: nat) {
    && a <= b <= |all| && |lines| == b - a
    && (forall i :: 0 <= i < |lines| ==> lines[i] == RStrip(all[a + i]))
    && (forall i :: 0 <= i < |all| && (i < a || i >= b) ==> RStrip(all[i]) == "")
    && (lines != [] ==> lines[0] != "" && lines[|lines| - 1] != "")
  }

  lemma {:induction false} StripEachAt(lines: seq<string>)
    ensures |StripEach(lines)| == |lines|
    ensures forall i :: 0 <= i < |lines| ==> StripEach(lines)[i] == RStrip(lines[i])
  {
    if lines != [] { StripEachAt(lines[1..]); }
  }

  lemma {:induction false} DropEndAt(lines: seq<string>)
    ensures var r := DropBlankEnd(lines);
            && r <= lines && (r != [] ==> r[|r| - 1] != "") && forall i :: |r| <= i < |lines| ==> lines[i] == ""
  {
    if lines != [] && lines[|lines| - 1] == "" { DropEndAt(lines[..|lines| - 1]); }
  }

  lemma {:induction false} DropStartAt(lines: seq<string>) returns (a: nat)
    ensures a <= |lines| && DropBlankStart(lines) == lines[a..]
    ensures (a < |lines| ==> lines[a] != "") && forall i :: 0 <= i < a ==> lines[i] == ""
  {
    a := 0;
    if lines != [] && lines[0] == "" {
      a := DropStartAt(lines[1..]);
      assert lines[1..][a..] == lines[a + 1..];
      assert forall i :: 1 <= i < a + 1 ==> lines[i] == lines[1..][i - 1];
      a := a + 1;
    }
  }

  /** The lines that are quoted: all but the blank ones at both ends, without trailing spaces. */
  lemma QuotedLinesAre(body: string)
    ensures exists a: nat, b: nat :: IsMiddle(SplitLines(body), BodyLines(body), a, b)
  {
    var all := SplitLines(body);
    var stripped := StripEach(all);
    var ended := DropBlankEnd(stripped);
    assert BodyLines(body) == DropBlankStart(ended);
    hide *;
    StripEachAt(all);
    DropEndAt(stripped);
    var a := DropStartAt(ended);
    PrefixIs(stripped, ended);
    MiddleIs(all, stripped, |ended|, a, BodyLines(body));
  }

  lemma PrefixIs(s: seq<string>, r: seq<string>)
    requires r <= s
    ensures r == s[..|r|] && forall i :: 0 <= i < |r| ==> r[i] == s[i]
  {
  }

  lemma MiddleIs(all: seq<string>, stripped: seq<string>, b: nat, a: nat, lines: seq<string>)
    requires |stripped| == |all| && forall i :: 0 <= i < |all| ==> stripped[i] == RStrip(all[i])
    requires a <= b <= |all| && lines == stripped[..b][a..]
    requires (a < b ==> stripped[a] != "" && stripped[b - 1] != "")
    requires forall i :: 0 <= i < a || b <= i < |all| ==> stripped[i] == ""
    ensures IsMiddle(all, lines, a, b)
  {
    hide RStrip;
  }

  /** How many levels deep a line is quoted. */
  function Level(line: string): nat {
    if line != "" && line[0] == '>' then 1 + Level(line[1..]) else 0
  }

  /** Quoting adds one level to any line, quoted or not, and changes nothing else. */
  lemma OneLevelMore(line: string)
    ensures Level(QuoteLine(line)) == Level(line) + 1 && Unquote(QuoteLine(line)) == line
    ensures |QuoteLine(line)| <= |line| + 2
  {
    UnquoteQuote([line]);
    assert QuoteLines([line]) == [QuoteLine(line)];
    if line != "" {
      if line[0] == '>' {
        assert (">" + line)[1..] == line;
      } else {
        assert ("> " + line)[1..] == " " + line;
      }
    }
  }
}
