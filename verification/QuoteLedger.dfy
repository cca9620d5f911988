/** The quote protocol of roles/k8s_infra/files/hermes_email_gateway_patched.py.

    Incoming mail is remembered in two bounded ordered dictionaries that share their
    records. Sender threads claim a record under a lock before they build a reply and
    settle it after SMTP: every method body below runs under that lock, so the threads
    interleave between calls only. The second half proves what every interleaving keeps. */
module QuoteLedger {
  import opened Options
  import opened PyText
  import opened QuoteBlock

  const QUOTE_LOOKUP_MAX: nat := 500
  const MAX_MESSAGE_LENGTH: nat := 50_000

  /** `""`, `"pending"` and `"done"`. */
  datatype RecordState = Free | Pending | Done

  /** A remembered mail. `header` is the line its quote begins with, formatted from the
      mail's date, sender name and address. */
  datatype Record = Record(messageId: string, body: string, header: string, address: string, state: RecordState)

  // ---- ordered dictionaries ------------------------------------------------------------

  /** The values are references: positions in the list of all records ever made. */
  datatype Entry = Entry(key: string, record: nat)

  function Get(d: seq<Entry>, key: string): (r: Option<nat>)
    ensures r.Some? ==> Entry(key, r.value) in d
    ensures r.None? ==> forall e :: e in d ==> e.key != key
  {
    if d == [] then None
    else if d[0].key == key then Some(d[0].record)
    else Get(d[1..], key)
  }

  function Without(d: seq<Entry>, key: string): (r: seq<Entry>)
    ensures |r| <= |d|
    ensures forall e :: e in r <==> e in d && e.key != key
  {
    if d == [] then []
    else if d[0].key == key then Without(d[1..], key)
    else [d[0]] + Without(d[1..], key)
  }

  /** `d[key] = record; d.move_to_end(key)`, then the oldest entries go until the bound holds. */
  function Put(d: seq<Entry>, key: string, record: nat): seq<Entry> {
    var e := Without(d, key) + [Entry(key, record)];
    if |e| > QUOTE_LOOKUP_MAX then e[|e| - QUOTE_LOOKUP_MAX..] else e
  }

  ghost predicate WfDict(d: seq<Entry>) {
    |d| <= QUOTE_LOOKUP_MAX && Distinct(d)
  }

  ghost predicate Distinct(d: seq<Entry>) {
    forall i, j :: 0 <= i < j < |d| ==> d[i].key != d[j].key
  }

  lemma {:induction false} WithoutKeepsDistinct(d: seq<Entry>, key: string)
    requires Distinct(d)
    ensures Distinct(Without(d, key))
    ensures Get(d, key).Some? ==> |Without(d, key)| < |d|
  {
    if d != [] {
      WithoutKeepsDistinct(d[1..], key);
      if d[0].key != key {
        forall e | e in Without(d[1..], key) ensures e.key != d[0].key {
          assert e in d[1..];
        }
      }
    }
  }

  /** A new entry is found, and none other changes its record. */
  lemma PutIsAnUpdate(d: seq<Entry>, key: string, record: nat)
    requires WfDict(d)
    ensures WfDict(Put(d, key, record)) && Entry(key, record) in Put(d, key, record)
    ensures forall e :: e in Put(d, key, record) ==> e == Entry(key, record) || (e in d && e.key != key)
  {
    WithoutKeepsDistinct(d, key);
    var p := Put(d, key, record);
    assert p[|p| - 1] == Entry(key, record);
  }

  /** Only the oldest entry can go, and only to make room for a new key. */
  lemma PutEvictsOldest(d: seq<Entry>, key: string, record: nat, e: Entry)
    requires WfDict(d) && e in d && e.key != key
    ensures e in Put(d, key, record) || (|d| == QUOTE_LOOKUP_MAX && e == d[0] && Get(d, key).None?)
  {
    var w := Without(d, key);
    hide Without, Get, Distinct;
    var i :| 0 <= i < |w| && w[i] == e;
    var all := w + [Entry(key, record)];
    if |all| > QUOTE_LOOKUP_MAX {
      WithoutAbsent(d, key);
      assert Put(d, key, record) == all[1..];
      if i > 0 { assert all[1..][i - 1] == e; }
    } else {
      assert all[i] == e;
    }
  }

  lemma {:induction false} WithoutAbsent(d: seq<Entry>, key: string)
    requires |Without(d, key)| == |d|
    ensures Without(d, key) == d && Get(d, key).None?
  {
    if d != [] && d[0].key != key {
      WithoutAbsent(d[1..], key);
      assert d == [d[0]] + d[1..];
    }
  }

  /** With distinct keys an entry that is present is the one that is found. */
  lemma {:induction false} GetFinds(d: seq<Entry>, e: Entry)
    requires Distinct(d) && e in d
    ensures Get(d, e.key) == Some(e.record)
  {
    if d[0] != e { GetFinds(d[1..], e); }
  }

  // ---- the ledger ----------------------------------------------------------------------

  datatype Ledger = Ledger(records: seq<Record>, byMessageId: seq<Entry>, bySender: seq<Entry>)

  datatype Mail = Mail(messageId: string, body: string, header: string, sender: string)

  /** A send: its recipient, text, the id it replies to, the recipient's thread context, and
      whether it is a turn's final reply. */
  datatype Send = Send(to: string, body: string, replyTo: string, contextId: string, final: bool)

  datatype Config = Config(quoteOriginal: bool, quoteMaxChars: int)

  function Remembered(l: Ledger, mail: Mail): Ledger {
    var id := Strip(mail.messageId);
    var r := |l.records|;
    Ledger(l.records + [Record(id, mail.body, mail.header, mail.sender, Free)],
           if id != "" then Put(l.byMessageId, id, r) else l.byMessageId,
           Put(l.bySender, mail.sender, r))
  }

  function Forgotten(l: Ledger, sender: string): Ledger {
    l.(bySender := Without(l.bySender, sender))
  }

  function OriginalId(send: Send): string {
    Strip(if send.replyTo != "" then send.replyTo else send.contextId)
  }

  ghost predicate WfReferences(l: Ledger) {
    && (forall e :: e in l.byMessageId ==> e.record < |l.records|)
    && (forall e :: e in l.bySender ==> e.record < |l.records|)
  }

  /** The record a reply would quote: by Message-ID, else the sender's last mail if that is
      the same mail or no Message-ID is known. */
  function Lookup(l: Ledger, send: Send): (r: Option<nat>)
    requires WfReferences(l)
    ensures r.Some? ==> r.value < |l.records|
  {
    var id := OriginalId(send);
    var direct := if id != "" then Get(l.byMessageId, id) else None;
    if direct.Some? then direct
    else
      var last := Get(l.bySender, send.to);
      if last.Some? && (id == "" || l.records[last.value].messageId == id) then last else None
  }

  /** The record is the recipient's, and no send holds or has used it. */
  predicate Quotable(l: Ledger, cfg: Config, send: Send)
    requires WfReferences(l)
  {
    && cfg.quoteOriginal && send.final
    && Lookup(l, send).Some?
    && l.records[Lookup(l, send).value].address == send.to
    && l.records[Lookup(l, send).value].state == Free
  }

  /** Length of a quote apart from the quoted lines. */
  function Fixed(header: string): int {
    |Block(header, "> x")| - |"> x"|
  }

  function Budget(cfg: Config, body: string, header: string): int {
    var room := MAX_MESSAGE_LENGTH - |body| - Fixed(header);
    if cfg.quoteMaxChars <= room then cfg.quoteMaxChars else room
  }

  /** `quote.lstrip("\n")` */
  function LStripNewlines(s: string): (r: string)
    ensures |r| <= |s|
  {
    if s != "" && s[0] == '\n' then LStripNewlines(s[1..]) else s
  }

  function WithQuote(body: string, quote: string): string {
    if body != "" then body + quote else LStripNewlines(quote)
  }

  function SetState(l: Ledger, r: nat, state: RecordState): Ledger
    requires r < |l.records|
  {
    l.(records := l.records[r := l.records[r].(state := state)])
  }

  /** What a claim does: the record it takes, if any, and the text to send. */
  ghost predicate Claimed(l: Ledger, cfg: Config, send: Send, l': Ledger, text: string, claim: Option<nat>)
    requires WfReferences(l)
  {
    if !Quotable(l, cfg, send) then l' == l && text == send.body && claim == None
    else
      var r := Lookup(l, send).value;
      var record := l.records[r];
      exists quoted ::
        && IsQuotedText(record.body, Budget(cfg, send.body, record.header), quoted)
        && if quoted == "" then l' == l && text == send.body && claim == None
           else && l' == SetState(l, r, Pending) && claim == Some(r)
                && text == WithQuote(send.body, Block(record.header, quoted))
  }

  class QuoteBook {
    const config: Config
    var records: seq<Record>
    var originalByMsgId: seq<Entry>
    var lastOriginalBySender: seq<Entry>

    ghost function Contents(): Ledger
      reads this
    {
      Ledger(records, originalByMsgId, lastOriginalBySender)
    }

    constructor (cfg: Config)
      ensures config == cfg && Contents() == Ledger([], [], [])
    {
      config, records, originalByMsgId, lastOriginalBySender := cfg, [], [], [];
    }

    method RememberOriginal(mail: Mail)
      modifies this
      ensures Contents() == Remembered(old(Contents()), mail)
    {
      var messageId := Strip(mail.messageId);
      records := records + [Record(messageId, mail.body, mail.header, mail.sender, Free)];
      var record := |records| - 1;
      if messageId != "" {
        originalByMsgId := PutBounded(originalByMsgId, messageId, record);
      }
      lastOriginalBySender := PutBounded(lastOriginalBySender, mail.sender, record);
    }

    /** Assign, move to the end, and evict from the front. */
    static method PutBounded(d: seq<Entry>, key: string, record: nat) returns (r: seq<Entry>)
      ensures r == Put(d, key, record)
    {
      ghost var e := Without(d, key) + [Entry(key, record)];
      r := Without(d, key) + [Entry(key, record)];
      while |r| > QUOTE_LOOKUP_MAX
        invariant |r| <= |e| && r == e[|e| - |r|..]
        invariant |r| >= QUOTE_LOOKUP_MAX || r == e
      {
        r := r[1..];
      }
    }

    method ForgetSenderOriginal(sender: string)
      modifies this
      ensures Contents() == Forgotten(old(Contents()), sender)
    {
      lastOriginalBySender := Without(lastOriginalBySender, sender);
    }

    method ClaimQuote(send: Send) returns (text: string, claim: Option<nat>)
      requires WfReferences(Contents())
      modifies `records
      ensures Claimed(old(Contents()), config, send, Contents(), text, claim)
    {
      ghost var l := Contents();
      hide Claimed, Quotable, Lookup, WfReferences;
      NotClaimed(l, config, send);
      if !config.quoteOriginal || !send.final {
        return send.body, None;
      }
      var found := FindRecord(send);
      if found.None? || records[found.value].address != send.to || records[found.value].state != Free {
        return send.body, None;
      }
      var record := records[found.value];
      var quote, quoted := QuoteWithin(send, record);
      TakesClaim(l, config, send, quoted);
      if quote == "" {
        return send.body, None;
      }
      records := records[found.value := record.(state := Pending)];
      return if send.body != "" then send.body + quote else LStripNewlines(quote), found;
    }

    /** The two lookups of a claim. */
    method FindRecord(send: Send) returns (found: Option<nat>)
      requires WfReferences(Contents())
      ensures found == Lookup(Contents(), send)
    {
      var originalId := OriginalId(send);
      found := if originalId != "" then Get(originalByMsgId, originalId) else None;
      if found.None? {
        var last := Get(lastOriginalBySender, send.to);
        if last.Some? && (originalId == "" || records[last.value].messageId == originalId) {
          found := last;
        }
      }
    }

    /** Measure the fixed part of the quote, and quote what the rest of the budget allows. */
    method QuoteWithin(send: Send, record: Record) returns (quote: string, ghost quoted: string)
      ensures IsQuote(record.body, record.header, Budget(config, send.body, record.header), quote)
      ensures IsQuotedText(record.body, Budget(config, send.body, record.header), quoted)
      ensures quote == Block(record.header, quoted) && (quote == "" <==> quoted == "")
    {
      hide IsQuotedText;
      var probe, _ := BuildQuote("x", record.header, 3);
      ProbeText(record.header, probe);
      var fixed := |probe| - |"> x"|;
      var room := MAX_MESSAGE_LENGTH - |send.body| - fixed;
      var budget := if config.quoteMaxChars <= room then config.quoteMaxChars else room;
      quote, quoted := BuildQuote(record.body, record.header, budget);
    }

    method SettleQuote(claim: Option<nat>, sent: bool)
      requires claim.Some? ==> claim.value < |records|
      modifies `records
      ensures Contents() == if claim.None? then old(Contents())
                            else SetState(old(Contents()), claim.value, if sent then Done else Free)
    {
      if claim.Some? {
        records := records[claim.value := records[claim.value].(state := if sent then Done else Free)];
      }
    }
  }

  /** Quoting "x" within three characters gives "> x". */
  lemma ProbeText(header: string, probe: string)
    requires IsQuote("x", header, 3, probe)
    ensures probe == Block(header, "> x")
  {
    var text :| IsQuotedText("x", 3, text) && probe == Block(header, text);
    assert BodyLines("x") == ["x"] by {
      assert SplitLines("") == [""];
      assert SplitLines("x") == [['x'] + ""] + [];
      assert ['x'] + "" == "x" && RStrip("x") == "x";
      assert StripEach(["x"]) == ["x"];
    }
    assert QuoteLine("x") == "> x";
    assert QuoteLines(["x"]) == ["> x"];
  }

  lemma NotClaimed(l: Ledger, cfg: Config, send: Send)
    requires WfReferences(l)
    ensures !Quotable(l, cfg, send) ==> Claimed(l, cfg, send, l, send.body, None)
    ensures Quotable(l, cfg, send) <==>
              && cfg.quoteOriginal && send.final && Lookup(l, send).Some?
              && l.records[Lookup(l, send).value].address == send.to
              && l.records[Lookup(l, send).value].state == Free
  {
    hide Lookup;
  }

  lemma TakesClaim(l: Ledger, cfg: Config, send: Send, quoted: string)
    requires WfReferences(l) && Quotable(l, cfg, send)
    requires var record := l.records[Lookup(l, send).value];
             IsQuotedText(record.body, Budget(cfg, send.body, record.header), quoted)
    ensures quoted == "" ==> Claimed(l, cfg, send, l, send.body, None)
    ensures quoted != "" ==>
              Claimed(l, cfg, send, SetState(l, Lookup(l, send).value, Pending),
                      WithQuote(send.body, Block(l.records[Lookup(l, send).value].header, quoted)), Lookup(l, send))
  {
    hide Lookup, IsQuotedText;
  }

  /** A claimed reply respects the limit of a message, begins with the whole body, and
      carries a mail of its recipient: the one replied to, when that is known. */
  lemma ClaimIsRight(l: Ledger, cfg: Config, send: Send, l': Ledger, text: string, claim: Option<nat>)
    requires Consistent(l) && WfReferences(l) && Claimed(l, cfg, send, l', text, claim)
    ensures claim.None? ==> l' == l && text == send.body
    ensures claim.Some? ==>
              && claim.value < |l.records| && l.records[claim.value].state == Free
              && l' == SetState(l, claim.value, Pending)
              && |text| <= 50_000 && send.body <= text
              && l.records[claim.value].address == send.to
              && (OriginalId(send) != "" ==> l.records[claim.value].messageId == OriginalId(send))
  {
    if claim.Some? {
      var record := l.records[claim.value];
      var budget := Budget(cfg, send.body, record.header);
      var quoted :| IsQuotedText(record.body, budget, quoted) && quoted != ""
                    && text == WithQuote(send.body, Block(record.header, quoted));
      WithinBudget(record.body, budget, quoted);
    }
  }

  /** Exactly when a send gets a claim: the record is quotable and some line fits. */
  lemma ClaimSucceedsWhen(
    l: Ledger, cfg: Config, send: Send, l': Ledger, text: string, claim: Option<nat>, quoted: string)
    requires WfReferences(l) && Claimed(l, cfg, send, l', text, claim)
    requires Quotable(l, cfg, send) ==>
               var record := l.records[Lookup(l, send).value];
               IsQuotedText(record.body, Budget(cfg, send.body, record.header), quoted)
    ensures claim == if Quotable(l, cfg, send) && quoted != "" then Lookup(l, send) else None
  {
    if Quotable(l, cfg, send) {
      var record := l.records[Lookup(l, send).value];
      var budget := Budget(cfg, send.body, record.header);
      var other :| IsQuotedText(record.body, budget, other)
                   && if other == "" then claim == None else claim == Lookup(l, send);
      QuotedTextIsUnique(record.body, budget, quoted, other);
    }
  }

  /** A failed send undoes its claim: the ledger is what it was before. */
  lemma FailedSendUndoesClaim(l: Ledger, cfg: Config, send: Send, l': Ledger, text: string, claim: Option<nat>)
    requires Consistent(l) && WfReferences(l) && Claimed(l, cfg, send, l', text, claim) && claim.Some?
    ensures claim.value < |l'.records| && SetState(l', claim.value, Free) == l
  {
    hide Claimed, Consistent;
    ClaimIsRight(l, cfg, send, l', text, claim);
    assert l.records[claim.value].(state := Free) == l.records[claim.value];
  }

  // ---- all interleavings ---------------------------------------------------------------

  /** The keys of a lookup tell the truth about the records they lead to. */
  ghost predicate Truthful(records: seq<Record>, d: seq<Entry>, bySender: bool) {
    forall e :: e in d ==> e.record < |records|
                           && e.key == if bySender then records[e.record].address else records[e.record].messageId
  }

  /** Both lookups are truthful, and bounded. */
  ghost predicate Consistent(l: Ledger) {
    && Truthful(l.records, l.byMessageId, false) && WfDict(l.byMessageId)
    && Truthful(l.records, l.bySender, true) && WfDict(l.bySender)
  }

  lemma ConsistentReferences(l: Ledger)
    requires Consistent(l)
    ensures WfReferences(l)
  {
  }

  type Thread = nat

  /** The ledger, the claim each sending thread holds, and the records that successful
      sends have quoted, in order. */
  datatype System = System(ledger: Ledger, held: map<Thread, nat>, quoted: seq<nat>)

  datatype Event =
    | Remember(mail: Mail)
    | Forget(sender: string)
    | Claim(thread: Thread, send: Send)
    | Settle(thread: Thread, sent: bool)

  /** One locked section. A thread settles its claim before it claims again. */
  ghost predicate Next(cfg: Config, s: System, e: Event, s': System)
    requires WfReferences(s.ledger)
  {
    match e
    case Remember(mail) => s' == s.(ledger := Remembered(s.ledger, mail))
    case Forget(sender) => s' == s.(ledger := Forgotten(s.ledger, sender))
    case Claim(t, send) =>
      && t !in s.held
      && exists text, claim :: Claimed(s.ledger, cfg, send, s'.ledger, text, claim)
                               && s'.held == (if claim.Some? then s.held[t := claim.value] else s.held)
                               && s'.quoted == s.quoted
    case Settle(t, sent) =>
      if t !in s.held then s' == s
      else && s.held[t] < |s.ledger.records|
           && s' == System(SetState(s.ledger, s.held[t], if sent then Done else Free), s.held - {t},
                           if sent then s.quoted + [s.held[t]] else s.quoted)
  }

  /** A record is pending exactly if an unsettled claim holds it, and one at most does. */
  ghost predicate Guarded(records: seq<Record>, held: map<Thread, nat>) {
    && (forall t :: t in held ==> held[t] < |records| && records[held[t]].state == Pending)
    && (forall t, u :: t in held && u in held && t != u ==> held[t] != held[u])
    && (forall r :: 0 <= r < |records| && records[r].state == Pending ==> Holds(held, r))
  }

  ghost predicate Holds(held: map<Thread, nat>, r: nat) {
    exists t :: t in held && held[t] == r
  }

  /** The done records are those quoted by a successful send, each of them once. */
  ghost predicate Once(records: seq<Record>, quoted: seq<nat>) {
    && (forall r: nat :: r in quoted <==> r < |records| && records[r].state == Done)
    && (forall i, j :: 0 <= i < j < |quoted| ==> quoted[i] != quoted[j])
  }

  ghost predicate Inv(s: System) {
    Consistent(s.ledger) && Guarded(s.ledger.records, s.held) && Once(s.ledger.records, s.quoted)
  }

  const START := System(Ledger([], [], []), map[], [])

  lemma PutIsTruthful(records: seq<Record>, record: Record, d: seq<Entry>, bySender: bool)
    requires WfDict(d) && Truthful(records, d, bySender)
    ensures Truthful(records + [record], d, bySender)
    ensures var d' := Put(d, if bySender then record.address else record.messageId, |records|);
            WfDict(d') && Truthful(records + [record], d', bySender)
  {
    PutIsAnUpdate(d, if bySender then record.address else record.messageId, |records|);
    hide Put, WfDict;
  }

  lemma RememberIsConsistent(l: Ledger, mail: Mail)
    requires Consistent(l)
    ensures Consistent(Remembered(l, mail))
  {
    var record := Record(Strip(mail.messageId), mail.body, mail.header, mail.sender, Free);
    PutIsTruthful(l.records, record, l.byMessageId, false);
    PutIsTruthful(l.records, record, l.bySender, true);
    hide Put, WfDict, Strip, Truthful;
  }

  lemma NewRecord(records: seq<Record>, record: Record, held: map<Thread, nat>, quoted: seq<nat>)
    requires Guarded(records, held) && Once(records, quoted) && record.state == Free
    ensures Guarded(records + [record], held) && Once(records + [record], quoted)
  {
  }

  lemma SetStateIsConsistent(l: Ledger, r: nat, state: RecordState)
    requires Consistent(l) && r < |l.records|
    ensures Consistent(SetState(l, r, state))
  {
  }

  lemma ClaimHolds(held: map<Thread, nat>, t: Thread, r: nat, q: nat)
    requires t !in held
    ensures Holds(held[t := r], q) <==> Holds(held, q) || q == r
  {
    var held' := held[t := r];
    assert t in held' && held'[t] == r;
    if u :| u in held && held[u] == q { assert u in held' && held'[u] == q; }
  }

  lemma ClaimGuards(records: seq<Record>, held: map<Thread, nat>, quoted: seq<nat>, t: Thread, r: nat)
    requires Guarded(records, held) && Once(records, quoted)
    requires t !in held && r < |records| && records[r].state == Free
    ensures Guarded(records[r := records[r].(state := Pending)], held[t := r])
    ensures Once(records[r := records[r].(state := Pending)], quoted)
  {
    var records' := records[r := records[r].(state := Pending)];
    assert Once(records', quoted) by { hide Guarded; }
    hide Once;
    forall q | 0 <= q < |records'| && records'[q].state == Pending ensures Holds(held[t := r], q) {
      ClaimHolds(held, t, r, q);
    }
    hide Holds;
  }

  lemma SettleHolds(held: map<Thread, nat>, t: Thread, q: nat)
    requires t in held && Holds(held, q) && q != held[t]
    ensures Holds(held - {t}, q)
  {
    var u :| u in held && held[u] == q;
    assert u in held - {t} && (held - {t})[u] == q;
  }

  lemma SettleReleases(records: seq<Record>, held: map<Thread, nat>, quoted: seq<nat>, t: Thread, sent: bool)
    requires Guarded(records, held) && Once(records, quoted) && t in held
    ensures var r := held[t];
            var records' := records[r := records[r].(state := if sent then Done else Free)];
            Guarded(records', held - {t}) && Once(records', if sent then quoted + [r] else quoted)
  {
    var r := held[t];
    var records' := records[r := records[r].(state := if sent then Done else Free)];
    SettlesOnce(records, quoted, r, sent);
    hide Once;
    forall q | 0 <= q < |records'| && records'[q].state == Pending ensures Holds(held - {t}, q) {
      SettleHolds(held, t, q);
    }
    hide Holds;
  }

  lemma SettlesOnce(records: seq<Record>, quoted: seq<nat>, r: nat, sent: bool)
    requires Once(records, quoted) && r < |records| && records[r].state == Pending
    ensures Once(records[r := records[r].(state := if sent then Done else Free)], if sent then quoted + [r] else quoted)
  {
  }

  /** Whatever locked section runs next, by whatever thread, the invariant holds after it. */
  lemma NextInv(cfg: Config, s: System, e: Event, s': System)
    requires Inv(s) && WfReferences(s.ledger) && Next(cfg, s, e, s')
    ensures Inv(s')
  {
    ConsistentReferences(s.ledger);
    hide Consistent, Guarded, Once, Claimed, Get, Put, Without, WfReferences;
    match e
    case Remember(mail) =>
      RememberIsConsistent(s.ledger, mail);
      NewRecord(s.ledger.records, s'.ledger.records[|s.ledger.records|], s.held, s.quoted);
    case Forget(sender) =>
      ForgetIsConsistent(s.ledger, sender);
    case Claim(t, send) =>
      var text, claim :| Claimed(s.ledger, cfg, send, s'.ledger, text, claim)
                         && s'.held == (if claim.Some? then s.held[t := claim.value] else s.held)
                         && s'.quoted == s.quoted;
      ClaimIsRight(s.ledger, cfg, send, s'.ledger, text, claim);
      if claim.Some? {
        SetStateIsConsistent(s.ledger, claim.value, Pending);
        ClaimGuards(s.ledger.records, s.held, s.quoted, t, claim.value);
      }
    case Settle(t, sent) =>
      if t in s.held {
        SetStateIsConsistent(s.ledger, s.held[t], if sent then Done else Free);
        SettleReleases(s.ledger.records, s.held, s.quoted, t, sent);
      }
  }

  lemma ForgetIsConsistent(l: Ledger, sender: string)
    requires Consistent(l)
    ensures Consistent(Forgotten(l, sender))
  {
    WithoutKeepsDistinct(l.bySender, sender);
  }

  /** A run: the events and the states between them. */
  ghost predicate IsRun(cfg: Config, states: seq<System>, events: seq<Event>) {
    && |states| == |events| + 1 && states[0] == START
    && forall i :: 0 <= i < |events| ==>
         WfReferences(states[i].ledger) && Next(cfg, states[i], events[i], states[i + 1])
  }

  lemma {:induction false} RunInv(cfg: Config, states: seq<System>, events: seq<Event>, i: nat)
    requires IsRun(cfg, states, events) && i < |states|
    ensures Inv(states[i])
    decreases i
  {
    hide Next;
    if i > 0 {
      RunInv(cfg, states, events, i - 1);
      NextInv(cfg, states[i - 1], events[i - 1], states[i]);
    }
  }

  ghost predicate IsDone(s: System, r: nat) {
    r < |s.ledger.records| && s.ledger.records[r].state == Done
  }

  lemma NextKeepsDone(cfg: Config, s: System, e: Event, s': System, r: nat)
    requires Inv(s) && WfReferences(s.ledger) && Next(cfg, s, e, s') && IsDone(s, r)
    ensures IsDone(s', r)
  {
    hide Claimed, Consistent, Put, Without, Get, Once, WfReferences, Guarded, Lookup, Quotable;
    match e
    case Remember(_) =>
    case Forget(_) =>
    case Claim(_, send) =>
      var text, claim :| Claimed(s.ledger, cfg, send, s'.ledger, text, claim);
      ClaimIsRight(s.ledger, cfg, send, s'.ledger, text, claim);
    case Settle(t, _) =>
      HeldIsPending(s.ledger.records, s.held, t);
  }

  lemma HeldIsPending(records: seq<Record>, held: map<Thread, nat>, t: Thread)
    requires Guarded(records, held)
    ensures t in held ==> held[t] < |records| && records[held[t]].state == Pending
  {
  }

  /** Done is final: in every run, a record that was quoted stays quoted. */
  lemma {:induction false} DoneIsFinal(cfg: Config, states: seq<System>, events: seq<Event>, i: nat, j: nat, r: nat)
    requires IsRun(cfg, states, events) && i <= j < |states| && IsDone(states[i], r)
    ensures IsDone(states[j], r)
    decreases j
  {
    hide Next, Inv, IsDone;
    if i < j {
      DoneIsFinal(cfg, states, events, i, j - 1, r);
      RunInv(cfg, states, events, j - 1);
      NextKeepsDone(cfg, states[j - 1], events[j - 1], states[j], r);
    }
  }

  /** In every run two successful sends never quote the same record, and two sends in
      progress never hold the same one. */
  lemma QuotedAtMostOnce(cfg: Config, states: seq<System>, events: seq<Event>, i: nat)
    requires IsRun(cfg, states, events) && i < |states|
    ensures var s := states[i];
            && (forall m, n :: 0 <= m < n < |s.quoted| ==> s.quoted[m] != s.quoted[n])
            && (forall t, u :: t in s.held && u in s.held && t != u ==> s.held[t] != s.held[u])
            && (forall t :: t in s.held ==> s.held[t] !in s.quoted)
            && |s.ledger.byMessageId| <= 500 && |s.ledger.bySender| <= 500
  {
    RunInv(cfg, states, events, i);
  }
}
