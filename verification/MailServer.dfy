/** An IMAP server as folders of flagged copies, and `_imap_move` of
    roles/k8s_infra/files/hermes_email_gateway_patched.py on it.

    Every command may succeed, be refused, or raise, and a command that raises may have been
    carried out before its answer was lost. */
module MailServer {

  /** The identity of a mail, whichever copies of it exist. */
  type Msg = nat
  /** A copy's UID: never used again, and new whenever a copy is made or moved. */
  type Slot = nat
  type Folder = string

  const INBOX: Folder := "INBOX"

  datatype Copy = Copy(msg: Msg, folder: Folder, seen: bool, deleted: bool)

  datatype Server = Server(copies: map<Slot, Copy>, next: Slot)

  datatype Outcome = Ok | No | Raised(applied: bool)
  {
    predicate Applied() { Ok? || (Raised? && applied) }
  }

  /** UIDs in use are older than the next one. */
  ghost predicate Wf(s: Server) {
    forall k :: k in s.copies ==> k < s.next
  }

  predicate Holds(s: Server, folder: Folder, slot: Slot) {
    slot in s.copies && s.copies[slot].folder == folder
  }

  // ---- commands on the selected folder; a UID that is not there is ignored -------------

  /** UID MOVE (RFC 6851): flags go along. */
  function Relocate(s: Server, folder: Folder, slot: Slot, dst: Folder): Server {
    if Holds(s, folder, slot)
    then Server((s.copies - {slot})[s.next := s.copies[slot].(folder := dst)], s.next + 1)
    else s
  }

  /** UID COPY */
  function Duplicate(s: Server, folder: Folder, slot: Slot, dst: Folder): Server {
    if Holds(s, folder, slot) then Server(s.copies[s.next := s.copies[slot].(folder := dst)], s.next + 1) else s
  }

  /** UID STORE +FLAGS (\Deleted) */
  function FlagDeleted(s: Server, folder: Folder, slot: Slot): Server {
    if Holds(s, folder, slot) then s.(copies := s.copies[slot := s.copies[slot].(deleted := true)]) else s
  }

  /** UID STORE +FLAGS (\Seen), and what a fetch of RFC822 does (section 6.4.5 of RFC 3501) */
  function FlagSeen(s: Server, folder: Folder, slot: Slot): Server {
    if Holds(s, folder, slot) then s.(copies := s.copies[slot := s.copies[slot].(seen := true)]) else s
  }

  /** UID EXPUNGE (RFC 4315) */
  function ExpungeOne(s: Server, folder: Folder, slot: Slot): Server {
    if Holds(s, folder, slot) && s.copies[slot].deleted then s.(copies := s.copies - {slot}) else s
  }

  /** EXPUNGE: everything in the folder that is flagged, by whomever. */
  function ExpungeAll(s: Server, folder: Folder): Server {
    s.(copies := map k | k in s.copies && !(s.copies[k].folder == folder && s.copies[k].deleted) :: s.copies[k])
  }

  // ---- the move ------------------------------------------------------------------------

  datatype MoveOutcomes = MoveOutcomes(
    move: Outcome, copy: Outcome, store: Outcome, uidExpunge: Outcome, expunge: Outcome)

  /** `_imap_move`: MOVE, else COPY, flag and expunge. A refused STORE or EXPUNGE goes unnoticed. */
  function MoveResult(s: Server, folder: Folder, slot: Slot, dst: Folder, o: MoveOutcomes): (Server, bool) {
    var s1 := if o.move.Applied() then Relocate(s, folder, slot, dst) else s;
    if o.move.Ok? then (s1, true)
    else
      var s2 := if o.copy.Applied() then Duplicate(s1, folder, slot, dst) else s1;
      if !o.copy.Ok? then (s2, false)
      else
        var s3 := if o.store.Applied() then FlagDeleted(s2, folder, slot) else s2;
        if o.store.Raised? then (s3, false)
        else
          var s4 := if o.uidExpunge.Applied() then ExpungeOne(s3, folder, slot) else s3;
          if !o.uidExpunge.Raised? then (s4, true)
          else ((if o.expunge.Applied() then ExpungeAll(s4, folder) else s4), !o.expunge.Raised?)
  }

  // ---- what it keeps -------------------------------------------------------------------

  ghost predicate Present(s: Server, m: Msg) {
    exists k :: k in s.copies && s.copies[k].msg == m
  }

  /** Some copy is not flagged for deletion. */
  ghost predicate Live(s: Server, m: Msg) {
    exists k :: k in s.copies && s.copies[k].msg == m && !s.copies[k].deleted
  }

  lemma RelocateKeepsLive(s: Server, folder: Folder, slot: Slot, dst: Folder, m: Msg)
    requires Wf(s) && Live(s, m)
    ensures Wf(Relocate(s, folder, slot, dst)) && Live(Relocate(s, folder, slot, dst), m)
  {
    var k :| k in s.copies && s.copies[k].msg == m && !s.copies[k].deleted;
    var s' := Relocate(s, folder, slot, dst);
    if k == slot && Holds(s, folder, slot) {
      assert s.next in s'.copies && s'.copies[s.next].msg == m;
    } else {
      assert k in s'.copies && s'.copies[k] == s.copies[k];
    }
  }

  /** After the copy, flagging the original leaves its mail a live copy. */
  lemma CopyThenFlagKeepsLive(s: Server, folder: Folder, slot: Slot, dst: Folder, flag: bool, m: Msg)
    requires Wf(s) && Live(s, m)
    ensures var s2 := Duplicate(s, folder, slot, dst);
            var s3 := if flag then FlagDeleted(s2, folder, slot) else s2;
            Wf(s2) && Live(s2, m) && Wf(s3) && Live(s3, m)
  {
    var k :| k in s.copies && s.copies[k].msg == m && !s.copies[k].deleted;
    var s2 := Duplicate(s, folder, slot, dst);
    var s3 := if flag then FlagDeleted(s2, folder, slot) else s2;
    assert k in s2.copies && s2.copies[k] == s.copies[k];
    if k == slot && Holds(s, folder, slot) {
      assert s.next in s3.copies && s3.copies[s.next].msg == m && !s3.copies[s.next].deleted;
    } else {
      assert k in s3.copies && s3.copies[k] == s.copies[k];
    }
  }

  lemma ExpungeKeepsLive(s: Server, folder: Folder, slot: Slot, m: Msg)
    requires Wf(s) && Live(s, m)
    ensures Wf(ExpungeOne(s, folder, slot)) && Live(ExpungeOne(s, folder, slot), m)
    ensures Wf(ExpungeAll(s, folder)) && Live(ExpungeAll(s, folder), m)
  {
    var k :| k in s.copies && s.copies[k].msg == m && !s.copies[k].deleted;
    assert k in ExpungeOne(s, folder, slot).copies && ExpungeOne(s, folder, slot).copies[k] == s.copies[k];
    assert k in ExpungeAll(s, folder).copies && ExpungeAll(s, folder).copies[k] == s.copies[k];
  }

  /** Whatever fails on the way, a mail with a live copy keeps one: a move loses no mail. */
  lemma MoveKeepsLive(s: Server, folder: Folder, slot: Slot, dst: Folder, o: MoveOutcomes, m: Msg)
    requires Wf(s) && Live(s, m)
    ensures var r := MoveResult(s, folder, slot, dst, o).0; Wf(r) && Live(r, m)
  {
    hide Live, Wf, Relocate, Duplicate, FlagDeleted, ExpungeOne, ExpungeAll;
    RelocateKeepsLive(s, folder, slot, dst, m);
    var s1 := if o.move.Applied() then Relocate(s, folder, slot, dst) else s;
    CopyThenFlagKeepsLive(s1, folder, slot, dst, o.store.Applied(), m);
    var s2 := Duplicate(s1, folder, slot, dst);
    var s3 := if o.store.Applied() then FlagDeleted(s2, folder, slot) else s2;
    ExpungeKeepsLive(s3, folder, slot, m);
    var s4 := if o.uidExpunge.Applied() then ExpungeOne(s3, folder, slot) else s3;
    ExpungeKeepsLive(s4, folder, slot, m);
  }

  /** The mail has a copy that no expunge of `folder` can take. */
  ghost predicate Hard(s: Server, folder: Folder, m: Msg) {
    exists k :: k in s.copies && s.copies[k].msg == m && !(s.copies[k].folder == folder && s.copies[k].deleted)
  }

  /** Or it is the mail that is being moved away. */
  ghost predicate Safe(s: Server, folder: Folder, slot: Slot, dst: Folder, m: Msg) {
    Hard(s, folder, m) || (Holds(s, folder, slot) && s.copies[slot].msg == m && dst != folder)
  }

  /** The sequence of answers that is worst for the other mails: the plain EXPUNGE runs. */
  const WORST := MoveOutcomes(No, Ok, Ok, Raised(false), Ok)

  lemma WorstExpungesAll(s: Server, folder: Folder, slot: Slot, dst: Folder, m: Msg)
    requires Wf(s) && !Safe(s, folder, slot, dst, m)
    ensures !Present(MoveResult(s, folder, slot, dst, WORST).0, m)
  {
    var r := MoveResult(s, folder, slot, dst, WORST).0;
    var s2 := Duplicate(s, folder, slot, dst);
    var s3 := FlagDeleted(s2, folder, slot);
    assert r == ExpungeAll(s3, folder);
    forall k | k in r.copies ensures r.copies[k].msg != m {
      assert k in s3.copies && !(s3.copies[k].folder == folder && s3.copies[k].deleted);
      if k in s.copies {
        assert s.copies[k].msg == s3.copies[k].msg;
      }
    }
  }

  lemma RelocateKeepsHard(s: Server, folder: Folder, slot: Slot, dst: Folder, m: Msg)
    requires Wf(s) && Safe(s, folder, slot, dst, m)
    ensures var s1 := Relocate(s, folder, slot, dst); Wf(s1) && Hard(s1, folder, m)
  {
    var s1 := Relocate(s, folder, slot, dst);
    if Holds(s, folder, slot) && s.copies[slot].msg == m && dst != folder {
      assert s.next in s1.copies && s1.copies[s.next].msg == m && s1.copies[s.next].folder == dst;
    } else {
      var k :| k in s.copies && s.copies[k].msg == m && !(s.copies[k].folder == folder && s.copies[k].deleted);
      if k == slot && Holds(s, folder, slot) {
        assert s.next in s1.copies && s1.copies[s.next].msg == m && !s1.copies[s.next].deleted;
      } else {
        assert k in s1.copies && s1.copies[k] == s.copies[k];
      }
    }
  }

  lemma CopyThenFlagKeepsHard(s: Server, folder: Folder, slot: Slot, dst: Folder, flag: bool, m: Msg)
    requires Wf(s) && Safe(s, folder, slot, dst, m)
    ensures var s2 := Duplicate(s, folder, slot, dst);
            var s3 := if flag then FlagDeleted(s2, folder, slot) else s2;
            Wf(s2) && Hard(s2, folder, m) && Wf(s3) && Hard(s3, folder, m)
  {
    var s2 := Duplicate(s, folder, slot, dst);
    var s3 := if flag then FlagDeleted(s2, folder, slot) else s2;
    if Holds(s, folder, slot) && s.copies[slot].msg == m && dst != folder {
      assert s.next in s2.copies && s2.copies[s.next].msg == m && s2.copies[s.next].folder == dst;
      assert s.next in s3.copies && s3.copies[s.next] == s2.copies[s.next];
    } else {
      var k :| k in s.copies && s.copies[k].msg == m && !(s.copies[k].folder == folder && s.copies[k].deleted);
      assert k in s2.copies && s2.copies[k] == s.copies[k];
      if k == slot && Holds(s, folder, slot) {
        assert s.next in s3.copies && s3.copies[s.next].msg == m && !s3.copies[s.next].deleted;
      } else {
        assert k in s3.copies && s3.copies[k] == s.copies[k];
      }
    }
  }

  lemma ExpungeKeepsHard(s: Server, folder: Folder, slot: Slot, m: Msg)
    requires Wf(s) && Hard(s, folder, m)
    ensures Wf(ExpungeOne(s, folder, slot)) && Hard(ExpungeOne(s, folder, slot), folder, m)
    ensures Wf(ExpungeAll(s, folder)) && Hard(ExpungeAll(s, folder), folder, m)
  {
    var k :| k in s.copies && s.copies[k].msg == m && !(s.copies[k].folder == folder && s.copies[k].deleted);
    assert k in ExpungeOne(s, folder, slot).copies && ExpungeOne(s, folder, slot).copies[k] == s.copies[k];
    assert k in ExpungeAll(s, folder).copies && ExpungeAll(s, folder).copies[k] == s.copies[k];
  }

  lemma HardIsSafe(s: Server, folder: Folder, slot: Slot, dst: Folder, m: Msg)
    ensures Hard(s, folder, m) ==> Present(s, m) && Safe(s, folder, slot, dst, m)
  {
  }

  lemma MoveKeepsSafe(s: Server, folder: Folder, slot: Slot, dst: Folder, o: MoveOutcomes, m: Msg)
    requires Wf(s) && Present(s, m) && Safe(s, folder, slot, dst, m)
    ensures Present(MoveResult(s, folder, slot, dst, o).0, m)
  {
    hide Hard, Safe, Present, Wf, Relocate, Duplicate, FlagDeleted, ExpungeOne, ExpungeAll;
    RelocateKeepsHard(s, folder, slot, dst, m);
    var s1 := if o.move.Applied() then Relocate(s, folder, slot, dst) else s;
    HardIsSafe(s1, folder, slot, dst, m);
    CopyThenFlagKeepsHard(s1, folder, slot, dst, o.store.Applied(), m);
    var s2 := Duplicate(s1, folder, slot, dst);
    HardIsSafe(s2, folder, slot, dst, m);
    var s3 := if o.store.Applied() then FlagDeleted(s2, folder, slot) else s2;
    HardIsSafe(s3, folder, slot, dst, m);
    ExpungeKeepsHard(s3, folder, slot, m);
    var s4 := if o.uidExpunge.Applied() then ExpungeOne(s3, folder, slot) else s3;
    HardIsSafe(s4, folder, slot, dst, m);
    ExpungeKeepsHard(s4, folder, slot, m);
    HardIsSafe(ExpungeAll(s4, folder), folder, slot, dst, m);
  }

  /** Exactly when a move can lose nothing, whatever is answered: every mail is safe. A mail
      the user has flagged \Deleted in the selected folder is not, because a server without
      UID EXPUNGE gets a plain one. */
  lemma MoveLosesNothingIff(s: Server, folder: Folder, slot: Slot, dst: Folder)
    requires Wf(s)
    ensures (forall o, m :: Present(s, m) ==> Present(MoveResult(s, folder, slot, dst, o).0, m)) <==>
            (forall m :: Present(s, m) ==> Safe(s, folder, slot, dst, m))
  {
    hide Safe, Present, MoveResult, Wf;
    if forall m :: Present(s, m) ==> Safe(s, folder, slot, dst, m) {
      forall o, m | Present(s, m) ensures Present(MoveResult(s, folder, slot, dst, o).0, m) {
        MoveKeepsSafe(s, folder, slot, dst, o, m);
      }
    } else {
      var m :| Present(s, m) && !Safe(s, folder, slot, dst, m);
      WorstExpungesAll(s, folder, slot, dst, m);
    }
  }

  lemma MoveKeepsWf(s: Server, folder: Folder, slot: Slot, dst: Folder, o: MoveOutcomes)
    requires Wf(s)
    ensures var r := MoveResult(s, folder, slot, dst, o).0; Wf(r) && r.next >= s.next
  {
  }

  // ---- where copies can end up ---------------------------------------------------------

  /** A folder that a move does not fill gains nothing: what it holds was there before, under
      the same UID, and is at most newly flagged for deletion. */
  ghost predicate Drained(s: Server, r: Server, folder: Folder) {
    forall k :: k in r.copies && r.copies[k].folder == folder ==>
      k in s.copies && s.copies[k].(deleted := r.copies[k].deleted) == r.copies[k]
  }

  /** No mail is invented, and only the moved one comes into the destination. */
  lemma MoveFills(s: Server, folder: Folder, slot: Slot, dst: Folder, o: MoveOutcomes, k: Slot)
    requires Wf(s) && k in MoveResult(s, folder, slot, dst, o).0.copies
    ensures var c := MoveResult(s, folder, slot, dst, o).0.copies[k];
            || (k in s.copies && s.copies[k].(deleted := c.deleted) == c)
            || (k == s.next && Holds(s, folder, slot) && c == s.copies[slot].(folder := dst))
  {
  }

  lemma MoveDrains(s: Server, folder: Folder, slot: Slot, dst: Folder, o: MoveOutcomes, other: Folder)
    requires Wf(s) && other != dst
    ensures Drained(s, MoveResult(s, folder, slot, dst, o).0, other)
  {
    var r := MoveResult(s, folder, slot, dst, o).0;
    hide MoveResult;
    forall k | k in r.copies && r.copies[k].folder == other
      ensures k in s.copies && s.copies[k].(deleted := r.copies[k].deleted) == r.copies[k]
    {
      MoveFills(s, folder, slot, dst, o, k);
    }
  }

  /** A server that does what it is asked, as far as it knows the command: one without MOVE
      refuses it, be it with NO or with BAD, which raises; on one without UIDPLUS the UID
      EXPUNGE raises, and the plain one works. */
  predicate Willing(o: MoveOutcomes) {
    || o.move.Ok?
    || (!o.move.Applied() && o.copy.Ok? && o.store.Ok? && (o.uidExpunge.Ok? || NeedsPlainExpunge(o)))
  }

  predicate NeedsPlainExpunge(o: MoveOutcomes) {
    !o.move.Ok? && o.uidExpunge == Raised(false) && o.expunge.Ok?
  }

  /** The copies a plain EXPUNGE of the folder takes along. */
  predicate Flagged(s: Server, folder: Folder, k: Slot) {
    k in s.copies && s.copies[k].folder == folder && s.copies[k].deleted
  }

  /** On a willing server the mail is in the destination and no longer where it was. Every
      other copy stays, except that a server without UIDPLUS drops those that were flagged for
      deletion in the same folder. */
  lemma MoveSucceeds(s: Server, folder: Folder, slot: Slot, dst: Folder, o: MoveOutcomes)
    requires Wf(s) && Holds(s, folder, slot) && Willing(o)
    ensures var (r, moved) := MoveResult(s, folder, slot, dst, o);
            && moved && slot !in r.copies && r.next == s.next + 1
            && (dst != folder || !s.copies[slot].deleted || !NeedsPlainExpunge(o) ==>
                  Holds(r, dst, s.next) && r.copies[s.next] == s.copies[slot].(folder := dst))
            && forall k :: k in s.copies && k != slot && !(NeedsPlainExpunge(o) && Flagged(s, folder, k)) ==>
                 k in r.copies && r.copies[k] == s.copies[k]
  {
  }

  /** Whatever is answered, a copy that is not moved is left as it is or expunged. */
  lemma MoveLeavesOthers(s: Server, folder: Folder, slot: Slot, dst: Folder, o: MoveOutcomes, k: Slot)
    requires Wf(s) && k != slot && k in s.copies && k in MoveResult(s, folder, slot, dst, o).0.copies
    ensures MoveResult(s, folder, slot, dst, o).0.copies[k] == s.copies[k]
  {
  }

  /** What the caller is told: a refused STORE or EXPUNGE goes unnoticed. */
  lemma MovedIff(s: Server, folder: Folder, slot: Slot, dst: Folder, o: MoveOutcomes)
    ensures MoveResult(s, folder, slot, dst, o).1 <==>
            || o.move == Ok
            || (o.copy == Ok && (o.store == Ok || o.store == No)
                && (o.uidExpunge == Ok || o.uidExpunge == No || o.expunge == Ok || o.expunge == No))
  {
    hide Relocate, Duplicate, FlagDeleted, ExpungeOne, ExpungeAll;
  }

  /** Whatever is answered, a copy that is neither moved nor flagged for deletion stays. */
  lemma MoveKeepsPlace(s: Server, folder: Folder, slot: Slot, dst: Folder, o: MoveOutcomes, k: Slot)
    requires Wf(s) && k in s.copies && !s.copies[k].deleted && !(k == slot && Holds(s, folder, slot))
    ensures var r := MoveResult(s, folder, slot, dst, o).0; k in r.copies && r.copies[k] == s.copies[k]
  {
  }
}
