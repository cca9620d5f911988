/** One poll of roles/k8s_infra/files/hermes_email_gateway_patched.py as functions on a state:
    INBOX to Working to Done, and the UIDs the adapter remembers.

    What the program cannot know is a parameter: the server's answers, what the sender gate and
    the parser decide, and which dispatch raises. Lemmas that quantify over it therefore speak
    about all failures. */
module MailPoll {
  import opened MailServer

  /** An empty name switches a folder off. `idOf` is the Message-ID header, empty if missing;
      `matches` says which headers a search finds. */
  datatype Config = Config(
    working: Folder, done: Folder, idOf: Msg -> string, matches: (string, string) -> bool, seenMax: nat)
  {
    /** Working is a folder of its own. */
    predicate HasWorking() { working != "" && working != INBOX && working != done }

    /** A header search finds the exact matches, and may find more (section 6.4.4 of RFC 3501). */
    ghost predicate Searches() { forall m :: matches(idOf(m), idOf(m)) }
  }

  /** A mail fetched for dispatch, and the folder it should be in. */
  datatype Fetched = Fetched(uid: Slot, msg: Msg, messageId: string, source: Folder)

  /** What the environment does with one UID: `flag` answers the command that sets \Seen. */
  datatype Visit = Visit(header: Outcome, accepted: bool, flag: Outcome, parsed: bool, move: MoveOutcomes)

  /** The order in which a search lists what it found. */
  type Listing = set<Slot> -> seq<Slot>

  /** What the environment does while one mail is dispatched and finalized. */
  datatype Handling = Handling(raises: bool, search: Outcome, list: Listing, move: Slot -> MoveOutcomes)

  /** What the environment does during one poll; dispatches are numbered. */
  datatype World = World(search: Outcome, list: Listing, visit: Slot -> Visit, handle: nat -> Handling)
  {
    ghost predicate Lists() { Enumerates(list) && forall i :: Enumerates(handle(i).list) }
  }

  ghost predicate Enumerates(list: Listing) {
    forall s :: ListsOnce(s, list(s))
  }

  ghost predicate ListsOnce(s: set<Slot>, todo: seq<Slot>) {
    && (forall k :: k in todo <==> k in s)
    && (forall i, j :: 0 <= i < j < |todo| ==> todo[i] != todo[j])
  }

  /** `arrived` are the mails that ever came in; `taken` and `dispatched` are those fetched for
      dispatch and those given to it, in order; `forgot` says whether a UID was ever trimmed. */
  datatype State = State(
    server: Server, uids: set<Slot>, forgot: bool, arrived: set<Msg>, taken: seq<Msg>, dispatched: seq<Msg>)

  function Start(): State {
    State(Server(map[], 0), {}, false, {}, [], [])
  }

  // ---- the remembered UIDs -------------------------------------------------------------

  predicate IsLeast(s: set<Slot>, k: Slot) {
    k in s && forall j :: j in s ==> k <= j
  }

  lemma {:induction false} LeastExists(s: set<Slot>)
    requires s != {}
    ensures exists k :: IsLeast(s, k)
    decreases |s|
  {
    var x :| x in s;
    var rest := s - {x};
    assert forall j :: j in s ==> j == x || j in rest;
    if rest == {} {
      assert IsLeast(s, x);
    } else {
      LeastExists(rest);
      var k :| IsLeast(rest, k);
      if k <= x { assert IsLeast(s, k); } else { assert IsLeast(s, x); }
    }
  }

  ghost function Least(s: set<Slot>): (k: Slot)
    requires s != {}
    ensures IsLeast(s, k)
  {
    LeastExists(s);
    var k :| IsLeast(s, k);
    k
  }

  /** The `n` highest, by dropping the least. */
  ghost function Highest(s: set<Slot>, n: nat): (r: set<Slot>)
    requires n <= |s|
    ensures r <= s && |r| == n
    ensures forall j, k :: j in s && j !in r && k in r ==> j < k
    decreases |s|
  {
    if |s| == n then s else Highest(s - {Least(s)}, n)
  }

  /** Above the cap, the highest half; half of a cap below 2 is none, and `[-0:]` is all. */
  ghost function Trim(cap: nat, s: set<Slot>): (r: set<Slot>)
    ensures r <= s && (r != s ==> |s| > cap >= 2 && |r| == cap / 2)
    ensures forall j, k :: j in s && j !in r && k in r ==> j < k
  {
    if |s| <= cap || cap / 2 == 0 then s else Highest(s, cap / 2)
  }

  ghost function Remembered(c: Config, s: State, slot: Slot): State {
    var all := s.uids + {slot};
    s.(uids := Trim(c.seenMax, all), forgot := s.forgot || Trim(c.seenMax, all) != all)
  }

  // ---- one UID -------------------------------------------------------------------------

  /** What a poll or a part of it leaves: the state, the mails fetched, and whether it failed. */
  datatype Step = Step(state: State, got: seq<Fetched>, failed: bool)

  /** The server sets the flag if it carries the command out, whatever is answered. */
  function Flagging(s: State, slot: Slot, o: Outcome): State {
    if o.Applied() then s.(server := FlagSeen(s.server, INBOX, slot)) else s
  }

  function Moved(s: State, folder: Folder, slot: Slot, dst: Folder, o: MoveOutcomes): State {
    s.(server := MoveResult(s.server, folder, slot, dst, o).0)
  }

  /** `_mark_uid_consumed`: remember, flag as seen, move to Done; a STORE that raises ends the poll. */
  ghost function Consumed(c: Config, s: State, slot: Slot, v: Visit): Step {
    var t := Flagging(Remembered(c, s, slot), slot, v.flag);
    Step(if v.flag.Raised? || c.done == "" then t else Moved(t, INBOX, slot, c.done, v.move), [], v.flag.Raised?)
  }

  predicate Parks(c: Config, m: Msg) {
    c.done != "" && c.working != "" && c.idOf(m) != ""
  }

  /** A parsed mail moves to Working before it is dispatched; without Done or without a
      Message-ID to find it by it stays. */
  function Parked(c: Config, s: State, slot: Slot, o: MoveOutcomes): (State, Fetched)
    requires slot in s.server.copies
  {
    var m := s.server.copies[slot].msg;
    var f := Fetched(slot, m, c.idOf(m), INBOX);
    if !Parks(c, m) then (s, f)
    else
      var moved := MoveResult(s.server, INBOX, slot, c.working, o).1;
      (Moved(s, INBOX, slot, c.working, o), if moved then f.(source := c.working) else f)
  }

  /** The fetch of RFC822 flags the mail as seen (section 6.4.5 of RFC 3501); an answer, even
      an unusable one, makes the UID remembered. */
  ghost function BodyFetched(c: Config, s: State, slot: Slot, v: Visit): Step
    requires Holds(s.server, INBOX, slot)
  {
    var t := Flagging(s, slot, v.flag);
    if !v.flag.Ok? then Step(t, [], v.flag.Raised?)
    else
      var u := Remembered(c, t, slot);
      if !v.parsed then Step(u, [], false)
      else
        var (r, f) := Parked(c, u.(taken := u.taken + [u.server.copies[slot].msg]), slot, v.move);
        Step(r, [f], false)
  }

  /** One UID of the search: skipped if remembered, then header preflight and gate. A mail that
      is gone has no header. */
  ghost function Visited(c: Config, s: State, slot: Slot, v: Visit): Step {
    if slot in s.uids then Step(s, [], false)
    else if !v.header.Ok? then Step(s, [], v.header.Raised?)
    else if !Holds(s.server, INBOX, slot) || !v.accepted then Consumed(c, s, slot, v)
    else BodyFetched(c, s, slot, v)
  }

  // ---- one poll ------------------------------------------------------------------------

  /** An exception ends the loop, and what was fetched before it is kept. */
  ghost function VisitedAll(c: Config, s: State, todo: seq<Slot>, w: World): Step
    decreases |todo|
  {
    if todo == [] then Step(s, [], false)
    else
      var one := Visited(c, s, todo[0], w.visit(todo[0]));
      if one.failed then one
      else
        var rest := VisitedAll(c, one.state, todo[1..], w);
        rest.(got := one.got + rest.got)
  }

  /** SEARCH UNSEEN */
  function UnseenUids(s: Server): set<Slot> {
    set k | k in s.copies && s.copies[k].folder == INBOX && !s.copies[k].seen
  }

  /** `_fetch_new_messages` */
  ghost function FetchedNew(c: Config, s: State, w: World): Step {
    if w.search.Ok? then VisitedAll(c, s, w.list(UnseenUids(s.server)), w) else Step(s, [], w.search.Raised?)
  }

  /** SEARCH HEADER Message-ID */
  function FoundUids(c: Config, s: Server, folder: Folder, messageId: string): set<Slot> {
    set k | k in s.copies && s.copies[k].folder == folder && c.matches(c.idOf(s.copies[k].msg), messageId)
  }

  function MovedAll(s: State, folder: Folder, todo: seq<Slot>, dst: Folder, move: Slot -> MoveOutcomes): State
    decreases |todo|
  {
    if todo == [] then s else MovedAll(Moved(s, folder, todo[0], dst, move(todo[0])), folder, todo[1..], dst, move)
  }

  /** `_finalize_message`: everything the search finds in the mail's folder goes to Done. */
  function Finalized(c: Config, s: State, f: Fetched, h: Handling): State {
    if c.done == "" || c.done == f.source || f.messageId == "" || !h.search.Ok? then s
    else MovedAll(s, f.source, h.list(FoundUids(c, s.server, f.source, f.messageId)), c.done, h.move)
  }

  /** `_dispatch_message`: whether the gate drops the mail, the handler answers or either
      raises, the mail is finalized. */
  function Dispatched(c: Config, s: State, f: Fetched, h: Handling): State {
    Finalized(c, s.(dispatched := s.dispatched + [f.msg]), f, h)
  }

  /** The loop over what was fetched, from the `i`-th on: nothing catches an exception, so the
      first one ends it. */
  function DispatchedFrom(c: Config, s: State, got: seq<Fetched>, i: nat, w: World): State
    requires i <= |got|
    decreases |got| - i
  {
    if i == |got| then s
    else
      var t := Dispatched(c, s, got[i], w.handle(i));
      if w.handle(i).raises then t else DispatchedFrom(c, t, got, i + 1, w)
  }

  /** How many of `n` mails, from the `i`-th on, that loop gets to. */
  function Reached(n: nat, i: nat, w: World): (r: nat)
    requires i <= n
    ensures i <= r <= n
    decreases n - i
  {
    if i == n then n else if w.handle(i).raises then i + 1 else Reached(n, i + 1, w)
  }

  /** `_check_inbox` */
  ghost function Checked(c: Config, s: State, w: World): State {
    var r := FetchedNew(c, s, w);
    DispatchedFrom(c, r.state, r.got, 0, w)
  }

  // ---- runs ----------------------------------------------------------------------------

  datatype Event = Deliver(msg: Msg) | Poll(w: World)

  function Posted(s: Server, m: Msg): Server {
    Server(s.copies[s.next := Copy(m, INBOX, false, false)], s.next + 1)
  }

  /** New mail comes into INBOX, unseen. */
  function Delivered(s: State, m: Msg): State {
    if m in s.arrived then s else s.(server := Posted(s.server, m), arrived := s.arrived + {m})
  }

  ghost function Stepped(c: Config, s: State, e: Event): State {
    match e
    case Deliver(m) => Delivered(s, m)
    case Poll(w) => Checked(c, s, w)
  }

  /** The state after some more events. */
  ghost function After(c: Config, s: State, events: seq<Event>): State {
    if events == [] then s else Stepped(c, After(c, s, events[..|events| - 1]), events[|events| - 1])
  }

  /** Searches list what they find. */
  ghost predicate Legal(events: seq<Event>) {
    forall i :: 0 <= i < |events| && events[i].Poll? ==> events[i].w.Lists()
  }
}
