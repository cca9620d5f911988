/** `_ar_clauses` of roles/k8s_infra/files/hermes_email_gateway_patched.py: the split of an
    Authentication-Results value into clauses.

    The grammar below is a small part of sections 3.2.2 and 3.2.4 of RFC 5322 (comments
    nest, a backslash quotes the next character) with the `;` of section 2.2 of RFC 8601.
    The splitter, which only counts parentheses, is proved to be the exact inverse of the
    grammar's printer. */
module AuthResults {
  import opened Options

  // ---- the grammar and its printer -----------------------------------------------------

  /** The inside of a comment. */
  datatype Comment =
    | CommentEnd
    | CommentChar(c: char, rest: Comment)
    | CommentEscape(c: char, rest: Comment)
    | CommentNested(inner: Comment, rest: Comment)
  {
    predicate Wf() {
      match this
      case CommentEnd => true
      case CommentChar(c, rest) => c !in "()\\" && rest.Wf()
      case CommentEscape(_, rest) => rest.Wf()
      case CommentNested(inner, rest) => inner.Wf() && rest.Wf()
    }

    function Print(): string {
      match this
      case CommentEnd => ""
      case CommentChar(c, rest) => [c] + rest.Print()
      case CommentEscape(c, rest) => ['\\', c] + rest.Print()
      case CommentNested(inner, rest) => "(" + inner.Print() + ")" + rest.Print()
    }
  }

  /** The inside of a quoted-string. */
  datatype Quoted = QuotedEnd | QuotedChar(c: char, rest: Quoted) | QuotedEscape(c: char, rest: Quoted)
  {
    predicate Wf() {
      match this
      case QuotedEnd => true
      case QuotedChar(c, rest) => c !in "\"\\" && rest.Wf()
      case QuotedEscape(_, rest) => rest.Wf()
    }

    function Print(): string {
      match this
      case QuotedEnd => ""
      case QuotedChar(c, rest) => [c] + rest.Print()
      case QuotedEscape(c, rest) => ['\\', c] + rest.Print()
    }
  }

  datatype Clause =
    | ClauseEnd
    | Plain(c: char, rest: Clause)
    | Quote(q: Quoted, rest: Clause)
    | Remark(comment: Comment, rest: Clause)
  {
    predicate Wf() {
      match this
      case ClauseEnd => true
      case Plain(c, rest) => c !in "()\";" && rest.Wf()
      case Quote(q, rest) => q.Wf() && rest.Wf()
      case Remark(comment, rest) => comment.Wf() && rest.Wf()
    }

    function Print(): string {
      match this
      case ClauseEnd => ""
      case Plain(c, rest) => [c] + rest.Print()
      case Quote(q, rest) => "\"" + q.Print() + "\"" + rest.Print()
      case Remark(comment, rest) => "(" + comment.Print() + ")" + rest.Print()
    }

    /** What the splitter keeps: quoted-strings verbatim, each comment as one space. */
    function Kept(): string {
      match this
      case ClauseEnd => ""
      case Plain(c, rest) => [c] + rest.Kept()
      case Quote(q, rest) => "\"" + q.Print() + "\"" + rest.Kept()
      case Remark(_, rest) => " " + rest.Kept()
    }
  }

  /** The clause with a space for each comment. */
  function Spaced(clause: Clause): Clause {
    match clause
    case ClauseEnd => ClauseEnd
    case Plain(c, rest) => Plain(c, Spaced(rest))
    case Quote(q, rest) => Quote(q, Spaced(rest))
    case Remark(_, rest) => Plain(' ', Spaced(rest))
  }

  /** What is kept is the print of that clause: nothing but comments is changed. */
  lemma {:induction false} KeptIsSpaced(clause: Clause)
    ensures clause.Kept() == Spaced(clause).Print()
  {
    match clause
    case ClauseEnd =>
    case Plain(_, rest) => KeptIsSpaced(rest);
    case Quote(_, rest) => KeptIsSpaced(rest);
    case Remark(_, rest) => KeptIsSpaced(rest);
  }

  ghost predicate Wf(clauses: seq<Clause>) {
    |clauses| >= 1 && forall i :: 0 <= i < |clauses| ==> clauses[i].Wf()
  }

  function Print(clauses: seq<Clause>): string
    requires |clauses| >= 1
  {
    if |clauses| == 1 then clauses[0].Print() else clauses[0].Print() + ";" + Print(clauses[1..])
  }

  function Kept(clauses: seq<Clause>): seq<string> {
    if clauses == [] then [] else [clauses[0].Kept()] + Kept(clauses[1..])
  }

  // ---- the splitter --------------------------------------------------------------------

  /** The splitter from a given state on: the clauses still to come, `cur` being begun. */
  function Split(t: string, depth: nat, quoted: bool, cur: string): Option<seq<string>>
    decreases |t|
  {
    if t == "" then (if quoted || depth > 0 then None else Some([cur]))
    else if t[0] == '\\' && (quoted || depth > 0) then
      if |t| == 1 then None
      else Split(t[2..], depth, quoted, if quoted then cur + t[..2] else cur)
    else if quoted then Split(t[1..], depth, t[0] != '"', cur + [t[0]])
    else if depth > 0 then
      var d := if t[0] == '(' then depth + 1 else if t[0] == ')' then depth - 1 else depth;
      Split(t[1..], d, false, if d == 0 then cur + " " else cur)
    else if t[0] == '(' then Split(t[1..], 1, false, cur)
    else if t[0] == '"' then Split(t[1..], 0, true, cur + [t[0]])
    else if t[0] == ')' then None
    else if t[0] == ';' then Prepend(cur, Split(t[1..], 0, false, ""))
    else Split(t[1..], 0, false, cur + [t[0]])
  }

  function Prepend(s: string, r: Option<seq<string>>): Option<seq<string>> {
    if r.None? then None else Some([s] + r.value)
  }

  /** The source's loop. A backslash that ends the text steps past its end. */
  method ArClauses(text: string) returns (r: Option<seq<string>>)
    ensures r == Split(text, 0, false, "")
  {
    var clauses, cur, depth, quoted, i := [], "", 0, false, 0;
    ghost var whole := Split(text, 0, false, "");
    assert text[0..] == text;
    AfterNothing(whole);
    while i < |text|
      invariant 0 <= i <= |text| + 1 && depth >= 0
      invariant i <= |text| ==> whole == After(clauses, Split(text[i..], depth, quoted, cur))
      invariant i > |text| ==> whole == None && (quoted || depth > 0)
      decreases |text| - i
    {
      var c := text[i];
      assert text[i..][1..] == text[i + 1..];
      if c == '\\' && (quoted || depth > 0) {
        if i + 2 <= |text| { assert text[i..][2..] == text[i + 2..] && text[i..][..2] == text[i..i + 2]; }
        if quoted {
          cur := cur + text[i..if i + 2 <= |text| then i + 2 else |text|];
        }
        i := i + 2;
      } else {
        if quoted {
          quoted := c != '"';
          cur := cur + [c];
        } else if depth > 0 {
          depth := depth + (if c == '(' then 1 else if c == ')' then -1 else 0);
          if depth == 0 {
            cur := cur + " ";
          }
        } else if c == '(' {
          depth := 1;
        } else if c == '"' {
          quoted := true;
          cur := cur + [c];
        } else if c == ')' {
          return None;
        } else if c == ';' {
          AfterPrepend(clauses, cur, Split(text[i + 1..], 0, false, ""));
          clauses := clauses + [cur];
          cur := "";
        } else {
          cur := cur + [c];
        }
        i := i + 1;
      }
    }
    if i == |text| { assert text[i..] == ""; }
    r := if quoted || depth > 0 then None else Some(clauses + [cur]);
  }

  function After(clauses: seq<string>, r: Option<seq<string>>): Option<seq<string>> {
    if r.None? then None else Some(clauses + r.value)
  }

  lemma AfterNothing(r: Option<seq<string>>)
    ensures After([], r) == r
  {
    if r.Some? { assert [] + r.value == r.value; }
  }

  lemma AfterPrepend(clauses: seq<string>, cur: string, r: Option<seq<string>>)
    ensures After(clauses, Prepend(cur, r)) == After(clauses + [cur], r)
  {
    if r.Some? { assert clauses + ([cur] + r.value) == clauses + [cur] + r.value; }
  }

  // ---- the splitter, one character at a time -------------------------------------------

  lemma StepInComment(t: string, d: nat, cur: string)
    ensures Split("", d + 1, false, cur) == None
    ensures |t| >= 2 && t[0] == '\\' ==> Split(t, d + 1, false, cur) == Split(t[2..], d + 1, false, cur)
    ensures |t| == 1 && t[0] == '\\' ==> Split(t, d + 1, false, cur) == None
    ensures t != "" && t[0] == '(' ==> Split(t, d + 1, false, cur) == Split(t[1..], d + 2, false, cur)
    ensures t != "" && t[0] == ')' ==>
              Split(t, d + 1, false, cur) == Split(t[1..], d, false, if d == 0 then cur + " " else cur)
    ensures t != "" && t[0] !in "()\\" ==> Split(t, d + 1, false, cur) == Split(t[1..], d + 1, false, cur)
  {
  }

  lemma StepInQuotes(t: string, cur: string)
    ensures Split("", 0, true, cur) == None
    ensures |t| >= 2 && t[0] == '\\' ==> Split(t, 0, true, cur) == Split(t[2..], 0, true, cur + t[..2])
    ensures |t| == 1 && t[0] == '\\' ==> Split(t, 0, true, cur) == None
    ensures t != "" && t[0] == '"' ==> Split(t, 0, true, cur) == Split(t[1..], 0, false, cur + "\"")
    ensures t != "" && t[0] !in "\"\\" ==> Split(t, 0, true, cur) == Split(t[1..], 0, true, cur + [t[0]])
  {
    if t != "" && t[0] == '"' { assert [t[0]] == "\""; }
  }

  lemma StepOutside(t: string, cur: string)
    ensures Split("", 0, false, cur) == Some([cur])
    ensures t != "" && t[0] == '(' ==> Split(t, 0, false, cur) == Split(t[1..], 1, false, cur)
    ensures t != "" && t[0] == '"' ==> Split(t, 0, false, cur) == Split(t[1..], 0, true, cur + "\"")
    ensures t != "" && t[0] == ')' ==> Split(t, 0, false, cur) == None
    ensures t != "" && t[0] == ';' ==> Split(t, 0, false, cur) == Prepend(cur, Split(t[1..], 0, false, ""))
    ensures t != "" && t[0] !in "()\";" ==> Split(t, 0, false, cur) == Split(t[1..], 0, false, cur + [t[0]])
  {
    if t != "" && t[0] == '"' { assert [t[0]] == "\""; }
  }

  // ---- splitting what was printed ------------------------------------------------------

  lemma {:induction false} SplitComment(c: Comment, t: string, d: nat, cur: string)
    requires c.Wf()
    ensures Split(c.Print() + ")" + t, d + 1, false, cur) == Split(t, d, false, if d == 0 then cur + " " else cur)
    decreases c
  {
    hide Split;
    var s := c.Print() + ")" + t;
    StepInComment(s, d, cur);
    match c
    case CommentEnd =>
      assert s[1..] == t;
    case CommentChar(_, rest) =>
      assert s[1..] == rest.Print() + ")" + t;
      SplitComment(rest, t, d, cur);
    case CommentEscape(_, rest) =>
      assert s[2..] == rest.Print() + ")" + t;
      SplitComment(rest, t, d, cur);
    case CommentNested(inner, rest) =>
      NestedIs(inner.Print(), rest.Print(), t);
      SplitComment(inner, rest.Print() + ")" + t, d + 1, cur);
      SplitComment(rest, t, d, cur);
  }

  lemma NestedIs(inner: string, rest: string, t: string)
    ensures ("(" + inner + ")" + rest + ")" + t)[1..] == inner + ")" + (rest + ")" + t)
  {
  }

  lemma {:induction false} SplitQuoted(q: Quoted, t: string, cur: string)
    requires q.Wf()
    ensures Split(q.Print() + "\"" + t, 0, true, cur) == Split(t, 0, false, cur + q.Print() + "\"")
    decreases q
  {
    hide Split;
    var s := q.Print() + "\"" + t;
    StepInQuotes(s, cur);
    match q
    case QuotedEnd =>
      assert s[1..] == t;
      assert cur + "" + "\"" == cur + [s[0]];
    case QuotedChar(c, rest) =>
      assert s[1..] == rest.Print() + "\"" + t;
      SplitQuoted(rest, t, cur + [c]);
      assert cur + ([c] + rest.Print()) == cur + [c] + rest.Print();
    case QuotedEscape(c, rest) =>
      assert s[2..] == rest.Print() + "\"" + t && s[..2] == ['\\', c];
      SplitQuoted(rest, t, cur + ['\\', c]);
      assert cur + (['\\', c] + rest.Print()) == cur + ['\\', c] + rest.Print();
  }

  lemma {:induction false} SplitClause(cl: Clause, t: string, cur: string)
    requires cl.Wf()
    ensures Split(cl.Print() + t, 0, false, cur) == Split(t, 0, false, cur + cl.Kept())
    decreases cl
  {
    hide Split;
    var s := cl.Print() + t;
    StepOutside(s, cur);
    match cl
    case ClauseEnd =>
      assert s == t && cur + "" == cur;
    case Plain(c, rest) =>
      assert s[1..] == rest.Print() + t;
      SplitClause(rest, t, cur + [c]);
      SumIsAssociative(cur, [c], rest.Kept());
    case Quote(q, rest) =>
      QuoteIs(q.Print(), rest.Print(), t);
      SplitQuoted(q, rest.Print() + t, cur + "\"");
      SplitClause(rest, t, cur + "\"" + q.Print() + "\"");
      KeepsQuote(cur, q.Print(), rest.Kept());
    case Remark(comment, rest) =>
      RemarkIs(comment.Print(), rest.Print(), t);
      SplitComment(comment, rest.Print() + t, 0, cur);
      SplitClause(rest, t, cur + " ");
      SumIsAssociative(cur, " ", rest.Kept());
  }

  lemma QuoteIs(q: string, rest: string, t: string)
    ensures ("\"" + q + "\"" + rest + t)[1..] == q + "\"" + (rest + t)
  {
  }

  lemma RemarkIs(c: string, rest: string, t: string)
    ensures ("(" + c + ")" + rest + t)[1..] == c + ")" + (rest + t)
  {
  }

  /** Splitting what was printed gives every clause back, comments as one space. */
  lemma {:induction false} SplitInvertsPrint(clauses: seq<Clause>)
    requires Wf(clauses)
    ensures Split(Print(clauses), 0, false, "") == Some(Kept(clauses))
    decreases |clauses|
  {
    hide Split;
    var first := clauses[0];
    assert "" + first.Kept() == first.Kept();
    if |clauses| == 1 {
      StepOutside("", first.Kept());
      SplitClause(first, "", "");
      assert first.Print() + "" == first.Print();
      KeptOne(clauses);
    } else {
      var t := ";" + Print(clauses[1..]);
      StepOutside(t, first.Kept());
      SplitClause(first, t, "");
      assert t[1..] == Print(clauses[1..]);
      SplitInvertsPrint(clauses[1..]);
      PrintMore(clauses);
    }
  }

  lemma KeptOne(clauses: seq<Clause>)
    requires |clauses| == 1
    ensures Kept(clauses) == [clauses[0].Kept()] && Print(clauses) == clauses[0].Print()
  {
    assert Kept(clauses[1..]) == [];
  }

  lemma PrintMore(clauses: seq<Clause>)
    requires |clauses| > 1
    ensures Print(clauses) == clauses[0].Print() + (";" + Print(clauses[1..]))
    ensures Kept(clauses) == [clauses[0].Kept()] + Kept(clauses[1..])
  {
  }

  // ---- everything that splits was printed ----------------------------------------------

  /** Inside a comment that is closed later: its content, and the text behind it. */
  lemma {:induction false} ReadComment(t: string, d: nat, cur: string) returns (c: Comment, rest: string)
    requires Split(t, d + 1, false, cur).Some?
    ensures c.Wf() && t == c.Print() + ")" + rest
    ensures Split(rest, d, false, if d == 0 then cur + " " else cur) == Split(t, d + 1, false, cur)
    decreases |t|
  {
    hide Split;
    StepInComment(t, d, cur);
    if t[0] == '\\' {
      var c1;
      c1, rest := ReadComment(t[2..], d, cur);
      c := CommentEscape(t[1], c1);
      assert t == t[..2] + t[2..];
    } else if t[0] == ')' {
      c, rest := CommentEnd, t[1..];
    } else if t[0] == '(' {
      var inner, r1 := ReadComment(t[1..], d + 1, cur);
      var c1;
      c1, rest := ReadComment(r1, d, cur);
      c := CommentNested(inner, c1);
    } else {
      var c1;
      c1, rest := ReadComment(t[1..], d, cur);
      c := CommentChar(t[0], c1);
    }
  }

  lemma {:induction false} ReadQuoted(t: string, cur: string) returns (q: Quoted, rest: string)
    requires Split(t, 0, true, cur).Some?
    ensures q.Wf() && t == q.Print() + "\"" + rest
    ensures Split(rest, 0, false, cur + q.Print() + "\"") == Split(t, 0, true, cur)
    decreases |t|
  {
    hide Split;
    StepInQuotes(t, cur);
    if t[0] == '\\' {
      var q1;
      q1, rest := ReadQuoted(t[2..], cur + t[..2]);
      q := QuotedEscape(t[1], q1);
      assert t == t[..2] + t[2..];
      assert cur + (['\\', t[1]] + q1.Print()) == cur + t[..2] + q1.Print();
    } else if t[0] == '"' {
      q, rest := QuotedEnd, t[1..];
      assert cur + "" + "\"" == cur + [t[0]];
    } else {
      var q1;
      q1, rest := ReadQuoted(t[1..], cur + [t[0]]);
      q := QuotedChar(t[0], q1);
      assert cur + ([t[0]] + q1.Print()) == cur + [t[0]] + q1.Print();
    }
  }

  /** One clause, up to its `;` or the end of the text. */
  lemma {:induction false} ReadClause(t: string, cur: string) returns (cl: Clause, rest: string)
    requires Split(t, 0, false, cur).Some?
    ensures cl.Wf() && t == cl.Print() + rest && (rest == "" || rest[0] == ';')
    ensures Split(rest, 0, false, cur + cl.Kept()) == Split(t, 0, false, cur)
    decreases |t|
  {
    hide Split;
    StepOutside(t, cur);
    if t == "" || t[0] == ';' {
      cl, rest := ClauseEnd, t;
      assert cur + "" == cur;
    } else if t[0] == '(' {
      var c, r1 := ReadComment(t[1..], 0, cur);
      var cl1;
      cl1, rest := ReadClause(r1, cur + " ");
      cl := Remark(c, cl1);
      SumIsAssociative(cur, " ", cl1.Kept());
      PrintsRemark(t, c, cl1, r1, rest);
    } else if t[0] == '"' {
      var q, r1 := ReadQuoted(t[1..], cur + "\"");
      var cl1;
      cl1, rest := ReadClause(r1, cur + "\"" + q.Print() + "\"");
      cl := Quote(q, cl1);
      KeepsQuote(cur, q.Print(), cl1.Kept());
      PrintsQuote(t, q, cl1, r1, rest);
    } else {
      var cl1;
      cl1, rest := ReadClause(t[1..], cur + [t[0]]);
      cl := Plain(t[0], cl1);
      SumIsAssociative(cur, [t[0]], cl1.Kept());
      assert t == [t[0]] + t[1..];
      SumIsAssociative([t[0]], cl1.Print(), rest);
    }
  }

  /** Reassociating the text around the parts of a printed clause. */
  lemma SumIsAssociative(a: string, b: string, c: string)
    ensures a + (b + c) == a + b + c
  {
  }

  lemma KeepsQuote(cur: string, q: string, kept: string)
    ensures cur + ("\"" + q + "\"" + kept) == cur + "\"" + q + "\"" + kept
  {
  }

  lemma PrintsRemark(t: string, c: Comment, cl: Clause, r1: string, rest: string)
    requires t != "" && t[0] == '(' && t[1..] == c.Print() + ")" + r1 && r1 == cl.Print() + rest
    ensures t == Remark(c, cl).Print() + rest
  {
    hide Comment.Print;
    assert Remark(c, cl).Print() == "(" + c.Print() + ")" + cl.Print();
    assert t == "(" + t[1..];
  }

  lemma PrintsQuote(t: string, q: Quoted, cl: Clause, r1: string, rest: string)
    requires t != "" && t[0] == '"' && t[1..] == q.Print() + "\"" + r1 && r1 == cl.Print() + rest
    ensures t == Quote(q, cl).Print() + rest
  {
    hide Quoted.Print;
    assert Quote(q, cl).Print() == "\"" + q.Print() + "\"" + cl.Print();
    assert t == "\"" + t[1..];
  }

  lemma {:induction false} ReadClauses(t: string) returns (clauses: seq<Clause>)
    requires Split(t, 0, false, "").Some?
    ensures Wf(clauses) && Print(clauses) == t
    decreases |t|
  {
    hide Split;
    var cl, rest := ReadClause(t, "");
    StepOutside(rest, "" + cl.Kept());
    if rest == "" {
      clauses := [cl];
    } else {
      var more := ReadClauses(rest[1..]);
      clauses := [cl] + more;
      assert clauses[1..] == more && rest == ";" + rest[1..];
    }
  }

  /** The splitter refuses exactly the texts that are no list of clauses: those with an
      unbalanced quote or comment. */
  lemma RefusesExactlyTheMalformed(t: string)
    ensures Split(t, 0, false, "").Some? <==> exists clauses :: Wf(clauses) && Print(clauses) == t
  {
    if Split(t, 0, false, "").Some? {
      var clauses := ReadClauses(t);
      assert Wf(clauses) && Print(clauses) == t;
    }
    if clauses :| Wf(clauses) && Print(clauses) == t {
      SplitInvertsPrint(clauses);
    }
  }
}
