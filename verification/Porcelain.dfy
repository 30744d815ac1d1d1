/** The parser of `git worktree list --porcelain -z`. */
module Porcelain {
  import opened Wrappers

  datatype Worktree = Worktree(
    path: string,
    head: Option<string>,
    branch: Option<string>,
    lockedReason: Option<string>,
    prunableReason: Option<string>)

  const NUL: char := '\0'

  /** `split` at every NUL: always at least one token. */
  function Tokens(output: string): (r: seq<string>)
    ensures r != []
  {
    if output == "" then [""]
    else
      var init, last := output[..|output| - 1], output[|output| - 1];
      var tokens := Tokens(init);
      if last == NUL then tokens + [""]
      else tokens[..|tokens| - 1] + [tokens[|tokens| - 1] + [last]]
  }

  predicate StartsWith(token: string, prefix: string) {
    |prefix| <= |token| && token[..|prefix|] == prefix
  }

  /** The worktrees complete so far and the one being read. */
  datatype State = State(done: seq<Worktree>, current: Option<Worktree>)

  function Flush(s: State): State {
    if s.current.Some? then State(s.done + [s.current.value], None) else s
  }

  function Attribute(w: Worktree, token: string): Worktree {
    if StartsWith(token, "HEAD ") then w.(head := Some(token[5..]))
    else if StartsWith(token, "branch ") then w.(branch := Some(token[7..]))
    else if token == "locked" then w.(lockedReason := Some(""))
    else if StartsWith(token, "locked ") then w.(lockedReason := Some(token[7..]))
    else if token == "prunable" then w.(prunableReason := Some(""))
    else if StartsWith(token, "prunable ") then w.(prunableReason := Some(token[9..]))
    else w
  }

  function Take(s: State, token: string): State {
    if token == "" then Flush(s)
    else if StartsWith(token, "worktree ") then
      State(Flush(s).done, Some(Worktree(token[9..], None, None, None, None)))
    else if s.current.None? then s
    else s.(current := Some(Attribute(s.current.value, token)))
  }

  function TakeAll(s: State, tokens: seq<string>): State {
    if tokens == [] then s else Take(TakeAll(s, tokens[..|tokens| - 1]), tokens[|tokens| - 1])
  }

  function Parsed(output: string): seq<Worktree> {
    Flush(TakeAll(State([], None), Tokens(output))).done
  }

  /** The token loop. */
  method ParseWorktreePorcelain(output: string) returns (worktrees: seq<Worktree>)
    ensures worktrees == Parsed(output)
  {
    worktrees := [];
    var current: Option<Worktree> := None;
    var tokens := Tokens(output);
    var i := 0;
    while i < |tokens|
      invariant 0 <= i <= |tokens|
      invariant State(worktrees, current) == TakeAll(State([], None), tokens[..i])
    {
      var token := tokens[i];
      assert tokens[..i + 1][..i] == tokens[..i];
      i := i + 1;
      if token == "" {
        if current.Some? {
          worktrees := worktrees + [current.value];
          current := None;
        }
        continue;
      }
      if StartsWith(token, "worktree ") {
        if current.Some? {
          worktrees := worktrees + [current.value];
        }
        current := Some(Worktree(token[9..], None, None, None, None));
        continue;
      }
      if current.None? {
        continue;
      }
      if StartsWith(token, "HEAD ") {
        current := Some(current.value.(head := Some(token[5..])));
      } else if StartsWith(token, "branch ") {
        current := Some(current.value.(branch := Some(token[7..])));
      } else if token == "locked" {
        current := Some(current.value.(lockedReason := Some("")));
      } else if StartsWith(token, "locked ") {
        current := Some(current.value.(lockedReason := Some(token[7..])));
      } else if token == "prunable" {
        current := Some(current.value.(prunableReason := Some("")));
      } else if StartsWith(token, "prunable ") {
        current := Some(current.value.(prunableReason := Some(token[9..])));
      }
    }
    assert tokens[..i] == tokens;
    if current.Some? {
      worktrees := worktrees + [current.value];
    }
  }

  // ---- The printing it inverts. ----

  /** A record as Git prints it: its fields and attributes that the parser does not know, such
      as `bare` and `detached`. */
  datatype Printed = Printed(worktree: Worktree, afterPath: seq<string>, afterHead: seq<string>, afterBranch: seq<string>, atEnd: seq<string>)

  function Field(name: string, value: Option<string>): seq<string> {
    if value.Some? then [name + value.value] else []
  }

  /** A reason may be absent, empty (a bare word) or given. */
  function Reason(name: string, value: Option<string>): seq<string> {
    match value
    case None => []
    case Some(reason) => if reason == "" then [name] else [name + " " + reason]
  }

  function Lines(p: Printed): seq<string> {
    ["worktree " + p.worktree.path] + p.afterPath
    + Field("HEAD ", p.worktree.head) + p.afterHead
    + Field("branch ", p.worktree.branch) + p.afterBranch
    + Reason("locked", p.worktree.lockedReason)
    + Reason("prunable", p.worktree.prunableReason) + p.atEnd
  }

  function PrintLines(lines: seq<string>): string {
    if lines == [] then "" else PrintLines(lines[..|lines| - 1]) + lines[|lines| - 1] + [NUL]
  }

  /** Every line ends in a NUL, and every record in one more. */
  function Print(records: seq<Printed>): string {
    if records == [] then ""
    else Print(records[..|records| - 1]) + PrintLines(Lines(records[|records| - 1])) + [NUL]
  }

  /** A token that the parser passes over. */
  predicate Ignored(token: string) {
    && token != "" && NUL !in token
    && !StartsWith(token, "worktree ") && !StartsWith(token, "HEAD ") && !StartsWith(token, "branch ")
    && token != "locked" && !StartsWith(token, "locked ")
    && token != "prunable" && !StartsWith(token, "prunable ")
  }

  predicate NulFree(value: Option<string>) {
    value.Some? ==> NUL !in value.value
  }

  predicate Printable(p: Printed) {
    && NUL !in p.worktree.path && NulFree(p.worktree.head) && NulFree(p.worktree.branch)
    && NulFree(p.worktree.lockedReason) && NulFree(p.worktree.prunableReason)
    && (forall t :: t in p.afterPath ==> Ignored(t)) && (forall t :: t in p.afterHead ==> Ignored(t))
    && (forall t :: t in p.afterBranch ==> Ignored(t)) && (forall t :: t in p.atEnd ==> Ignored(t))
  }

  lemma {:induction false} TakeConcat(s: State, a: seq<string>, b: seq<string>)
    ensures TakeAll(s, a + b) == TakeAll(TakeAll(s, a), b)
  {
    if b == [] {
      assert a + b == a;
    } else {
      var init := b[..|b| - 1];
      assert (a + b)[..|a + b| - 1] == a + init;
      TakeConcat(s, a, init);
    }
  }

  lemma {:induction false} TakeOne(s: State, token: string)
    ensures TakeAll(s, [token]) == Take(s, token)
  {
    assert [token][..0] == [];
    assert TakeAll(s, []) == s;
  }

  lemma {:induction false} TakeIgnored(s: State, tokens: seq<string>)
    requires s.current.Some? && forall t :: t in tokens ==> Ignored(t)
    ensures TakeAll(s, tokens) == s
  {
    if tokens != [] {
      TakeIgnored(s, tokens[..|tokens| - 1]);
      assert tokens[|tokens| - 1] in tokens;
    }
  }

  /** NUL-free text behind the output only lengthens its last token. */
  lemma {:induction false} TokensExtend(output: string, tokens: seq<string>, token: string, line: string)
    requires NUL !in line && Tokens(output) == tokens + [token]
    ensures Tokens(output + line) == tokens + [token + line]
  {
    if line == "" {
      assert output + line == output && token + line == token;
    } else {
      var init, last := line[..|line| - 1], line[|line| - 1];
      TokensExtend(output, tokens, token, init);
      assert last in line;
      assert (output + line)[..|output + line| - 1] == output + init;
      assert token + init + [last] == token + line;
    }
  }

  lemma {:induction false} TokensLine(output: string, tokens: seq<string>, line: string)
    requires NUL !in line && Tokens(output) == tokens + [""]
    ensures Tokens(output + line + [NUL]) == tokens + [line, ""]
  {
    TokensExtend(output, tokens, "", line);
    assert (output + line + [NUL])[..|output + line|] == output + line;
    assert "" + line == line;
  }

  lemma {:induction false} TokensLines(output: string, tokens: seq<string>, lines: seq<string>)
    requires Tokens(output) == tokens + [""] && forall line :: line in lines ==> NUL !in line
    ensures Tokens(output + PrintLines(lines)) == tokens + lines + [""]
  {
    if lines == [] {
      assert output + PrintLines(lines) == output;
    } else {
      var init, last := lines[..|lines| - 1], lines[|lines| - 1];
      TokensLines(output, tokens, init);
      assert last in lines;
      TokensLine(output + PrintLines(init), tokens + init, last);
      LinesAppended(output, tokens, lines);
    }
  }

  lemma {:induction false} LinesAppended(output: string, tokens: seq<string>, lines: seq<string>)
    requires lines != []
    ensures var init, last := lines[..|lines| - 1], lines[|lines| - 1];
            && output + PrintLines(lines) == output + PrintLines(init) + last + [NUL]
            && tokens + init + [last, ""] == tokens + lines + [""]
  {
  }

  function AllTokens(records: seq<Printed>): seq<string> {
    if records == [] then [] else AllTokens(records[..|records| - 1]) + Lines(records[|records| - 1]) + [""]
  }

  lemma {:induction false} LinesNulFree(p: Printed)
    requires Printable(p)
    ensures forall line :: line in Lines(p) ==> NUL !in line
  {
  }

  lemma {:induction false} PrintTokens(records: seq<Printed>)
    requires forall p :: p in records ==> Printable(p)
    ensures Tokens(Print(records)) == AllTokens(records) + [""]
  {
    if records != [] {
      var init, last := records[..|records| - 1], records[|records| - 1];
      PrintTokens(init);
      assert last in records;
      LinesNulFree(last);
      TokensLines(Print(init), AllTokens(init), Lines(last));
      TokensLine(Print(init) + PrintLines(Lines(last)), AllTokens(init) + Lines(last), "");
      assert Print(records) == Print(init) + PrintLines(Lines(last)) + "" + [NUL];
      assert AllTokens(init) + Lines(last) + ["", ""] == AllTokens(records) + [""];
    } else {
      assert Tokens(Print(records)) == [""];
    }
  }

  lemma {:induction false} TakeField(s: State, name: string, value: Option<string>, w: Worktree)
    requires s.current.Some? && name in {"HEAD ", "branch "}
    requires w == if value.None? then s.current.value
                  else if name == "HEAD " then s.current.value.(head := value) else s.current.value.(branch := value)
    ensures TakeAll(s, Field(name, value)) == s.(current := Some(w))
  {
    if value.Some? {
      var token := name + value.value;
      TakeOne(s, token);
      assert token[..|name|] == name && token[|name|..] == value.value;
      assert token[0] == name[0];
    }
  }

  lemma {:induction false} TakeReason(s: State, name: string, value: Option<string>, w: Worktree)
    requires s.current.Some? && name in {"locked", "prunable"}
    requires w == if value.None? then s.current.value
                  else if name == "locked" then s.current.value.(lockedReason := value) else s.current.value.(prunableReason := value)
    ensures TakeAll(s, Reason(name, value)) == s.(current := Some(w))
  {
    if value.Some? {
      var token := if value.value == "" then name else name + " " + value.value;
      TakeOne(s, token);
      assert token[0] == name[0];
      if value.value != "" {
        assert token[..|name| + 1] == name + " " && token[|name| + 1..] == value.value;
        assert |token| > |name|;
      }
    }
  }

  /** Reading the lines of one record makes exactly that record current. */
  lemma {:induction false} TakeLines(s: State, p: Printed)
    requires Printable(p) && s.current.None?
    ensures TakeAll(s, Lines(p)) == State(s.done, Some(p.worktree))
  {
    var w := p.worktree;
    var w0 := Worktree(w.path, None, None, None, None);
    var w1 := w0.(head := w.head);
    var w2 := w1.(branch := w.branch);
    var w3 := w2.(lockedReason := w.lockedReason);
    var first := "worktree " + w.path;
    TakeOne(s, first);
    assert first[..9] == "worktree " && first[9..] == w.path;
    var s0, s1 := State(s.done, Some(w0)), State(s.done, Some(w1));
    var s2, s3 := State(s.done, Some(w2)), State(s.done, Some(w3));
    var l1 := [first] + p.afterPath;
    TakeConcat(s, [first], p.afterPath);
    TakeIgnored(s0, p.afterPath);
    var l2 := l1 + Field("HEAD ", w.head);
    TakeConcat(s, l1, Field("HEAD ", w.head));
    TakeField(s0, "HEAD ", w.head, w1);
    var l3 := l2 + p.afterHead;
    TakeConcat(s, l2, p.afterHead);
    TakeIgnored(s1, p.afterHead);
    var l4 := l3 + Field("branch ", w.branch);
    TakeConcat(s, l3, Field("branch ", w.branch));
    TakeField(s1, "branch ", w.branch, w2);
    var l5 := l4 + p.afterBranch;
    TakeConcat(s, l4, p.afterBranch);
    TakeIgnored(s2, p.afterBranch);
    var l6 := l5 + Reason("locked", w.lockedReason);
    TakeConcat(s, l5, Reason("locked", w.lockedReason));
    TakeReason(s2, "locked", w.lockedReason, w3);
    var l7 := l6 + Reason("prunable", w.prunableReason);
    TakeConcat(s, l6, Reason("prunable", w.prunableReason));
    TakeReason(s3, "prunable", w.prunableReason, w);
    TakeConcat(s, l7, p.atEnd);
    TakeIgnored(State(s.done, Some(w)), p.atEnd);
  }

  function Worktrees(records: seq<Printed>): seq<Worktree> {
    if records == [] then [] else Worktrees(records[..|records| - 1]) + [records[|records| - 1].worktree]
  }

  lemma {:induction false} TakeRecords(records: seq<Printed>)
    requires forall p :: p in records ==> Printable(p)
    ensures TakeAll(State([], None), AllTokens(records)) == State(Worktrees(records), None)
  {
    if records != [] {
      var init, last := records[..|records| - 1], records[|records| - 1];
      TakeRecords(init);
      assert last in records;
      var s := State(Worktrees(init), None);
      TakeConcat(State([], None), AllTokens(init), Lines(last));
      TakeLines(s, last);
      TakeConcat(State([], None), AllTokens(init) + Lines(last), [""]);
      TakeOne(State(s.done, Some(last.worktree)), "");
    }
  }

  /** Parsing inverts printing, for every list of records with NUL-free fields. */
  lemma {:induction false} ParseInvertsPrint(records: seq<Printed>)
    requires forall p :: p in records ==> Printable(p)
    ensures Parsed(Print(records)) == Worktrees(records)
  {
    PrintTokens(records);
    TakeRecords(records);
    TakeConcat(State([], None), AllTokens(records), [""]);
    TakeOne(State(Worktrees(records), None), "");
  }

  /** `bare` and `detached` are among the attributes that are passed over. */
  lemma {:induction false} BareAndDetachedIgnored()
    ensures Ignored("bare") && Ignored("detached")
  {
    assert "detached"[..5][0] == 'd' && "detached"[..7][0] == 'd';
  }

  // ---- What any output parses to. ----

  /** A token that ends the record before it. */
  predicate Parts(token: string) {
    token == "" || StartsWith(token, "worktree ")
  }

  /** Token k belongs to the record that begins at token i. */
  predicate Within(ts: seq<string>, i: nat, k: nat) {
    i < k < |ts| && forall m :: i < m <= k ==> !Parts(ts[m])
  }

  /** A token that gives this value to a field, by its name and a blank, or gives a reason. */
  predicate Gives(token: string, name: string, bare: bool, value: string) {
    (bare && token == name && value == "") || token == name + " " + value
  }

  predicate Names(token: string, name: string, bare: bool) {
    (bare && token == name) || StartsWith(token, name + " ")
  }

  /** No token of the record behind token j names the field. */
  ghost predicate NoneNames(ts: seq<string>, i: nat, j: nat, name: string, bare: bool) {
    forall m: nat :: j < m && Within(ts, i, m) ==> !Names(ts[m], name, bare)
  }

  ghost predicate GivesLast(ts: seq<string>, i: nat, name: string, bare: bool, value: string, k: nat) {
    Within(ts, i, k) && Gives(ts[k], name, bare, value) && NoneNames(ts, i, k, name, bare)
  }

  /** The last token of the record that names the field gives its value. */
  ghost predicate LastGives(ts: seq<string>, i: nat, name: string, bare: bool, value: Option<string>) {
    match value
    case None => NoneNames(ts, i, i, name, bare)
    case Some(v) => exists k: nat :: GivesLast(ts, i, name, bare, v, k)
  }

  /** The record that begins at token i: its path, and for every field the last token that gives it. */
  ghost predicate Describes(ts: seq<string>, i: nat, w: Worktree) {
    && i < |ts| && ts[i] == "worktree " + w.path
    && LastGives(ts, i, "HEAD", false, w.head) && LastGives(ts, i, "branch", false, w.branch)
    && LastGives(ts, i, "locked", true, w.lockedReason) && LastGives(ts, i, "prunable", true, w.prunableReason)
  }

  /** Exactly the positions at which a record begins, in order. */
  ghost predicate AllStarts(ts: seq<string>, starts: seq<nat>) {
    && (forall j, k :: 0 <= j < k < |starts| ==> starts[j] < starts[k])
    && (forall i: nat :: i in starts <==> i < |ts| && StartsWith(ts[i], "worktree "))
  }

  /** Some token ends the record that begins at token i. */
  ghost predicate Closed(ts: seq<string>, i: nat) {
    exists m :: i < m < |ts| && Parts(ts[m])
  }

  function Records(s: State): seq<Worktree> {
    s.done + if s.current.Some? then [s.current.value] else []
  }

  /** The state says what the tokens so far say. */
  ghost predicate Tells(ts: seq<string>, starts: seq<nat>, s: State) {
    && AllStarts(ts, starts) && |Records(s)| == |starts|
    && (forall k :: 0 <= k < |starts| ==> Describes(ts, starts[k], Records(s)[k]))
    && (forall k :: 0 <= k < |s.done| ==> Closed(ts, starts[k]))
    && (s.current.Some? ==> !Closed(ts, starts[|s.done|]))
  }

  lemma {:induction false} SameWithin(ts: seq<string>, token: string, i: nat, k: nat)
    requires Closed(ts, i)
    ensures Within(ts + [token], i, k) <==> Within(ts, i, k)
  {
    var m :| i < m < |ts| && Parts(ts[m]);
    assert (ts + [token])[m] == ts[m];
    if Within(ts, i, k) {
      forall m | i < m <= k ensures !Parts((ts + [token])[m]) {
        assert (ts + [token])[m] == ts[m];
      }
    }
    if Within(ts + [token], i, k) {
      assert k < m;
      forall m | i < m <= k ensures !Parts(ts[m]) {
        assert (ts + [token])[m] == ts[m];
      }
    }
  }

  lemma {:induction false} ClosedNone(ts: seq<string>, token: string, i: nat, j: nat, name: string, bare: bool)
    requires Closed(ts, i) && NoneNames(ts, i, j, name, bare)
    ensures NoneNames(ts + [token], i, j, name, bare)
  {
    forall m: nat | j < m && Within(ts + [token], i, m) ensures !Names((ts + [token])[m], name, bare) {
      SameWithin(ts, token, i, m);
      assert (ts + [token])[m] == ts[m];
    }
  }

  lemma {:induction false} ClosedField(ts: seq<string>, token: string, i: nat, name: string, bare: bool, value: Option<string>)
    requires Closed(ts, i) && LastGives(ts, i, name, bare, value)
    ensures LastGives(ts + [token], i, name, bare, value)
  {
    match value {
      case None => ClosedNone(ts, token, i, i, name, bare);
      case Some(v) =>
        var k: nat :| GivesLast(ts, i, name, bare, v, k);
        SameWithin(ts, token, i, k);
        ClosedNone(ts, token, i, k, name, bare);
        assert (ts + [token])[k] == ts[k];
        assert GivesLast(ts + [token], i, name, bare, v, k);
    }
  }

  /** A record that has ended stays as it is. */
  lemma {:induction false} ClosedStays(ts: seq<string>, token: string, i: nat, w: Worktree)
    requires Closed(ts, i) && Describes(ts, i, w)
    ensures Closed(ts + [token], i) && Describes(ts + [token], i, w)
  {
    var m :| i < m < |ts| && Parts(ts[m]);
    assert (ts + [token])[m] == ts[m];
    assert (ts + [token])[i] == ts[i];
    ClosedField(ts, token, i, "HEAD", false, w.head);
    ClosedField(ts, token, i, "branch", false, w.branch);
    ClosedField(ts, token, i, "locked", true, w.lockedReason);
    ClosedField(ts, token, i, "prunable", true, w.prunableReason);
  }

  // ---- The record being read. ----

  lemma {:induction false} OpenWithin(ts: seq<string>, token: string, i: nat, k: nat)
    requires i < |ts| && !Closed(ts, i) && !Parts(token)
    ensures Within(ts, i, k) <==> i < k < |ts|
    ensures Within(ts + [token], i, k) <==> i < k <= |ts|
  {
    var us := ts + [token];
    forall m | i < m < |ts| ensures !Parts(ts[m]) && us[m] == ts[m] {
    }
  }

  /** A token that does not name a field leaves its value; one that does gives it. */
  lemma {:induction false} OpenField(ts: seq<string>, token: string, i: nat, name: string, bare: bool, before: Option<string>, after: Option<string>)
    requires i < |ts| && !Closed(ts, i) && !Parts(token) && LastGives(ts, i, name, bare, before)
    requires if Names(token, name, bare) then after.Some? && Gives(token, name, bare, after.value) else after == before
    ensures LastGives(ts + [token], i, name, bare, after)
  {
    var us := ts + [token];
    OpenWithin(ts, token, i, |ts|);
    assert us[|ts|] == token;
    if Names(token, name, bare) {
      assert NoneNames(us, i, |ts|, name, bare);
      assert GivesLast(us, i, name, bare, after.value, |ts|);
    } else if after.None? {
      OpenNone(ts, token, i, i, name, bare);
    } else {
      var k: nat :| GivesLast(ts, i, name, bare, after.value, k);
      OpenWithin(ts, token, i, k);
      OpenNone(ts, token, i, k, name, bare);
      assert us[k] == ts[k];
      assert GivesLast(us, i, name, bare, after.value, k);
    }
  }

  lemma {:induction false} OpenNone(ts: seq<string>, token: string, i: nat, j: nat, name: string, bare: bool)
    requires i < |ts| && !Closed(ts, i) && !Parts(token) && NoneNames(ts, i, j, name, bare) && !Names(token, name, bare)
    ensures NoneNames(ts + [token], i, j, name, bare)
  {
    forall m: nat | j < m && Within(ts + [token], i, m) ensures !Names((ts + [token])[m], name, bare) {
      OpenWithin(ts, token, i, m);
      if m < |ts| {
        assert (ts + [token])[m] == ts[m];
      }
    }
  }

  lemma {:induction false} PrefixGives(token: string, name: string)
    requires StartsWith(token, name + " ")
    ensures Gives(token, name, false, token[|name| + 1..]) && Gives(token, name, true, token[|name| + 1..])
  {
    assert token == token[..|name| + 1] + token[|name| + 1..];
  }

  /** The fields after one more token, each by itself. */
  lemma {:induction false} AttributeGives(w: Worktree, token: string)
    ensures var v := Attribute(w, token);
            && v.path == w.path
            && (if Names(token, "HEAD", false) then v.head.Some? && Gives(token, "HEAD", false, v.head.value) else v.head == w.head)
            && (if Names(token, "branch", false) then v.branch.Some? && Gives(token, "branch", false, v.branch.value) else v.branch == w.branch)
            && (if Names(token, "locked", true) then v.lockedReason.Some? && Gives(token, "locked", true, v.lockedReason.value)
                else v.lockedReason == w.lockedReason)
            && (if Names(token, "prunable", true) then v.prunableReason.Some? && Gives(token, "prunable", true, v.prunableReason.value)
                else v.prunableReason == w.prunableReason)
  {
    FirstLetters(token);
    assert "HEAD" + " " == "HEAD " && "branch" + " " == "branch " && "locked" + " " == "locked " && "prunable" + " " == "prunable ";
    if StartsWith(token, "HEAD ") {
      PrefixGives(token, "HEAD");
    } else if StartsWith(token, "branch ") {
      PrefixGives(token, "branch");
    } else if StartsWith(token, "locked ") {
      PrefixGives(token, "locked");
    } else if StartsWith(token, "prunable ") {
      PrefixGives(token, "prunable");
    }
  }

  /** At most one of the names begins a token. */
  lemma {:induction false} FirstLetters(token: string)
    ensures StartsWith(token, "HEAD ") ==> token[0] == 'H'
    ensures StartsWith(token, "branch ") ==> token[0] == 'b'
    ensures StartsWith(token, "locked ") || token == "locked" ==> token[0] == 'l'
    ensures StartsWith(token, "prunable ") || token == "prunable" ==> token[0] == 'p'
    ensures StartsWith(token, "worktree ") ==> token[0] == 'w'
  {
  }

  lemma {:induction false} OpenGoesOn(ts: seq<string>, token: string, i: nat, w: Worktree)
    requires i < |ts| && !Closed(ts, i) && !Parts(token) && Describes(ts, i, w)
    ensures Describes(ts + [token], i, Attribute(w, token)) && !Closed(ts + [token], i)
  {
    var v := Attribute(w, token);
    AttributeGives(w, token);
    OpenField(ts, token, i, "HEAD", false, w.head, v.head);
    OpenField(ts, token, i, "branch", false, w.branch, v.branch);
    OpenField(ts, token, i, "locked", true, w.lockedReason, v.lockedReason);
    OpenField(ts, token, i, "prunable", true, w.prunableReason, v.prunableReason);
    assert (ts + [token])[i] == ts[i];
  }

  /** A record that ends here is what it was. */
  lemma {:induction false} OpenEnds(ts: seq<string>, token: string, i: nat, w: Worktree)
    requires i < |ts| && !Closed(ts, i) && Parts(token) && Describes(ts, i, w)
    ensures Closed(ts + [token], i) && Describes(ts + [token], i, w)
  {
    var us := ts + [token];
    assert us[|ts|] == token && us[i] == ts[i];
    EndField(ts, token, i, "HEAD", false, w.head);
    EndField(ts, token, i, "branch", false, w.branch);
    EndField(ts, token, i, "locked", true, w.lockedReason);
    EndField(ts, token, i, "prunable", true, w.prunableReason);
  }

  lemma {:induction false} EndWithin(ts: seq<string>, token: string, i: nat, k: nat)
    requires i < |ts| && Parts(token)
    ensures Within(ts + [token], i, k) <==> Within(ts, i, k)
  {
    var us := ts + [token];
    assert us[|ts|] == token;
    assert forall m :: 0 <= m < |ts| ==> us[m] == ts[m];
  }

  lemma {:induction false} EndField(ts: seq<string>, token: string, i: nat, name: string, bare: bool, value: Option<string>)
    requires i < |ts| && Parts(token) && LastGives(ts, i, name, bare, value)
    ensures LastGives(ts + [token], i, name, bare, value)
  {
    match value {
      case None => EndNone(ts, token, i, i, name, bare);
      case Some(v) =>
        var k: nat :| GivesLast(ts, i, name, bare, v, k);
        EndWithin(ts, token, i, k);
        EndNone(ts, token, i, k, name, bare);
        assert (ts + [token])[k] == ts[k];
        assert GivesLast(ts + [token], i, name, bare, v, k);
    }
  }

  lemma {:induction false} EndNone(ts: seq<string>, token: string, i: nat, j: nat, name: string, bare: bool)
    requires i < |ts| && Parts(token) && NoneNames(ts, i, j, name, bare)
    ensures NoneNames(ts + [token], i, j, name, bare)
  {
    forall m: nat | j < m && Within(ts + [token], i, m) ensures !Names((ts + [token])[m], name, bare) {
      EndWithin(ts, token, i, m);
      assert (ts + [token])[m] == ts[m];
    }
  }

  // ---- The whole output. ----

  lemma {:induction false} StartsStay(ts: seq<string>, token: string, starts: seq<nat>)
    requires AllStarts(ts, starts) && !StartsWith(token, "worktree ")
    ensures AllStarts(ts + [token], starts)
  {
    var us := ts + [token];
    forall i: nat ensures i in starts <==> i < |us| && StartsWith(us[i], "worktree ") {
      if i < |ts| { assert us[i] == ts[i]; }
    }
  }

  lemma {:induction false} StartsGrow(ts: seq<string>, token: string, starts: seq<nat>)
    requires AllStarts(ts, starts) && StartsWith(token, "worktree ")
    ensures AllStarts(ts + [token], starts + [|ts|])
  {
    var us, more := ts + [token], starts + [|ts|];
    forall i: nat ensures i in more <==> i < |us| && StartsWith(us[i], "worktree ") {
      if i < |ts| { assert us[i] == ts[i]; }
    }
    forall j | 0 <= j < |starts| ensures starts[j] < |ts| {
      assert starts[j] in starts;
    }
  }

  /** The records that have ended, after one more token. */
  lemma {:induction false} DoneStay(ts: seq<string>, token: string, starts: seq<nat>, s: State)
    requires Tells(ts, starts, s)
    ensures forall k :: 0 <= k < |s.done| ==> Describes(ts + [token], starts[k], s.done[k]) && Closed(ts + [token], starts[k])
  {
    forall k | 0 <= k < |s.done| ensures Describes(ts + [token], starts[k], s.done[k]) && Closed(ts + [token], starts[k]) {
      assert Records(s)[k] == s.done[k];
      ClosedStays(ts, token, starts[k], s.done[k]);
    }
  }

  /** A token that ends the record being read ends all records. */
  lemma {:induction false} AllEnd(ts: seq<string>, token: string, starts: seq<nat>, s: State)
    requires Tells(ts, starts, s) && Parts(token)
    ensures |Flush(s).done| == |starts|
    ensures forall k :: 0 <= k < |starts| ==> Describes(ts + [token], starts[k], Flush(s).done[k]) && Closed(ts + [token], starts[k])
  {
    DoneStay(ts, token, starts, s);
    forall k | 0 <= k < |starts| ensures Describes(ts + [token], starts[k], Flush(s).done[k]) && Closed(ts + [token], starts[k]) {
      if k == |s.done| {
        CurrentEnds(ts, token, starts, s);
      }
    }
  }

  lemma {:induction false} CurrentEnds(ts: seq<string>, token: string, starts: seq<nat>, s: State)
    requires Tells(ts, starts, s) && Parts(token) && s.current.Some?
    ensures |starts| == |s.done| + 1
    ensures Describes(ts + [token], starts[|s.done|], s.current.value) && Closed(ts + [token], starts[|s.done|])
  {
    var k := |s.done|;
    assert Describes(ts, starts[k], Records(s)[k]) && Records(s)[k] == s.current.value;
    OpenEnds(ts, token, starts[k], s.current.value);
  }

  lemma {:induction false} NewRecord(ts: seq<string>, token: string)
    requires StartsWith(token, "worktree ")
    ensures Describes(ts + [token], |ts|, Worktree(token[9..], None, None, None, None)) && !Closed(ts + [token], |ts|)
  {
    assert token == token[..9] + token[9..];
  }

  lemma {:induction false} AttributeTells(ts: seq<string>, token: string, starts: seq<nat>, s: State)
    requires Tells(ts, starts, s) && !Parts(token)
    ensures Tells(ts + [token], starts, Take(s, token))
  {
    StartsStay(ts, token, starts);
    DoneStay(ts, token, starts, s);
    if s.current.Some? {
      var k := |s.done|;
      assert Describes(ts, starts[k], Records(s)[k]) && Records(s)[k] == s.current.value;
      OpenGoesOn(ts, token, starts[k], s.current.value);
    }
  }

  lemma {:induction false} EmptyTells(ts: seq<string>, starts: seq<nat>, s: State)
    requires Tells(ts, starts, s)
    ensures Tells(ts + [""], starts, Take(s, ""))
  {
    StartsStay(ts, "", starts);
    AllEnd(ts, "", starts, s);
  }

  lemma {:induction false} WorktreeTells(ts: seq<string>, token: string, starts: seq<nat>, s: State)
    requires Tells(ts, starts, s) && StartsWith(token, "worktree ")
    ensures Tells(ts + [token], starts + [|ts|], Take(s, token))
  {
    StartsGrow(ts, token, starts);
    AllEnd(ts, token, starts, s);
    NewRecord(ts, token);
  }

  lemma {:induction false} TakeAllTells(ts: seq<string>) returns (starts: seq<nat>)
    ensures Tells(ts, starts, TakeAll(State([], None), ts))
  {
    if ts == [] {
      starts := [];
    } else {
      var init, token := ts[..|ts| - 1], ts[|ts| - 1];
      assert ts == init + [token];
      starts := TakeAllTells(init);
      var s := TakeAll(State([], None), init);
      if token == "" {
        EmptyTells(init, starts, s);
      } else if StartsWith(token, "worktree ") {
        WorktreeTells(init, token, starts, s);
        starts := starts + [|init|];
      } else {
        AttributeTells(init, token, starts, s);
      }
    }
  }

  /** Any output, well printed or not, parses to one record for every token that begins with
      "worktree ", in order; its path is the rest of that token; and its fields are given by the
      last tokens that name them before an empty token, the next record or the end. */
  lemma {:induction false} ParsesExactly(output: string) returns (starts: seq<nat>)
    ensures AllStarts(Tokens(output), starts) && |Parsed(output)| == |starts|
    ensures forall k :: 0 <= k < |starts| ==> Describes(Tokens(output), starts[k], Parsed(output)[k])
  {
    starts := TakeAllTells(Tokens(output));
    assert Parsed(output) == Records(TakeAll(State([], None), Tokens(output)));
  }

  function Join(tokens: seq<string>): string {
    if tokens == [] then ""
    else if |tokens| == 1 then tokens[0]
    else Join(tokens[..|tokens| - 1]) + ['\0'] + tokens[|tokens| - 1]
  }

  /** The tokens are the output cut at its NULs. */
  lemma {:induction false} TokensCut(output: string)
    ensures Join(Tokens(output)) == output && forall token :: token in Tokens(output) ==> '\0' !in token
  {
    if output != "" {
      var init, last := output[..|output| - 1], output[|output| - 1];
      var tokens := Tokens(init);
      TokensCut(init);
      assert output == init + [last];
      if last == NUL {
        assert (tokens + [""])[..|tokens|] == tokens;
      } else {
        LongerToken(tokens, last);
      }
    }
  }

  lemma {:induction false} LongerToken(tokens: seq<string>, last: char)
    requires tokens != [] && last != '\0' && forall token :: token in tokens ==> '\0' !in token
    ensures var longer := tokens[..|tokens| - 1] + [tokens[|tokens| - 1] + [last]];
            Join(longer) == Join(tokens) + [last] && forall token :: token in longer ==> '\0' !in token
  {
    var init, token := tokens[..|tokens| - 1], tokens[|tokens| - 1];
    var longer := init + [token + [last]];
    assert longer[..|longer| - 1] == init;
    assert token in tokens && forall other :: other in init ==> other in tokens;
    if |tokens| > 1 {
      assert Join(init) + ['\0'] + (token + [last]) == (Join(init) + ['\0'] + token) + [last];
    }
  }
}
