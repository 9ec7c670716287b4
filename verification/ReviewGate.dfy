/** The gate a review stage must pass: exactly two verified reviews of the final commit, each with a
    mutation outcome outside fenced code (src/panopticon/container/reviewers.py). */
module ReviewGate {
  import opened Models
  import opened ReviewComment
  import opened Fences

  // ---- lines ----------------------------------------------------------------------------------

  /** The characters at which `str.splitlines` breaks. */
  predicate IsBreak(c: char) {
    c in {'\n', '\r', '\U{0B}', '\U{0C}', '\U{1C}', '\U{1D}', '\U{1E}', '\U{85}', '\U{2028}', '\U{2029}'}
  }

  /** `str.splitlines()`: a carriage return and line feed are one break, a last break adds no line. */
  function SplitLines(s: string): (lines: seq<string>)
    ensures forall i :: 0 <= i < |lines| ==> '\n' !in lines[i]
    decreases |s|
  {
    if s == "" then []
    else if IsBreak(s[0]) then
      [""] + SplitLines(s[if s[0] == '\r' && |s| > 1 && s[1] == '\n' then 2 else 1..])
    else
      var rest := SplitLines(s[1..]);
      if rest == [] then [[s[0]]] else [[s[0]] + rest[0]] + rest[1..]
  }

  /** A line break: a carriage return with the line feed behind it, or one break character alone. */
  ghost predicate BreakBefore(brk: string, rest: string) {
    || brk == "\r\n"
    || (|brk| == 1 && IsBreak(brk[0]) && !(brk == "\r" && "\n" <= rest))
  }

  ghost predicate BreakFree(line: string) {
    forall i :: 0 <= i < |line| ==> !IsBreak(line[i])
  }

  /** A line, its break, and the rest are that line and the lines of the rest. */
  lemma {:induction false} LineThenRest(line: string, brk: string, rest: string)
    requires BreakFree(line) && BreakBefore(brk, rest)
    ensures SplitLines(line + (brk + rest)) == [line] + SplitLines(rest)
  {
    var s := line + (brk + rest);
    if line == "" {
      assert s == brk + rest && s[|brk|..] == rest && s[0] == brk[0];
      assert |brk| == 2 ==> s[1] == brk[1];
      assert |brk| == 1 && rest != "" ==> s[1] == rest[0];
    } else {
      assert s[0] == line[0] && s[1..] == line[1..] + (brk + rest);
      LineThenRest(line[1..], brk, rest);
      assert [line[0]] + line[1..] == line;
    }
  }

  /** A text without a break is one line, or none when it is empty. */
  lemma {:induction false} LastLine(line: string)
    requires BreakFree(line)
    ensures SplitLines(line) == if line == "" then [] else [line]
  {
    if line == "" {
    } else {
      LastLine(line[1..]);
      assert line == [line[0]] + line[1..] && (line[1..] == "" ==> line == [line[0]]);
      assert SplitLines(line[1..]) == [] || SplitLines(line[1..])[1..] == [];
    }
  }

  function Join(lines: seq<string>): string {
    if lines == [] then "" else if |lines| == 1 then lines[0] else lines[0] + "\n" + Join(lines[1..])
  }

  /** The lines between which a multi-line `^` and `$` match. */
  function TextLines(text: string): (lines: seq<string>)
    ensures lines != []
  {
    if text == "" then [""]
    else
      var rest := TextLines(text[1..]);
      if text[0] == '\n' then [""] + rest else [[text[0]] + rest[0]] + rest[1..]
  }

  lemma {:induction false} FirstTextLine(line: string, rest: string)
    requires '\n' !in line
    ensures TextLines(line + "\n" + rest) == [line] + TextLines(rest)
  {
    var text := line + "\n" + rest;
    if line == "" {
      assert text[1..] == rest;
    } else {
      assert text[1..] == line[1..] + "\n" + rest;
      FirstTextLine(line[1..], rest);
      assert [line[0]] + line[1..] == line;
    }
  }

  lemma {:induction false} OnlyTextLine(line: string)
    requires '\n' !in line
    ensures TextLines(line) == [line]
  {
    if line == "" {
    } else {
      OnlyTextLine(line[1..]);
      assert [line[0]] + line[1..] == line;
    }
  }

  /** Joining lines and searching the text line by line sees the lines again. */
  lemma {:induction false} JoinedLines(lines: seq<string>)
    requires lines != [] && forall i :: 0 <= i < |lines| ==> '\n' !in lines[i]
    ensures TextLines(Join(lines)) == lines
  {
    if |lines| == 1 {
      OnlyTextLine(lines[0]);
    } else {
      FirstTextLine(lines[0], Join(lines[1..]));
      JoinedLines(lines[1..]);
    }
  }

  method OutsideFencedCode(body: string) returns (text: string)
    ensures text == Join(Kept(SplitLines(body), |SplitLines(body)|))
  {
    var lines := KeepUnfenced(SplitLines(body));
    text := Join(lines);
  }

  // ---- the mutation outcome -------------------------------------------------------------------

  const SECTION := "## Targeted mutation evidence"

  predicate IsEvidenceHeading(line: string) {
    SECTION <= line && Blank(line[|SECTION|..])
  }

  predicate IsHeading(line: string) {
    "## " <= line
  }

  predicate IsOutcome(line: string) {
    line == "Outcome: killed" || line == "Outcome: survived"
  }

  /** The first line from `i` on that satisfies a pattern. */
  function Search(lines: seq<string>, pattern: string -> bool, i: nat): (r: nat)
    requires i <= |lines|
    ensures i <= r <= |lines| && (r < |lines| ==> pattern(lines[r]))
    ensures forall j {:trigger lines[j]} :: i <= j < r ==> !pattern(lines[j])
    decreases |lines| - i
  {
    if i == |lines| || pattern(lines[i]) then i else Search(lines, pattern, i + 1)
  }

  datatype SectionError = NoSection | NoOutcome

  method CheckOutcome(body: string) returns (error: Option<SectionError>)
    ensures error.None? <==> ShowsOutcome(SplitLines(body))
  {
    var text := OutsideFencedCode(body);
    SearchedLines(SplitLines(body));
    error := FindOutcome(TextLines(text));
  }

  /** The first evidence heading, the next heading after it, and an outcome line between the two. */
  method FindOutcome(lines: seq<string>) returns (error: Option<SectionError>)
    ensures error.None? <==> KeptShows(lines)
  {
    var heading := Search(lines, IsEvidenceHeading, 0);
    if heading == |lines| { return Some(NoSection); }
    var end := Search(lines, IsHeading, heading + 1);
    var section := lines[..end];
    var outcome := Search(section, IsOutcome, heading + 1);
    if outcome < end {
      assert section[outcome] == lines[outcome];
      assert KeptOutcome(lines, heading, outcome);
      return None;
    }
    forall o | heading < o < end
      ensures !IsOutcome(lines[o])
    {
      assert section[o] == lines[o];
    }
    OutcomesAreInSection(lines, heading, end);
    error := Some(NoOutcome);
  }

  lemma OutcomesAreInSection(lines: seq<string>, heading: nat, end: nat)
    requires heading < end <= |lines| && IsEvidenceHeading(lines[heading])
    requires forall i {:trigger lines[i]} :: 0 <= i < heading ==> !IsEvidenceHeading(lines[i])
    requires end < |lines| ==> IsHeading(lines[end])
    ensures forall h: nat, o: nat {:trigger KeptOutcome(lines, h, o)} ::
              KeptOutcome(lines, h, o) ==> h == heading && heading < o < end && IsOutcome(lines[o])
  {
    forall h: nat, o: nat {:trigger KeptOutcome(lines, h, o)} | KeptOutcome(lines, h, o)
      ensures h == heading && heading < o < end
    {
      assert h < |lines| && IsEvidenceHeading(lines[h]);
      assert lines[o][0] == 'O';
    }
  }

  /** An outcome in a text that holds no fenced code. */
  ghost predicate KeptOutcome(lines: seq<string>, h: nat, o: nat) {
    && h < o < |lines| && IsEvidenceHeading(lines[h]) && IsOutcome(lines[o])
    && (forall i {:trigger lines[i]} :: 0 <= i < h ==> !IsEvidenceHeading(lines[i]))
    && (forall i {:trigger lines[i]} :: h < i < o ==> !IsHeading(lines[i]))
  }

  ghost predicate KeptShows(lines: seq<string>) {
    exists h: nat, o: nat :: KeptOutcome(lines, h, o)
  }

  /** The lines outside fenced code. */
  ghost function Outside(lines: seq<string>): set<nat> {
    set k: nat | k < |lines| && !Fenced(lines, k)
  }

  /** The first evidence heading outside fenced code is followed by an exact outcome line outside
      fenced code, with no other heading of its level outside fenced code between them. */
  ghost predicate ShowsOutcome(lines: seq<string>) {
    exists h: nat, o: nat :: OutcomeAmong(lines, Outside(lines), h, o)
  }

  ghost predicate OutcomeAmong(lines: seq<string>, outside: set<nat>, h: nat, o: nat) {
    && h < o < |lines|
    && h in outside && IsEvidenceHeading(lines[h])
    && o in outside && IsOutcome(lines[o])
    && (forall i: nat {:trigger i in outside} :: i < h && i in outside ==> !IsEvidenceHeading(lines[i]))
    && (forall i: nat {:trigger i in outside} :: h < i < o && i in outside ==> !IsHeading(lines[i]))
  }

  /** A line that is the evidence heading, with blanks behind it perhaps. */
  ghost predicate HeadingLine(line: string) {
    var text := "## Targeted mutation evidence";
    text <= line && forall i :: |text| <= i < |line| ==> line[i] == ' ' || line[i] == '\t'
  }

  ghost predicate OutcomeBetween(lines: seq<string>, h: nat, o: nat) {
    && h < o < |lines| && HeadingLine(lines[h])
    && (lines[o] == "Outcome: killed" || lines[o] == "Outcome: survived")
    && (forall i :: 0 <= i < h ==> !HeadingLine(lines[i]))
    && (forall i :: h < i < o ==> !("## " <= lines[i]))
  }

  lemma HeadingIs(line: string)
    ensures IsEvidenceHeading(line) <==> HeadingLine(line)
  {
    if SECTION <= line {
      var rest := line[|SECTION|..];
      if Blank(rest) {
        forall i | |SECTION| <= i < |line|
          ensures line[i] == ' ' || line[i] == '\t'
        {
          assert line[i] == rest[i - |SECTION|];
        }
      }
    }
  }

  lemma Unfenced(lines: seq<string>, k: nat)
    requires k < |lines| && forall o :: 0 <= o < |lines| ==> Opening(lines[o]).None?
    ensures !Fenced(lines, k)
  {
    forall o: nat {:trigger OpenAt(lines, o, k)} | o < k
      ensures !OpenAt(lines, o, k)
    {
      assert !Starts(lines, o);
    }
    assert !Starts(lines, k);
  }

  /** Of a body without fenced code: it shows an outcome when the first evidence heading is followed by an
      exact outcome line before any other heading of its level. */
  lemma UnfencedOutcome(lines: seq<string>)
    requires forall k :: 0 <= k < |lines| ==> Opening(lines[k]).None?
    ensures ShowsOutcome(lines) <==> exists h: nat, o: nat :: OutcomeBetween(lines, h, o)
  {
    forall k: nat | k < |lines|
      ensures k in Outside(lines) && (IsEvidenceHeading(lines[k]) <==> HeadingLine(lines[k]))
    {
      Unfenced(lines, k);
      HeadingIs(lines[k]);
    }
    if h: nat, o: nat :| OutcomeAmong(lines, Outside(lines), h, o) {
      assert OutcomeBetween(lines, h, o);
    }
    if h: nat, o: nat :| OutcomeBetween(lines, h, o) {
      assert OutcomeAmong(lines, Outside(lines), h, o);
    }
  }

  // ---- where the kept lines come from ---------------------------------------------------------

  /** The lines before `n` that lie outside, and their positions in order. */
  ghost function LinesAmong(lines: seq<string>, outside: set<nat>, n: nat): seq<string>
    requires n <= |lines|
  {
    if n == 0 then [] else LinesAmong(lines, outside, n - 1) + if n - 1 in outside then [lines[n - 1]] else []
  }

  ghost function Positions(outside: set<nat>, n: nat): seq<nat> {
    if n == 0 then [] else Positions(outside, n - 1) + if n - 1 in outside then [n - 1] else []
  }

  ghost predicate IsOutside(lines: seq<string>, outside: set<nat>, k: nat)
    requires k < |lines|
  {
    k in outside <==> !Fenced(lines, k)
  }

  lemma {:induction false} KeptAreAmong(lines: seq<string>, outside: set<nat>, n: nat)
    requires n <= |lines|
             && forall k: nat {:trigger IsOutside(lines, outside, k)} :: k < |lines| ==> IsOutside(lines, outside, k)
    ensures Kept(lines, n) == LinesAmong(lines, outside, n)
  {
    if n == 0 {
      assert Kept(lines, n) == [];
    } else {
      KeptAreAmong(lines, outside, n - 1);
      assert IsOutside(lines, outside, n - 1);
    }
  }

  ghost predicate Locates(lines: seq<string>, outside: set<nat>, n: nat, kept: seq<string>, at: seq<nat>)
    requires n <= |lines|
  {
    && |at| == |kept|
    && (forall i {:trigger at[i]} {:trigger kept[i]} :: 0 <= i < |at| ==>
          at[i] < n && at[i] in outside && kept[i] == lines[at[i]])
    && (forall i, j {:trigger at[i], at[j]} :: 0 <= i < j < |at| ==> at[i] < at[j])
    && (forall k: nat {:trigger Has(at, k)} :: k < n && k in outside ==> Has(at, k))
  }

  ghost predicate Has(at: seq<nat>, k: nat) {
    k in at
  }

  lemma LocatesOneMore(lines: seq<string>, outside: set<nat>, n: nat, kept: seq<string>, at: seq<nat>)
    requires n < |lines| && Locates(lines, outside, n, kept, at) && n in outside
    ensures Locates(lines, outside, n + 1, kept + [lines[n]], at + [n])
  {
    forall k: nat {:trigger Has(at + [n], k)} | k < n + 1 && k in outside
      ensures Has(at + [n], k)
    {
      assert k < n ==> Has(at, k);
      assert (at + [n])[|at|] == n;
    }
  }

  lemma LocatesTheSame(lines: seq<string>, outside: set<nat>, n: nat, kept: seq<string>, at: seq<nat>)
    requires n < |lines| && Locates(lines, outside, n, kept, at) && n !in outside
    ensures Locates(lines, outside, n + 1, kept, at)
  {
  }

  lemma {:induction false} KeptAt(lines: seq<string>, outside: set<nat>, n: nat)
    requires n <= |lines|
    ensures Locates(lines, outside, n, LinesAmong(lines, outside, n), Positions(outside, n))
  {
    if n == 0 {
      assert Positions(outside, n) == [];
    } else {
      KeptAt(lines, outside, n - 1);
      if n - 1 in outside {
        LocatesOneMore(lines, outside, n - 1, LinesAmong(lines, outside, n - 1), Positions(outside, n - 1));
      } else {
        LocatesTheSame(lines, outside, n - 1, LinesAmong(lines, outside, n - 1), Positions(outside, n - 1));
        assert Positions(outside, n) == Positions(outside, n - 1);
        assert LinesAmong(lines, outside, n) == LinesAmong(lines, outside, n - 1);
      }
    }
  }

  lemma KeptOutcomeIsOutside(lines: seq<string>, outside: set<nat>, kept: seq<string>, at: seq<nat>, h: nat, o: nat)
    requires Locates(lines, outside, |lines|, kept, at) && KeptOutcome(kept, h, o)
    ensures OutcomeAmong(lines, outside, at[h], at[o])
  {
    forall i: nat {:trigger i in outside} | i in outside && i < |lines|
      ensures i < at[h] ==> !IsEvidenceHeading(lines[i])
      ensures at[h] < i < at[o] ==> !IsHeading(lines[i])
    {
      assert Has(at, i);
      var q: nat :| q < |at| && at[q] == i;
    }
  }

  lemma OutsideOutcomeIsKept(lines: seq<string>, outside: set<nat>, kept: seq<string>, at: seq<nat>, h: nat, o: nat)
    returns (h': nat, o': nat)
    requires Locates(lines, outside, |lines|, kept, at) && OutcomeAmong(lines, outside, h, o)
    ensures KeptOutcome(kept, h', o')
  {
    assert Has(at, h) && Has(at, o);
    h' :| h' < |at| && at[h'] == h;
    o' :| o' < |at| && at[o'] == o;
    assert kept[h'] == lines[h] && kept[o'] == lines[o];
    forall i {:trigger kept[i]} | 0 <= i < |kept|
      ensures i < h' ==> !IsEvidenceHeading(kept[i])
      ensures h' < i < o' ==> !IsHeading(kept[i])
    {
      assert kept[i] == lines[at[i]] && at[i] in outside;
    }
  }

  lemma SearchedText(kept: seq<string>)
    requires forall i :: 0 <= i < |kept| ==> '\n' !in kept[i]
    ensures TextLines(Join(kept)) == if kept == [] then [""] else kept
  {
    if kept != [] {
      JoinedLines(kept);
    }
  }

  lemma {:induction false} KeptBreakFree(lines: seq<string>, n: nat)
    requires n <= |lines| && forall i :: 0 <= i < |lines| ==> '\n' !in lines[i]
    ensures forall i :: 0 <= i < |Kept(lines, n)| ==> '\n' !in Kept(lines, n)[i]
  {
    if n == 0 {
    } else {
      KeptBreakFree(lines, n - 1);
    }
  }

  lemma KeptShowsOutside(lines: seq<string>)
    ensures KeptShows(Kept(lines, |lines|)) <==> ShowsOutcome(lines)
  {
    KeptAreAmong(lines, Outside(lines), |lines|);
    AmongShows(lines, Outside(lines));
  }

  lemma AmongShows(lines: seq<string>, outside: set<nat>)
    ensures KeptShows(LinesAmong(lines, outside, |lines|)) <==>
              exists h: nat, o: nat :: OutcomeAmong(lines, outside, h, o)
  {
    var kept, at := LinesAmong(lines, outside, |lines|), Positions(outside, |lines|);
    KeptAt(lines, outside, |lines|);
    if h: nat, o: nat :| KeptOutcome(kept, h, o) {
      KeptOutcomeIsOutside(lines, outside, kept, at, h, o);
    }
    if h: nat, o: nat :| OutcomeAmong(lines, outside, h, o) {
      var h', o' := OutsideOutcomeIsKept(lines, outside, kept, at, h, o);
    }
  }

  /** What the gate searches shows an outcome exactly when the body does outside its fenced code. */
  lemma SearchedLines(lines: seq<string>)
    requires forall i :: 0 <= i < |lines| ==> '\n' !in lines[i]
    ensures KeptShows(TextLines(Join(Kept(lines, |lines|)))) <==> ShowsOutcome(lines)
  {
    var kept := Kept(lines, |lines|);
    KeptBreakFree(lines, |lines|);
    SearchedText(kept);
    KeptShowsOutside(lines);
    assert forall h: nat, o: nat :: !KeptOutcome([], h, o) && !KeptOutcome([""], h, o);
  }

  // ---- the gate -------------------------------------------------------------------------------

  datatype Reviewer = Reviewer(harness: string, model: string)

  const CLAUDE_SOURCE := "claude-json:modelUsage"
  const CODEX_SOURCE := "codex-rollout:turn_context.payload.model"

  function ExpectedSource(harness: string): Option<string> {
    if harness == "claude" then Some(CLAUDE_SOURCE)
    else if harness == "codex" then Some(CODEX_SOURCE)
    else None
  }

  datatype GateError =
    | CommentCount | ReviewerCount | Unreadable(refusal: Refusal) | Outcome(error: SectionError)
    | UnsupportedSource | ModelsDiffer | WrongSlot | IncompatibleSource | StaleCommit | WrongRound

  /** The review a slot asks for: its evidence is determined, and its body shows an outcome. */
  ghost predicate Approved(e: Evidence, body: string, slot: Reviewer, commit: string, round: int) {
    && ShowsOutcome(SplitLines(body)) && ExpectedSource(slot.harness).Some?
    && e == Evidence(slot.harness, slot.model, slot.model, ExpectedSource(slot.harness).value, commit, round)
  }

  ghost predicate Approves(d: Digits, comment: string, slot: Reviewer, commit: string, round: int) {
    var parsed := Parse(d, comment);
    parsed.Ok? && Approved(parsed.value.0, parsed.value.1, slot, commit, round)
  }

  ghost predicate Passes(d: Digits, comments: seq<string>, slots: seq<Reviewer>, commit: string, round: int) {
    |comments| == |slots| == 2 && forall i :: 0 <= i < 2 ==> Approves(d, comments[i], slots[i], commit, round)
  }

  method CheckReview(e: Evidence, body: string, slot: Reviewer, commit: string, round: int)
    returns (error: Option<GateError>)
    ensures error.None? <==> Approved(e, body, slot, commit, round)
  {
    var outcome := CheckOutcome(body);
    if outcome.Some? { return Some(Outcome(outcome.value)); }
    if e.verificationSource != CLAUDE_SOURCE && e.verificationSource != CODEX_SOURCE { return Some(UnsupportedSource); }
    if e.requestedModel != e.verifiedModel { return Some(ModelsDiffer); }
    if e.harness != slot.harness || e.requestedModel != slot.model { return Some(WrongSlot); }
    if Some(e.verificationSource) != ExpectedSource(e.harness) { return Some(IncompatibleSource); }
    if e.commit != commit { return Some(StaleCommit); }
    if e.round != round { return Some(WrongRound); }
    return None;
  }

  method ParseAll(d: Digits, comments: seq<string>) returns (r: Result<seq<(Evidence, string)>, Refusal>)
    ensures r.Ok? <==> forall i :: 0 <= i < |comments| ==> Parse(d, comments[i]).Ok?
    ensures r.Ok? ==>
              |r.value| == |comments| && forall i :: 0 <= i < |comments| ==> Parse(d, comments[i]) == Ok(r.value[i])
  {
    var parsed := [];
    for i := 0 to |comments|
      invariant |parsed| == i && forall j :: 0 <= j < i ==> Parse(d, comments[j]) == Ok(parsed[j])
    {
      var one := Parse(d, comments[i]);
      if one.Err? { return Err(one.error); }
      parsed := parsed + [one.value];
    }
    return Ok(parsed);
  }

  ghost predicate ApprovedAt(parsed: seq<(Evidence, string)>, slots: seq<Reviewer>, i: nat, commit: string, round: int)
    requires i < |parsed| == |slots|
  {
    Approved(parsed[i].0, parsed[i].1, slots[i], commit, round)
  }

  method CheckAt(parsed: seq<(Evidence, string)>, slots: seq<Reviewer>, i: nat, commit: string, round: int)
    returns (error: Option<GateError>)
    requires i < |parsed| == |slots|
    ensures error.None? <==> ApprovedAt(parsed, slots, i, commit, round)
  {
    error := CheckReview(parsed[i].0, parsed[i].1, slots[i], commit, round);
  }

  method CheckAll(parsed: seq<(Evidence, string)>, slots: seq<Reviewer>, commit: string, round: int)
    returns (error: Option<GateError>)
    requires |parsed| == |slots|
    ensures error.None? <==>
            forall i: nat {:trigger ApprovedAt(parsed, slots, i, commit, round)} ::
              i < |parsed| ==> ApprovedAt(parsed, slots, i, commit, round)
  {
    for i := 0 to |parsed|
      invariant forall j: nat {:trigger ApprovedAt(parsed, slots, j, commit, round)} ::
                  j < i ==> ApprovedAt(parsed, slots, j, commit, round)
    {
      error := CheckAt(parsed, slots, i, commit, round);
      if error.Some? {
        return;
      }
    }
    return None;
  }

  /** The gate lets a pair of comments through exactly when each is the review its slot asks for. */
  method ValidateReviewGate(d: Digits, comments: seq<string>, slots: seq<Reviewer>, commit: string, round: int)
    returns (error: Option<GateError>)
    ensures error.None? <==> Passes(d, comments, slots, commit, round)
  {
    if |comments| != 2 { return Some(CommentCount); }
    if |slots| != 2 { return Some(ReviewerCount); }
    var parsed := ParseAll(d, comments);
    if parsed.Err? { return Some(Unreadable(parsed.error)); }
    error := CheckAll(parsed.value, slots, commit, round);
    assert forall i :: 0 <= i < 2 ==>
      (Approves(d, comments[i], slots[i], commit, round) <==> ApprovedAt(parsed.value, slots, i, commit, round));
  }

  /** What passing means for the text of a comment: it is, up to the spelling of the round, the
      rendering of the slot's own model, harness and source for this commit and round. */
  lemma PassedCommentIsRendered(d: Digits, comments: seq<string>, slots: seq<Reviewer>,
                                commit: string, round: int, i: nat)
    returns (first: string, last: string, body: string)
    requires d.Valid() && Passes(d, comments, slots, commit, round) && i < 2
    ensures ExpectedSource(slots[i].harness).Some? && round >= 0
    ensures Numeral(d, first, round) && Numeral(d, last, round) && ShowsOutcome(SplitLines(body))
    ensures var e := Evidence(slots[i].harness, slots[i].model, slots[i].model,
                              ExpectedSource(slots[i].harness).value, commit, round);
            comments[i] == OPENING + (slots[i].model + AfterHeading(e, first, last, body))
    ensures || (slots[i].harness == "claude" && ExpectedSource(slots[i].harness) == Some("claude-json:modelUsage"))
            || (slots[i].harness == "codex"
                && ExpectedSource(slots[i].harness) == Some("codex-rollout:turn_context.payload.model"))
  {
    var slot := slots[i];
    assert Approves(d, comments[i], slot, commit, round);
    var e := Evidence(slot.harness, slot.model, slot.model, ExpectedSource(slot.harness).value, commit, round);
    body := Parse(d, comments[i]).value.1;
    first, last := ParsedIsRendered(d, comments[i], e, body);
  }
}
