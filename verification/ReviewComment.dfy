/** The evidence comment a reviewer posts, and the strict parser that the review gate reads it with
    (src/panopticon/container/reviewers.py). */
module ReviewComment {
  import opened Models
  import Sequences

  datatype Evidence = Evidence(
    harness: string,
    requestedModel: string,
    verifiedModel: string,
    verificationSource: string,
    commit: string,
    round: int)

  datatype Refusal = Malformed | HeadingMismatch

  // ---- numerals -------------------------------------------------------------------------------

  /** Python's decimal digits: the ASCII ones, and others of Unicode category Nd that this model
      leaves open. Both `\d` and `int` read them. */
  datatype Digits = Digits(value: char -> Option<nat>) {
    ghost predicate Valid() {
      && (forall c: char {:trigger value(c)} :: c as int < 0x80 ==>
            value(c) == if '0' <= c <= '9' then Some(c as int - '0' as int) else None)
      && (forall c: char {:trigger value(c)} :: value(c).Some? ==> value(c).value < 10)
    }

    /** `int(numeral)`. */
    function Number(numeral: string): nat
      requires forall i :: 0 <= i < |numeral| ==> value(numeral[i]).Some?
    {
      if numeral == [] then 0 else Number(numeral[..|numeral| - 1]) * 10 + value(numeral[|numeral| - 1]).value
    }
  }

  function Digit(n: nat): char
    requires n < 10
  {
    '0' + n as char
  }

  /** `str(n)`. */
  function Decimal(n: int): string
    decreases if n < 0 then 1 - n else n
  {
    if n < 0 then "-" + Decimal(-n) else if n < 10 then [Digit(n)] else Decimal(n / 10) + [Digit(n % 10)]
  }

  lemma {:induction false} DecimalReadsBack(d: Digits, n: nat)
    requires d.Valid()
    ensures Decimal(n) != "" && forall i :: 0 <= i < |Decimal(n)| ==> d.value(Decimal(n)[i]).Some?
    ensures d.Number(Decimal(n)) == n
    decreases n
  {
    var s := Decimal(n);
    assert d.value(Digit(n % 10)) == Some(n % 10);
    assert s[|s| - 1] == Digit(n % 10);
    if n < 10 {
      assert s[..|s| - 1] == [];
    } else {
      DecimalReadsBack(d, n / 10);
      assert s[..|s| - 1] == Decimal(n / 10);
    }
  }

  lemma {:induction false} DecimalIsAscii(n: nat)
    ensures Decimal(n) != "" && forall i :: 0 <= i < |Decimal(n)| ==> '0' <= Decimal(n)[i] <= '9'
    decreases n
  {
    if n < 10 {
    } else {
      DecimalIsAscii(n / 10);
    }
  }

  // ---- the shape of a comment -----------------------------------------------------------------

  const OPENING := "# "
  const HEADING_ROUND := " \U{2014} Round "
  const HARNESS := " (verified)\n\n- Harness: `"
  const REQUESTED := "`\n- Requested model: `"
  const VERIFIED := "`\n- Verified responding model: `"
  const SOURCE := "`\n- Verification source: `"
  const COMMIT := "`\n- Reviewed commit: `"
  const ROUND := "`\n- Review round: `"
  const RULE := "`\n\n---\n\n"

  function Render(e: Evidence, body: string): string {
    OPENING + (e.verifiedModel
    + (HEADING_ROUND + (Decimal(e.round)
    + (HARNESS + (e.harness
    + (REQUESTED + (e.requestedModel
    + (VERIFIED + (e.verifiedModel
    + (SOURCE + (e.verificationSource
    + (COMMIT + (e.commit
    + (ROUND + (Decimal(e.round)
    + (RULE + body))))))))))))))))
  }

  /** One literal of the pattern and the group that follows it: digits, or anything but a backtick. */
  datatype Item = Item(prefix: string, numeric: bool)

  const ITEMS := [
    Item(HEADING_ROUND, true), Item(HARNESS, false), Item(REQUESTED, false), Item(VERIFIED, false),
    Item(SOURCE, false), Item(COMMIT, false), Item(ROUND, true)]

  predicate OfKind(d: Digits, numeric: bool, c: char) {
    if numeric then d.value(c).Some? else c != '`'
  }

  predicate AllOfKind(d: Digits, numeric: bool, s: string) {
    forall i :: 0 <= i < |s| ==> OfKind(d, numeric, s[i])
  }

  /** The length of the longest run of a kind: a group never stops before it, for the next literal
      starts with a character of the other kind. */
  function RunLength(d: Digits, numeric: bool, s: string): (n: nat)
    ensures n <= |s| && AllOfKind(d, numeric, s[..n])
    ensures n < |s| ==> !OfKind(d, numeric, s[n])
  {
    if s == "" || !OfKind(d, numeric, s[0]) then 0
    else
      var n := RunLength(d, numeric, s[1..]);
      assert forall i :: 0 < i < n + 1 ==> s[i] == s[1..][..n][i - 1];
      n + 1
  }

  /** The groups of the pattern and what follows them. */
  function Scan(d: Digits, items: seq<Item>, s: string): Option<(seq<string>, string)> {
    if items == [] then Some(([], s))
    else if !(items[0].prefix <= s) then None
    else
      var t := s[|items[0].prefix|..];
      var n := RunLength(d, items[0].numeric, t);
      if n == 0 then None
      else
        match Scan(d, items[1..], t[n..])
        case None => None
        case Some((groups, rest)) => Some(([t[..n]] + groups, rest))
  }

  function Fill(items: seq<Item>, groups: seq<string>): string
    requires |items| == |groups|
  {
    if items == [] then "" else items[0].prefix + groups[0] + Fill(items[1..], groups[1..])
  }

  ghost predicate Groups(d: Digits, items: seq<Item>, groups: seq<string>) {
    |groups| == |items| && forall i :: 0 <= i < |items| ==> groups[i] != "" && AllOfKind(d, items[i].numeric, groups[i])
  }

  /** A scan finds the groups of a filled pattern when each is delimited by the next literal. */
  ghost predicate Delimited(d: Digits, items: seq<Item>, rest: string) {
    items != [] ==>
      var next := if |items| > 1 then items[1].prefix else rest;
      next != "" && !OfKind(d, items[0].numeric, next[0]) && Delimited(d, items[1..], rest)
  }

  lemma {:induction false} RunStops(d: Digits, numeric: bool, group: string, rest: string)
    requires AllOfKind(d, numeric, group) && rest != "" && !OfKind(d, numeric, rest[0])
    ensures RunLength(d, numeric, group + rest) == |group|
  {
    var s := group + rest;
    if group == "" {
    } else {
      assert s[1..] == group[1..] + rest;
      RunStops(d, numeric, group[1..], rest);
    }
  }

  lemma ScanStep(d: Digits, items: seq<Item>, first: string, next: string)
    requires items != [] && first != "" && AllOfKind(d, items[0].numeric, first)
    requires next != "" && !OfKind(d, items[0].numeric, next[0])
    ensures Scan(d, items, items[0].prefix + (first + next)) ==
            match Scan(d, items[1..], next)
            case None => None
            case Some((groups, rest)) => Some(([first] + groups, rest))
  {
    var s := items[0].prefix + (first + next);
    var t := s[|items[0].prefix|..];
    assert t == first + next;
    RunStops(d, items[0].numeric, first, next);
    assert t[|first|..] == next && t[..|first|] == first;
  }

  lemma GroupsShrink(d: Digits, items: seq<Item>, groups: seq<string>)
    requires Groups(d, items, groups) && items != []
    ensures Groups(d, items[1..], groups[1..])
  {
  }

  /** The text after a group starts with the next literal. */
  lemma NextStarts(d: Digits, items: seq<Item>, groups: seq<string>, rest: string)
    requires |items| == |groups| > 0 && Delimited(d, items, rest)
    ensures var next := Fill(items[1..], groups[1..]) + rest;
            next != "" && !OfKind(d, items[0].numeric, next[0])
  {
    if |items| > 1 {
      assert items[1..][0] == items[1];
    }
  }

  lemma {:induction false} ScanFinds(d: Digits, items: seq<Item>, groups: seq<string>, rest: string)
    requires Groups(d, items, groups) && Delimited(d, items, rest)
    ensures Scan(d, items, Fill(items, groups) + rest) == Some((groups, rest))
  {
    if items == [] {
      assert Fill(items, groups) + rest == rest;
    } else {
      var next := Fill(items[1..], groups[1..]) + rest;
      NextStarts(d, items, groups, rest);
      ScanStep(d, items, groups[0], next);
      FillStep(items, groups, rest);
      GroupsShrink(d, items, groups);
      ScanFinds(d, items[1..], groups[1..], rest);
      Rejoin(groups);
    }
  }

  lemma Rejoin(s: seq<string>)
    requires s != []
    ensures [s[0]] + s[1..] == s
  {
  }

  lemma GroupsExtend(d: Digits, items: seq<Item>, first: string, groups: seq<string>)
    requires items != [] && first != "" && AllOfKind(d, items[0].numeric, first) && Groups(d, items[1..], groups)
    ensures Groups(d, items, [first] + groups)
  {
    forall i | 1 <= i < |items|
      ensures ([first] + groups)[i] != "" && AllOfKind(d, items[i].numeric, ([first] + groups)[i])
    {
      assert items[i] == items[1..][i - 1] && ([first] + groups)[i] == groups[i - 1];
    }
  }

  lemma FillExtend(items: seq<Item>, first: string, groups: seq<string>, rest: string)
    requires |items| == |groups| + 1
    ensures Fill(items, [first] + groups) + rest == items[0].prefix + (first + (Fill(items[1..], groups) + rest))
  {
    assert ([first] + groups)[1..] == groups;
  }

  /** One item of a successful scan. */
  lemma ScanCut(d: Digits, items: seq<Item>, s: string) returns (first: string, next: string)
    requires items != [] && Scan(d, items, s).Some?
    ensures s == items[0].prefix + (first + next)
    ensures first != "" && AllOfKind(d, items[0].numeric, first)
    ensures Scan(d, items[1..], next).Some?
    ensures var (groups, rest) := Scan(d, items[1..], next).value; Scan(d, items, s) == Some(([first] + groups, rest))
  {
    var t := s[|items[0].prefix|..];
    var n := RunLength(d, items[0].numeric, t);
    first, next := t[..n], t[n..];
    assert t == first + next;
    PrefixRejoins(items[0].prefix, s);
  }

  lemma PrefixRejoins(prefix: string, s: string)
    requires prefix <= s
    ensures s == prefix + s[|prefix|..]
  {
  }

  lemma {:induction false} ScannedIsFilled(d: Digits, items: seq<Item>, s: string)
    requires Scan(d, items, s).Some?
    ensures var (groups, rest) := Scan(d, items, s).value;
            Groups(d, items, groups) && s == Fill(items, groups) + rest
  {
    if items == [] {
      assert s == "" + s;
    } else {
      var first, next := ScanCut(d, items, s);
      ScannedIsFilled(d, items[1..], next);
      var (groups, rest) := Scan(d, items[1..], next).value;
      GroupsExtend(d, items, first, groups);
      FillExtend(items, first, groups, rest);
    }
  }

  // ---- the parser -----------------------------------------------------------------------------

  /** The pattern after the heading: its seven groups and the body, which is not empty. */
  function Tail(d: Digits, s: string): Option<(seq<string>, string)> {
    match Scan(d, ITEMS, s)
    case None => None
    case Some((groups, rest)) =>
      if RULE <= rest && |rest| > |RULE| then Some((groups, rest[|RULE|..])) else None
  }

  function Reads(d: Digits): string -> bool {
    s => Tail(d, s).Some?
  }

  /** A greedy `.+` (newlines included) ends as late as what must follow it allows. */
  function HeadingEnd(follows: string -> bool, s: string, k: nat): (r: Option<nat>)
    requires k <= |s|
    ensures r.Some? ==> 3 <= r.value <= k && follows(s[r.value..])
    ensures forall j {:trigger follows(s[j..])} :: (if r.Some? then r.value + 1 else 3) <= j <= k ==> !follows(s[j..])
  {
    if k < 3 then None
    else if follows(s[k..]) then Some(k)
    else HeadingEnd(follows, s, k - 1)
  }

  ghost predicate Groups7(d: Digits, groups: seq<string>) {
    Groups(d, ITEMS, groups) && |groups| == 7
  }

  lemma GroupsAreSeven(d: Digits, s: string)
    requires Tail(d, s).Some?
    ensures Groups7(d, Tail(d, s).value.0)
  {
    ScannedIsFilled(d, ITEMS, s);
  }

  function Parse(d: Digits, comment: string): Result<(Evidence, string), Refusal> {
    if !(OPENING <= comment) then Err(Malformed)
    else
      match HeadingEnd(Reads(d), comment, |comment|)
      case None => Err(Malformed)
      case Some(k) => Check(d, comment[2..k], comment[k..])
  }

  /** The heading must repeat the verified model, and both rounds must be the same number. */
  function Check(d: Digits, heading: string, rest: string): Result<(Evidence, string), Refusal>
    requires Tail(d, rest).Some?
  {
    var (groups, body) := Tail(d, rest).value;
    GroupsAreSeven(d, rest);
    var round := d.Number(groups[6]);
    if heading != groups[3] || d.Number(groups[0]) != round then Err(HeadingMismatch)
    else Ok((Evidence(groups[1], groups[2], groups[3], groups[4], groups[5], round), body))
  }

  // ---- rendering, then parsing ----------------------------------------------------------------

  function Captures(e: Evidence, first: string, last: string): seq<string> {
    [first, e.harness, e.requestedModel, e.verifiedModel, e.verificationSource, e.commit, last]
  }

  predicate Quotable(s: string) {
    s != "" && '`' !in s
  }

  predicate FieldsOk(e: Evidence) {
    && Quotable(e.harness) && Quotable(e.requestedModel) && Quotable(e.verifiedModel)
    && Quotable(e.verificationSource) && Quotable(e.commit) && e.round >= 0
  }

  /** The text after the heading, with the two round numerals spelled as given. */
  function AfterHeading(e: Evidence, first: string, last: string, body: string): string {
    Fill(ITEMS, Captures(e, first, last)) + (RULE + body)
  }

  lemma FillIsRendered(e: Evidence, body: string)
    ensures Render(e, body) == OPENING + (e.verifiedModel + AfterHeading(e, Decimal(e.round), Decimal(e.round), body))
  {
    var n := Decimal(e.round);
    var g := Captures(e, n, n);
    FillStep(ITEMS, g, RULE + body);
    FillStep(ITEMS[1..], g[1..], RULE + body);
    FillStep(ITEMS[1..][1..], g[1..][1..], RULE + body);
    FillStep(ITEMS[1..][1..][1..], g[1..][1..][1..], RULE + body);
    FillStep(ITEMS[1..][1..][1..][1..], g[1..][1..][1..][1..], RULE + body);
    FillStep(ITEMS[1..][1..][1..][1..][1..], g[1..][1..][1..][1..][1..], RULE + body);
    FillStep(ITEMS[1..][1..][1..][1..][1..][1..], g[1..][1..][1..][1..][1..][1..], RULE + body);
    assert "" + (RULE + body) == RULE + body;
  }

  lemma FillStep(items: seq<Item>, groups: seq<string>, rest: string)
    requires |items| == |groups| > 0
    ensures Fill(items, groups) + rest == items[0].prefix + (groups[0] + (Fill(items[1..], groups[1..]) + rest))
  {
  }

  ghost predicate Numeral(d: Digits, s: string, n: int) {
    s != "" && AllOfKind(d, true, s) && d.Number(s) == n
  }

  lemma ItemsAreDelimited(d: Digits, rest: string)
    requires d.Valid() && rest != "" && rest[0] == '`'
    ensures Delimited(d, ITEMS, rest)
  {
    assert !OfKind(d, true, ' ') && !OfKind(d, true, '`') && !OfKind(d, false, '`');
    assert Delimited(d, ITEMS[6..], rest);
    assert ITEMS[5..][1..] == ITEMS[6..] && ITEMS[4..][1..] == ITEMS[5..] && ITEMS[3..][1..] == ITEMS[4..];
    assert ITEMS[2..][1..] == ITEMS[3..] && ITEMS[1..][1..] == ITEMS[2..];
    assert Delimited(d, ITEMS[3..], rest);
  }

  lemma CapturesAreGroups(d: Digits, e: Evidence, first: string, last: string)
    requires FieldsOk(e) && Numeral(d, first, e.round) && Numeral(d, last, e.round)
    ensures Groups(d, ITEMS, Captures(e, first, last))
  {
  }

  /** The pattern finds the rendered fields again. */
  lemma TailOfRendered(d: Digits, e: Evidence, first: string, last: string, body: string)
    requires d.Valid() && FieldsOk(e) && Numeral(d, first, e.round) && Numeral(d, last, e.round) && body != ""
    ensures Tail(d, AfterHeading(e, first, last, body)) == Some((Captures(e, first, last), body))
  {
    CapturesAreGroups(d, e, first, last);
    ItemsAreDelimited(d, RULE + body);
    ScanFinds(d, ITEMS, Captures(e, first, last), RULE + body);
    assert (RULE + body)[|RULE|..] == body;
  }

  /** No suffix of a text reads as a heading's round and an evidence block. */
  ghost predicate NoSuffix(follows: string -> bool, s: string) {
    forall j {:trigger s[j..]} :: 0 <= j <= |s| ==> !follows(s[j..])
  }

  ghost predicate NoEvidence(d: Digits, s: string) {
    NoSuffix(Reads(d), s)
  }

  lemma FieldsOfCaptures(d: Digits, groups: seq<string>, round: nat)
    requires d.Valid() && Groups(d, ITEMS, groups)
    ensures |groups| == 7
    ensures FieldsOk(Evidence(groups[1], groups[2], groups[3], groups[4], groups[5], round))
    ensures forall i :: i in {0, 6} ==> Numeral(d, groups[i], d.Number(groups[i]))
  {
    forall i | 1 <= i < 6
      ensures Quotable(groups[i])
    {
      assert !ITEMS[i].numeric && AllOfKind(d, ITEMS[i].numeric, groups[i]);
    }
    assert ITEMS[0].numeric && ITEMS[6].numeric;
  }

  lemma TailIsFilled(d: Digits, rest: string)
    requires Tail(d, rest).Some?
    ensures var (groups, body) := Tail(d, rest).value;
            Groups(d, ITEMS, groups) && body != "" && rest == Fill(ITEMS, groups) + (RULE + body)
  {
    ScannedIsFilled(d, ITEMS, rest);
    var end := Scan(d, ITEMS, rest).value.1;
    PrefixRejoins(RULE, end);
  }

  lemma SevenCaptures(groups: seq<string>, e: Evidence)
    requires |groups| == 7
    requires e.harness == groups[1] && e.requestedModel == groups[2] && e.verifiedModel == groups[3]
    requires e.verificationSource == groups[4] && e.commit == groups[5]
    ensures groups == Captures(e, groups[0], groups[6])
  {
  }

  lemma CheckedIsRendered(d: Digits, heading: string, rest: string, e: Evidence, body: string)
    returns (first: string, last: string)
    requires d.Valid() && Tail(d, rest).Some? && Check(d, heading, rest) == Ok((e, body))
    ensures FieldsOk(e) && body != "" && Numeral(d, first, e.round) && Numeral(d, last, e.round)
    ensures heading == e.verifiedModel && rest == AfterHeading(e, first, last, body)
  {
    var groups := Tail(d, rest).value.0;
    TailIsFilled(d, rest);
    FieldsOfCaptures(d, groups, e.round);
    first, last := groups[0], groups[6];
    SevenCaptures(groups, e);
  }

  lemma RenderedIsChecked(d: Digits, e: Evidence, first: string, last: string, body: string)
    requires d.Valid() && FieldsOk(e) && Numeral(d, first, e.round) && Numeral(d, last, e.round) && body != ""
    ensures var rest := AfterHeading(e, first, last, body);
            Tail(d, rest).Some? && Check(d, e.verifiedModel, rest) == Ok((e, body))
  {
    TailOfRendered(d, e, first, last, body);
  }

  lemma SuffixShift(follows: string -> bool, comment: string, k: nat)
    requires k < |comment|
    ensures NoSuffix(follows, comment[k..][1..]) <==>
            forall j {:trigger comment[j..]} :: k < j <= |comment| ==> !follows(comment[j..])
  {
    var rest := comment[k..][1..];
    assert forall j {:trigger rest[j..]} :: 0 <= j <= |rest| ==> rest[j..] == comment[k + 1 + j..];
    assert forall j {:trigger comment[j..]} :: k < j <= |comment| ==> comment[j..] == rest[j - k - 1..];
  }

  /** A greedy heading ends where it is followed properly for the last time. */
  lemma HeadingEndsThere(follows: string -> bool, comment: string, k: nat)
    requires 3 <= k < |comment|
    ensures HeadingEnd(follows, comment, |comment|) == Some(k) <==>
            follows(comment[k..]) && NoSuffix(follows, comment[k..][1..])
  {
    SuffixShift(follows, comment, k);
  }

  lemma HeadingParts(comment: string, heading: string, rest: string)
    requires comment == OPENING + (heading + rest)
    ensures comment[2..2 + |heading|] == heading && comment[2 + |heading|..] == rest && OPENING <= comment
  {
  }

  lemma ParsedAs(d: Digits, comment: string, heading: string, rest: string)
    requires comment == OPENING + (heading + rest) && heading != ""
    requires Tail(d, rest).Some? && NoEvidence(d, rest[1..])
    ensures Parse(d, comment) == Check(d, heading, rest)
  {
    HeadingParts(comment, heading, rest);
    HeadingEndsThere(Reads(d), comment, 2 + |heading|);
  }

  /** A parsed comment is what rendering its evidence and body gives, up to how the two round
      numerals are spelled; and its evidence is well-formed. */
  lemma ParsedIsRendered(d: Digits, comment: string, e: Evidence, body: string)
    returns (first: string, last: string)
    requires d.Valid() && Parse(d, comment) == Ok((e, body))
    ensures FieldsOk(e) && body != "" && Numeral(d, first, e.round) && Numeral(d, last, e.round)
    ensures comment == OPENING + (e.verifiedModel + AfterHeading(e, first, last, body))
    ensures first == last == Decimal(e.round) ==> comment == Render(e, body)
    ensures NoEvidence(d, AfterHeading(e, first, last, body)[1..])
  {
    var k := HeadingEnd(Reads(d), comment, |comment|).value;
    var heading, rest := comment[2..k], comment[k..];
    assert comment == OPENING + (heading + rest);
    first, last := CheckedIsRendered(d, heading, rest, e, body);
    HeadingEndsThere(Reads(d), comment, k);
    FillIsRendered(e, body);
  }

  lemma DecimalIsNumeral(d: Digits, n: nat)
    requires d.Valid()
    ensures Numeral(d, Decimal(n), n)
  {
    DecimalReadsBack(d, n);
  }

  lemma RenderedIsFound(d: Digits, e: Evidence, body: string)
    requires d.Valid() && FieldsOk(e) && body != ""
    requires NoEvidence(d, AfterHeading(e, Decimal(e.round), Decimal(e.round), body)[1..])
    ensures Parse(d, Render(e, body)) == Ok((e, body))
  {
    var c, n := Render(e, body), Decimal(e.round);
    var rest := AfterHeading(e, n, n, body);
    FillIsRendered(e, body);
    DecimalIsNumeral(d, e.round);
    RenderedIsChecked(d, e, n, n, body);
    ParsedAs(d, c, e.verifiedModel, rest);
  }

  /** Parsing a rendered comment gives the evidence and the body back exactly when the fields can be
      quoted, the round is not negative, the body is not empty, and nothing after the heading reads
      as another heading round and evidence block (the heading's `.+` is greedy). */
  lemma RenderedComesBack(d: Digits, e: Evidence, body: string)
    requires d.Valid()
    ensures Parse(d, Render(e, body)) == Ok((e, body)) <==>
            && FieldsOk(e) && body != ""
            && NoEvidence(d, AfterHeading(e, Decimal(e.round), Decimal(e.round), body)[1..])
  {
    var n := Decimal(e.round);
    var rest := AfterHeading(e, n, n, body);
    if FieldsOk(e) && body != "" && NoEvidence(d, rest[1..]) {
      RenderedIsFound(d, e, body);
    } else if Parse(d, Render(e, body)) == Ok((e, body)) {
      FillIsRendered(e, body);
      var first, last := ParsedIsRendered(d, Render(e, body), e, body);
      SameEnding(e.verifiedModel, AfterHeading(e, first, last, body), rest);
    }
  }

  lemma SameEnding(v: string, a: string, b: string)
    requires OPENING + (v + a) == OPENING + (v + b)
    ensures a == b
  {
    assert (OPENING + (v + a))[2 + |v|..] == a;
    assert (OPENING + (v + b))[2 + |v|..] == b;
  }

  // ---- fields of one line ---------------------------------------------------------------------

  const HARNESS_LINE := "\n\n- Harness: `"

  lemma ReadParts(d: Digits, s: string) returns (numeral: string, after: string)
    requires Reads(d)(s)
    ensures s == HEADING_ROUND + (numeral + after) && AllOfKind(d, true, numeral) && HARNESS <= after
  {
    numeral, after := ScanCut(d, ITEMS, s);
    assert ITEMS[1..][0].prefix == HARNESS;
  }

  /** Neither a line break nor a backtick. */
  ghost predicate Plain(s: string) {
    forall i :: 0 <= i < |s| ==> s[i] != '\n' && s[i] != '`'
  }

  lemma PlainFront(d: Digits, numeral: string)
    requires d.Valid() && AllOfKind(d, true, numeral)
    ensures Plain(HEADING_ROUND + numeral + " (verified)")
  {
    assert !OfKind(d, true, '\n') && !OfKind(d, true, '`');
    assert Plain(HEADING_ROUND) && Plain(" (verified)") && Plain(numeral);
  }

  lemma HarnessSplits(after: string)
    requires HARNESS <= after
    ensures after == " (verified)" + after[11..] && HARNESS_LINE <= after[11..]
  {
    assert HARNESS[11..] == HARNESS_LINE && HARNESS[..11] == " (verified)";
    assert after[..11] == HARNESS[..11];
    assert after[11..][..|HARNESS_LINE|] == HARNESS[11..];
  }

  /** Where the evidence block of a suffix starts: its first line break, before any backtick. */
  lemma SuffixShape(d: Digits, s: string) returns (p: nat)
    requires d.Valid() && Reads(d)(s)
    ensures p < |s| && s[p] == '\n' && HARNESS_LINE <= s[p..]
    ensures forall i :: 0 <= i < p ==> s[i] != '\n' && s[i] != '`'
  {
    var numeral, after := ReadParts(d, s);
    HarnessSplits(after);
    PlainFront(d, numeral);
    var front, back := HEADING_ROUND + numeral + " (verified)", after[11..];
    assert back[0] == HARNESS_LINE[0];
    p := |front|;
    assert s == HEADING_ROUND + (numeral + (" (verified)" + back));
    Sequences.RegroupFour(HEADING_ROUND, numeral, " (verified)", back);
    SplitAt(s, front, back);
  }

  lemma SplitAt(s: string, front: string, back: string)
    requires s == front + back && back != ""
    ensures s[|front|] == back[0] && s[|front|..] == back && s[..|front|] == front
    ensures forall i :: 0 <= i < |front| ==> s[i] == front[i]
  {
  }

  lemma SuffixesOfTwo(follows: string -> bool, a: string, b: string)
    requires NoSuffix(follows, b)
    requires forall j {:trigger (a + b)[j..]} :: 0 <= j < |a| ==> !follows((a + b)[j..])
    ensures NoSuffix(follows, a + b)
  {
    forall j | 0 <= j <= |a + b|
      ensures !follows((a + b)[j..])
    {
      if j >= |a| {
        assert (a + b)[j..] == b[j - |a|..];
      }
    }
  }

  /** A literal in which no heading round starts. */
  ghost predicate Inert(lit: string) {
    && lit != "" && lit[|lit| - 1] != ' '
    && forall i :: 0 < i < |lit| ==> !(lit[i - 1] == ' ' && lit[i] == '\U{2014}')
  }

  lemma ReadStarts(d: Digits, s: string)
    ensures Reads(d)(s) ==> |s| > 1 && s[0] == ' ' && s[1] == '\U{2014}'
  {
    assert ITEMS[0].prefix == HEADING_ROUND;
  }

  lemma LiteralHidesNothing(d: Digits, lit: string, rest: string)
    requires Inert(lit) && NoEvidence(d, rest)
    ensures NoEvidence(d, lit + rest)
  {
    forall j | 0 <= j < |lit|
      ensures !Reads(d)((lit + rest)[j..])
    {
      var s := (lit + rest)[j..];
      ReadStarts(d, s);
      assert s[0] == lit[j];
      assert j + 1 < |lit| ==> s[1] == lit[j + 1];
    }
    SuffixesOfTwo(Reads(d), lit, rest);
  }

  lemma BacktickFirst(d: Digits, s: string, q: nat)
    requires d.Valid() && q < |s| && s[q] == '`' && forall i :: 0 <= i < q ==> s[i] != '\n'
    ensures !Reads(d)(s)
  {
    if Reads(d)(s) {
      var p := SuffixShape(d, s);
    }
  }

  lemma FieldHidesNothing(d: Digits, field: string, rest: string)
    requires d.Valid() && '\n' !in field && NoEvidence(d, rest) && rest != "" && rest[0] == '`'
    ensures NoEvidence(d, field + rest)
  {
    forall j | 0 <= j < |field|
      ensures !Reads(d)((field + rest)[j..])
    {
      BacktickFirst(d, (field + rest)[j..], |field| - j);
    }
    SuffixesOfTwo(Reads(d), field, rest);
  }

  /** The lines after the heading, from the harness on. */
  ghost predicate Lines(items: seq<Item>, groups: seq<string>) {
    |items| == |groups| && forall i :: 0 <= i < |items| ==>
      Inert(items[i].prefix) && '\n' !in groups[i] && (i > 0 ==> items[i].prefix[0] == '`')
  }

  lemma {:induction false} LinesHideNothing(d: Digits, items: seq<Item>, groups: seq<string>, rest: string)
    requires d.Valid() && Lines(items, groups) && NoEvidence(d, rest) && rest != "" && rest[0] == '`'
    ensures NoEvidence(d, Fill(items, groups) + rest)
  {
    if items == [] {
      assert Fill(items, groups) + rest == rest;
    } else {
      var more := Fill(items[1..], groups[1..]) + rest;
      LinesHideNothing(d, items[1..], groups[1..], rest);
      assert more != "" && more[0] == '`';
      FieldHidesNothing(d, groups[0], more);
      LiteralHidesNothing(d, items[0].prefix, groups[0] + more);
      FillStep(items, groups, rest);
    }
  }

  predicate OneLine(e: Evidence) {
    && '\n' !in e.harness && '\n' !in e.requestedModel && '\n' !in e.verifiedModel
    && '\n' !in e.verificationSource && '\n' !in e.commit
  }

  lemma LinesOfCaptures(e: Evidence, first: string, last: string)
    requires OneLine(e) && '\n' !in last
    ensures Lines(ITEMS[1..], Captures(e, first, last)[1..])
  {
    var items, groups := ITEMS[1..], Captures(e, first, last)[1..];
    assert groups == [e.harness, e.requestedModel, e.verifiedModel, e.verificationSource, e.commit, last];
    InertLiterals();
  }

  lemma InertLiterals()
    ensures Inert(HARNESS) && Inert(REQUESTED) && Inert(VERIFIED) && Inert(SOURCE) && Inert(COMMIT) && Inert(ROUND)
    ensures Inert(RULE)
  {
  }

  lemma HeadIsInert(n: nat)
    ensures Inert(HEADING_ROUND[1..] + Decimal(n))
  {
    DecimalIsAscii(n);
  }

  /** With fields of one line, only the body can hold another evidence block. */
  lemma OnlyTheBodyHides(d: Digits, e: Evidence, body: string)
    requires d.Valid() && FieldsOk(e) && OneLine(e) && NoEvidence(d, body)
    ensures NoEvidence(d, AfterHeading(e, Decimal(e.round), Decimal(e.round), body)[1..])
  {
    var n := Decimal(e.round);
    var groups, end := Captures(e, n, n), RULE + body;
    DecimalIsAscii(e.round);
    InertLiterals();
    LiteralHidesNothing(d, RULE, body);
    LinesOfCaptures(e, n, n);
    LinesHideNothing(d, ITEMS[1..], groups[1..], end);
    var more := Fill(ITEMS[1..], groups[1..]) + end;
    HeadIsInert(e.round);
    LiteralHidesNothing(d, HEADING_ROUND[1..] + n, more);
    FillStep(ITEMS, groups, end);
    DropFirst(HEADING_ROUND, n, more);
  }

  lemma DropFirst(a: string, b: string, c: string)
    requires a != ""
    ensures (a + (b + c))[1..] == a[1..] + b + c
  {
  }

  lemma HeadingReaches(follows: string -> bool, comment: string, k: nat)
    requires 3 <= k <= |comment| && follows(comment[k..])
    ensures HeadingEnd(follows, comment, |comment|).Some? && HeadingEnd(follows, comment, |comment|).value >= k
  {
  }

  lemma BacktickInHeading(d: Digits, heading: string, rest: string)
    requires Tail(d, rest).Some? && '`' in heading
    ensures Check(d, heading, rest) == Err(HeadingMismatch)
  {
    var groups := Tail(d, rest).value.0;
    GroupsAreSeven(d, rest);
    assert !ITEMS[3].numeric && AllOfKind(d, ITEMS[3].numeric, groups[3]);
  }

  /** A later evidence block swallows the earlier one into the heading, backticks and all. */
  lemma LaterEvidenceIsRefused(d: Digits, comment: string, front: string, body: string, j: nat)
    requires comment == OPENING + (front + (RULE + body)) && j <= |body| && Reads(d)(body[j..])
    ensures Parse(d, comment) == Err(HeadingMismatch)
  {
    var k := 2 + |front| + |RULE| + j;
    RenderedEnds(comment, front, body, j);
    HeadingReaches(Reads(d), comment, k);
    var end := HeadingEnd(Reads(d), comment, |comment|).value;
    assert comment[2..end][|front|] == '`';
    BacktickInHeading(d, comment[2..end], comment[end..]);
  }

  lemma RenderedEnds(comment: string, front: string, body: string, j: nat)
    requires comment == OPENING + (front + (RULE + body)) && j <= |body|
    ensures OPENING <= comment && comment[2 + |front| + |RULE| + j..] == body[j..] && comment[2 + |front|] == '`'
  {
    assert comment == (OPENING + front + RULE) + body;
    assert comment[2 + |front|] == RULE[0];
  }

  /** What the parser makes of a rendered comment whose fields are single lines: the evidence and
      the body, or a refusal; never other evidence. */
  lemma RenderedIsRead(d: Digits, e: Evidence, body: string)
    requires d.Valid() && FieldsOk(e) && OneLine(e) && body != ""
    ensures Parse(d, Render(e, body)) == if NoEvidence(d, body) then Ok((e, body)) else Err(HeadingMismatch)
  {
    if NoEvidence(d, body) {
      OnlyTheBodyHides(d, e, body);
      RenderedIsFound(d, e, body);
    } else {
      var j :| 0 <= j <= |body| && Reads(d)(body[j..]);
      SecondEvidenceIsRefused(d, e, body, j);
    }
  }

  lemma SecondEvidenceIsRefused(d: Digits, e: Evidence, body: string, j: nat)
    requires j <= |body| && Reads(d)(body[j..])
    ensures Parse(d, Render(e, body)) == Err(HeadingMismatch)
  {
    var n := Decimal(e.round);
    var fields := Fill(ITEMS, Captures(e, n, n));
    FillIsRendered(e, body);
    Sequences.Regroup(e.verifiedModel, fields, RULE + body);
    LaterEvidenceIsRefused(d, Render(e, body), e.verifiedModel + fields, body, j);
  }

  /** The family of inputs that do not come back: a review that quotes another one, with any text
      before the quotation, is refused. */
  lemma QuotedReviewIsRefused(d: Digits, e: Evidence, before: string, q: Evidence, quoted: string)
    requires d.Valid() && FieldsOk(q) && quoted != ""
    ensures Parse(d, Render(e, before + Render(q, quoted))) == Err(HeadingMismatch)
  {
    var body, n := before + Render(q, quoted), Decimal(q.round);
    var rest := AfterHeading(q, n, n, quoted);
    FillIsRendered(q, quoted);
    DecimalIsNumeral(d, q.round);
    TailOfRendered(d, q, n, n, quoted);
    var front := before + (OPENING + q.verifiedModel);
    Sequences.RegroupFour(before, OPENING, q.verifiedModel, rest);
    SplitAt(body, front, rest);
    assert Reads(d)(body[|front|..]);
    SecondEvidenceIsRefused(d, e, body, |front|);
  }

  /** One such input: the second round's review opens with the first round's comment. */
  lemma QuotedReviewExample(d: Digits)
    requires d.Valid()
    ensures var first := Evidence("claude", "m", "m", "claude-json:modelUsage", "c1", 1);
            var second := first.(commit := "c2", round := 2);
            Parse(d, Render(second, "Earlier:\n\n" + Render(first, "Approve."))) == Err(HeadingMismatch)
  {
    var first := Evidence("claude", "m", "m", "claude-json:modelUsage", "c1", 1);
    QuotedReviewIsRefused(d, first.(commit := "c2", round := 2), "Earlier:\n\n", first, "Approve.");
  }

  /** A body that holds another evidence block has a harness line after a blank line. */
  lemma EvidenceHasHarnessLine(d: Digits, body: string)
    requires d.Valid() && !NoEvidence(d, body)
    ensures exists k :: 0 <= k <= |body| && HARNESS_LINE <= body[k..]
  {
    var j :| 0 <= j <= |body| && Reads(d)(body[j..]);
    var p := SuffixShape(d, body[j..]);
    assert body[j..][p..] == body[j + p..];
  }
}
