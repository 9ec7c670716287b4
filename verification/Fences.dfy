/** Dropping fenced code from a review body, line by line, and the fences of section 4.5 of the
    CommonMark specification (src/panopticon/container/reviewers.py). */
module Fences {
  import opened Models
  import Sequences

  /** The opening run that a closing fence must match: its character and its length. */
  datatype Fence = Fence(mark: char, size: nat)

  // ---- the two patterns -----------------------------------------------------------------------

  /** The length of the run of `c` that `s` starts with. */
  function Run(s: string, c: char): (n: nat)
    ensures n <= |s| && (forall i :: 0 <= i < n ==> s[i] == c) && (n < |s| ==> s[n] != c)
  {
    if s == "" || s[0] != c then 0
    else
      var n := Run(s[1..], c);
      assert forall i :: 0 < i < n + 1 ==> s[i] == s[1..][i - 1];
      n + 1
  }

  predicate Blank(s: string) {
    forall i :: 0 <= i < |s| ==> s[i] == ' ' || s[i] == '\t'
  }

  /** The fence a line opens: at most three spaces, three or more of one mark, and no backtick in
      the info string of a backtick fence. */
  function Opening(line: string): Option<Fence> {
    var indent := Run(line, ' ');
    if indent > 3 || indent == |line| then None
    else
      var mark := line[indent];
      var size := Run(line[indent..], mark);
      if (mark == '`' || mark == '~') && size >= 3 && !(mark == '`' && '`' in line[indent + size..])
      then Some(Fence(mark, size)) else None
  }

  predicate Closes(line: string, f: Fence) {
    var indent := Run(line, ' ');
    var size := Run(line[indent..], f.mark);
    indent <= 3 && size >= f.size && Blank(line[indent + size..])
  }

  // ---- the same lines, as the specification describes them ------------------------------------

  function Repeat(c: char, n: nat): string {
    seq(n, _ => c)
  }

  ghost predicate IsOpeningFence(line: string, f: Fence, indent: nat, info: string) {
    && line == Repeat(' ', indent) + Repeat(f.mark, f.size) + info
    && indent <= 3 && f.mark in {'`', '~'} && f.size >= 3
    && (info == "" || info[0] != f.mark)
    && (f.mark == '`' ==> '`' !in info)
  }

  ghost predicate IsClosingFence(line: string, f: Fence, indent: nat, size: nat, trailing: string) {
    && line == Repeat(' ', indent) + Repeat(f.mark, size) + trailing
    && indent <= 3 && size >= f.size && Blank(trailing)
  }

  lemma RunOfRepeat(c: char, n: nat, rest: string)
    requires rest == "" || rest[0] != c
    ensures Run(Repeat(c, n) + rest, c) == n
  {
    var s := Repeat(c, n) + rest;
    assert forall i :: 0 <= i < n ==> s[i] == c;
    assert n < |s| ==> s[n] == rest[0];
  }

  lemma RunIsRepeat(s: string, c: char)
    ensures s == Repeat(c, Run(s, c)) + s[Run(s, c)..]
  {
    var n := Run(s, c);
    assert s[..n] == Repeat(c, n);
    Sequences.Halves(s, n);
  }

  /** A line that starts with two runs and goes on with the rest. */
  lemma TwoRuns(line: string, i: nat, n: nat, c: char)
    requires i == Run(line, ' ') && n == Run(line[i..], c)
    ensures line == Repeat(' ', i) + Repeat(c, n) + line[i + n..]
  {
    RunIsRepeat(line, ' ');
    RunIsRepeat(line[i..], c);
    Sequences.Drops(line, i, n);
    Sequences.Regroup(Repeat(' ', i), Repeat(c, n), line[i + n..]);
  }

  lemma ReadTwoRuns(i: nat, n: nat, c: char, rest: string)
    requires c != ' ' && n > 0 && (rest == "" || rest[0] != c)
    ensures var line := Repeat(' ', i) + Repeat(c, n) + rest;
            Run(line, ' ') == i && i < |line| && line[i] == c && Run(line[i..], c) == n && line[i + n..] == rest
  {
    var run := Repeat(c, n) + rest;
    var line := Repeat(' ', i) + Repeat(c, n) + rest;
    assert line == Repeat(' ', i) + run && run[0] == c;
    RunOfRepeat(' ', i, run);
    RunOfRepeat(c, n, rest);
    assert line[i..] == run;
  }

  /** A line opens a fence exactly when it is an opening code fence of the specification. */
  lemma OpensAsSpecified(line: string, f: Fence)
    ensures Opening(line) == Some(f) <==> exists indent: nat, info :: IsOpeningFence(line, f, indent, info)
  {
    if Opening(line) == Some(f) {
      var indent := Run(line, ' ');
      TwoRuns(line, indent, f.size, f.mark);
      assert IsOpeningFence(line, f, indent, line[indent + f.size..]);
    }
    if indent: nat, info :| IsOpeningFence(line, f, indent, info) {
      ReadTwoRuns(indent, f.size, f.mark, info);
    }
  }

  /** A line closes a fence exactly when it is a closing code fence of the specification for it. */
  lemma ClosesAsSpecified(line: string, f: Fence)
    requires f.mark in {'`', '~'} && f.size >= 3
    ensures Closes(line, f) <==>
            exists indent: nat, size: nat, trailing :: IsClosingFence(line, f, indent, size, trailing)
  {
    if Closes(line, f) {
      var indent := Run(line, ' ');
      var size := Run(line[indent..], f.mark);
      TwoRuns(line, indent, size, f.mark);
      assert IsClosingFence(line, f, indent, size, line[indent + size..]);
    }
    if indent: nat, size: nat, trailing :| IsClosingFence(line, f, indent, size, trailing) {
      ReadTwoRuns(indent, size, f.mark, trailing);
    }
  }

  // ---- fenced blocks --------------------------------------------------------------------------

  /** Line `k` starts a fenced block: it opens a fence and is not inside an earlier block. */
  ghost predicate Starts(lines: seq<string>, k: nat)
    requires k < |lines|
    decreases k, 1
  {
    Opening(lines[k]).Some? && forall o: nat {:trigger OpenAt(lines, o, k)} :: o < k ==> !OpenAt(lines, o, k)
  }

  /** The block that starts at line `o` is still open before line `k`. */
  ghost predicate OpenAt(lines: seq<string>, o: nat, k: nat)
    requires o < k <= |lines|
    decreases k, 0
  {
    Starts(lines, o) && forall j :: o < j < k ==> !Closes(lines[j], Opening(lines[o]).value)
  }

  /** Line `k` belongs to a fenced block, its fences included; an unclosed block runs to the end. */
  ghost predicate Fenced(lines: seq<string>, k: nat)
    requires k < |lines|
  {
    Starts(lines, k) || exists o: nat {:trigger OpenAt(lines, o, k)} :: o < k && OpenAt(lines, o, k)
  }

  lemma OpenEarlier(lines: seq<string>, o: nat, k: nat, k': nat)
    requires o < k' <= k <= |lines| && OpenAt(lines, o, k)
    ensures OpenAt(lines, o, k')
  {
  }

  lemma OneBlockIsOpen(lines: seq<string>, o: nat, o': nat, k: nat)
    requires o < k <= |lines| && o' < k && OpenAt(lines, o, k) && OpenAt(lines, o', k)
    ensures o == o'
  {
    if o < o' {
      OpenEarlier(lines, o, k, o');
    } else if o' < o {
      OpenEarlier(lines, o', k, o);
    }
  }

  ghost predicate NothingOpenAt(lines: seq<string>, k: nat)
    requires k <= |lines|
  {
    forall o: nat {:trigger OpenAt(lines, o, k)} :: o < k ==> !OpenAt(lines, o, k)
  }

  // ---- the filter -----------------------------------------------------------------------------

  /** The lines before `n` that no fenced block holds. */
  ghost function Kept(lines: seq<string>, n: nat): seq<string>
    requires n <= |lines|
  {
    if n == 0 then [] else Kept(lines, n - 1) + if Fenced(lines, n - 1) then [] else [lines[n - 1]]
  }

  /** Before line `i` the fence of the block that is open there, if any, is remembered. */
  ghost predicate Tracks(lines: seq<string>, i: nat, fence: Option<Fence>) {
    && i <= |lines|
    && (fence.None? ==> NothingOpenAt(lines, i))
    && (fence.Some? ==> exists o: nat {:trigger OpenAt(lines, o, i)} ::
                  o < i && OpenAt(lines, o, i) && Opening(lines[o]) == fence)
  }

  lemma TracksLine(lines: seq<string>, i: nat, fence: Option<Fence>)
    requires i < |lines| && Tracks(lines, i, fence)
    ensures Fenced(lines, i) <==> fence.Some? || Opening(lines[i]).Some?
    ensures Tracks(lines, i + 1,
                   if fence.None? then Opening(lines[i]) else if Closes(lines[i], fence.value) then None else fence)
  {
    if fence.Some? {
      var open: nat :| open < i && OpenAt(lines, open, i) && Opening(lines[open]) == fence;
      if Closes(lines[i], fence.value) {
        NothingStaysOpen(lines, open, i, fence.value);
      } else {
        BlockGoesOn(lines, open, i, fence.value);
      }
    } else if Opening(lines[i]).Some? {
      BlockStarts(lines, i);
    } else {
      NothingStarts(lines, i);
    }
  }

  /** The filter's loop invariant: the lines kept so far, and the fence that is open. */
  ghost predicate Filtered(lines: seq<string>, i: nat, kept: seq<string>, fence: Option<Fence>) {
    Tracks(lines, i, fence) && kept == Kept(lines, i)
  }

  lemma FilterLine(lines: seq<string>, i: nat, kept: seq<string>, fence: Option<Fence>)
    requires i < |lines| && Filtered(lines, i, kept, fence)
    ensures var opening := Opening(lines[i]);
            if fence.Some? then Filtered(lines, i + 1, kept, if Closes(lines[i], fence.value) then None else fence)
            else Filtered(lines, i + 1, if opening.Some? then kept else kept + [lines[i]], opening)
  {
    TracksLine(lines, i, fence);
    assert kept + [] == kept;
  }

  method KeepUnfenced(lines: seq<string>) returns (kept: seq<string>)
    ensures kept == Kept(lines, |lines|)
  {
    kept := [];
    var fence: Option<Fence> := None;
    for i := 0 to |lines|
      invariant Filtered(lines, i, kept, fence)
    {
      var line := lines[i];
      FilterLine(lines, i, kept, fence);
      if fence.Some? {
        if Closes(line, fence.value) {
          fence := None;
        }
      } else {
        var opening := Opening(line);
        if opening.Some? {
          fence := opening;
        } else {
          kept := kept + [line];
        }
      }
    }
  }

  lemma BlockGoesOn(lines: seq<string>, open: nat, i: nat, f: Fence)
    requires open < i < |lines| && OpenAt(lines, open, i) && Opening(lines[open]) == Some(f) && !Closes(lines[i], f)
    ensures Fenced(lines, i) && OpenAt(lines, open, i + 1)
  {
  }

  lemma BlockStarts(lines: seq<string>, i: nat)
    requires i < |lines| && NothingOpenAt(lines, i) && Opening(lines[i]).Some?
    ensures Fenced(lines, i) && OpenAt(lines, i, i + 1)
  {
  }

  lemma ClosedBlock(lines: seq<string>, open: nat, i: nat, f: Fence)
    requires open < i < |lines| && Opening(lines[open]) == Some(f) && Closes(lines[i], f)
    ensures !OpenAt(lines, open, i + 1)
  {
  }

  lemma NotInside(lines: seq<string>, open: nat, i: nat)
    requires open < i < |lines| && OpenAt(lines, open, i)
    ensures Fenced(lines, i) && !Starts(lines, i)
  {
  }

  lemma NotOpenAfter(lines: seq<string>, open: nat, i: nat, f: Fence, o: nat)
    requires open < i < |lines| && OpenAt(lines, open, i) && Opening(lines[open]) == Some(f) && Closes(lines[i], f)
    requires o < i + 1
    ensures !OpenAt(lines, o, i + 1)
  {
    ClosedBlock(lines, open, i, f);
    NotInside(lines, open, i);
    if o < i && OpenAt(lines, o, i + 1) {
      OpenEarlier(lines, o, i + 1, i);
      OneBlockIsOpen(lines, o, open, i);
    }
  }

  lemma NothingStaysOpen(lines: seq<string>, open: nat, i: nat, f: Fence)
    requires open < i < |lines| && OpenAt(lines, open, i) && Opening(lines[open]) == Some(f) && Closes(lines[i], f)
    ensures Fenced(lines, i) && NothingOpenAt(lines, i + 1)
  {
    NotInside(lines, open, i);
    forall o: nat {:trigger OpenAt(lines, o, i + 1)} | o < i + 1
      ensures !OpenAt(lines, o, i + 1)
    {
      NotOpenAfter(lines, open, i, f, o);
    }
  }

  lemma NothingStarts(lines: seq<string>, i: nat)
    requires i < |lines| && NothingOpenAt(lines, i) && Opening(lines[i]).None?
    ensures !Fenced(lines, i) && NothingOpenAt(lines, i + 1)
  {
    forall o: nat {:trigger OpenAt(lines, o, i + 1)} | o < i
      ensures OpenAt(lines, o, i + 1) ==> OpenAt(lines, o, i)
    {
    }
  }

  lemma UnfencedOpensNothing(lines: seq<string>, k: nat)
    requires k < |lines| && !Fenced(lines, k)
    ensures Opening(lines[k]).None?
  {
    assert NothingOpenAt(lines, k);
    if Opening(lines[k]).Some? {
      BlockStarts(lines, k);
    }
  }

  lemma {:induction false} KeptLinesOpenNothing(lines: seq<string>, n: nat)
    requires n <= |lines|
    ensures forall i :: 0 <= i < |Kept(lines, n)| ==> Opening(Kept(lines, n)[i]).None?
  {
    if n == 0 {
    } else {
      KeptLinesOpenNothing(lines, n - 1);
      if !Fenced(lines, n - 1) {
        UnfencedOpensNothing(lines, n - 1);
      }
    }
  }

  lemma NotFenced(lines: seq<string>, k: nat)
    requires k < |lines| && forall i :: 0 <= i < |lines| ==> Opening(lines[i]).None?
    ensures !Fenced(lines, k)
  {
    forall o: nat {:trigger OpenAt(lines, o, k)} | o < k
      ensures !OpenAt(lines, o, k)
    {
      assert Opening(lines[o]).None?;
    }
  }

  lemma {:induction false} NoOpeningKeepsAll(lines: seq<string>, n: nat)
    requires n <= |lines| && forall i :: 0 <= i < |lines| ==> Opening(lines[i]).None?
    ensures Kept(lines, n) == lines[..n]
  {
    if n == 0 {
    } else {
      NoOpeningKeepsAll(lines, n - 1);
      NotFenced(lines, n - 1);
    }
  }

  /** Filtering what the filter kept changes nothing: no kept line opens a fence. */
  lemma KeptTwice(lines: seq<string>)
    ensures var kept := Kept(lines, |lines|); Kept(kept, |kept|) == kept
  {
    KeptLinesOpenNothing(lines, |lines|);
    var kept := Kept(lines, |lines|);
    NoOpeningKeepsAll(kept, |kept|);
    assert kept[..|kept|] == kept;
  }
}
