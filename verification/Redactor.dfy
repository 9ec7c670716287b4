/** Redaction of configured credentials in a streamed response body (`_redact_stream_chunk` and its
    caller in src/panopticon/taskservice/api.py, the token grammar in
    src/panopticon/taskservice/auth.py). */
module Redactor {
  import opened Bytes
  import Sequences

  /** `[redacted]` in ASCII. */
  const REDACTED: bytes := [91, 114, 101, 100, 97, 99, 116, 101, 100, 93]
  const OPEN: byte := 91
  const CLOSE: byte := 93

  // ---- the specification: one-shot replacement ------------------------------------------------

  predicate StartsWith(data: bytes, t: bytes) {
    |t| <= |data| && data[..|t|] == t
  }

  /** The first alternative that matches at the front, as a regular expression tries them. */
  function MatchHere(tokens: seq<bytes>, data: bytes): (r: bytes)
    ensures r != [] ==> r in tokens && StartsWith(data, r)
    ensures r == [] ==> forall t :: t in tokens && t != [] ==> !StartsWith(data, t)
  {
    if tokens == [] then []
    else if tokens[0] != [] && StartsWith(data, tokens[0]) then tokens[0]
    else MatchHere(tokens[1..], data)
  }

  /** Leftmost replacement over the whole stream: at each position the first matching token is
      replaced, and scanning goes on behind it. */
  function Redact(tokens: seq<bytes>, data: bytes): bytes
    decreases |data|
  {
    if data == [] then []
    else
      var t := MatchHere(tokens, data);
      if t != [] then REDACTED + Redact(tokens, data[|t|..]) else [data[0]] + Redact(tokens, data[1..])
  }

  /** With the tokens longest first, the match at a position is a longest one. */
  lemma {:induction false} LongestFirst(tokens: seq<bytes>, data: bytes)
    requires forall i, j :: 0 <= i < j < |tokens| ==> |tokens[i]| >= |tokens[j]|
    ensures forall t :: t in tokens && StartsWith(data, t) ==> |t| <= |MatchHere(tokens, data)|
  {
    if tokens == [] {
    } else {
      LongestFirst(tokens[1..], data);
      forall t | t in tokens && StartsWith(data, t)
        ensures |t| <= |MatchHere(tokens, data)|
      {
        var i :| 0 <= i < |tokens| && tokens[i] == t;
        assert i > 0 ==> tokens[1..][i - 1] == t;
      }
    }
  }

  /** Text that is shown, or a token that is hidden. */
  datatype Part = Shown(text: bytes) | Hidden(token: bytes) {
    function Original(): bytes { if Shown? then text else token }

    function Visible(): bytes { if Shown? then text else REDACTED }
  }

  function Originals(parts: seq<Part>): bytes {
    if parts == [] then [] else parts[0].Original() + Originals(parts[1..])
  }

  function Visibles(parts: seq<Part>): bytes {
    if parts == [] then [] else parts[0].Visible() + Visibles(parts[1..])
  }

  ghost predicate BeginsWithToken(tokens: seq<bytes>, data: bytes) {
    exists t :: t in tokens && t != [] && t <= data
  }

  /** The leftmost cut: each hidden part is a configured token, and where a byte is shown no token
      begins. */
  ghost predicate LeftmostCut(tokens: seq<bytes>, parts: seq<Part>) {
    parts != [] ==>
      && (parts[0].Hidden? ==> parts[0].token in tokens && parts[0].token != [])
      && (parts[0].Shown? ==> |parts[0].text| == 1 && !BeginsWithToken(tokens, Originals(parts)))
      && LeftmostCut(tokens, parts[1..])
  }

  /** Redaction only replaces: the data is cut into tokens and other bytes from the left, each token is
      replaced by `[redacted]`, and every other byte comes out in its place. */
  lemma {:induction false} RedactionReplaces(tokens: seq<bytes>, data: bytes) returns (parts: seq<Part>)
    ensures Originals(parts) == data && Visibles(parts) == Redact(tokens, data)
    ensures LeftmostCut(tokens, parts)
    decreases |data|
  {
    if data == [] {
      parts := [];
    } else {
      var t := MatchHere(tokens, data);
      var n := if t == [] then 1 else |t|;
      var rest := RedactionReplaces(tokens, data[n..]);
      parts := [if t == [] then Shown([data[0]]) else Hidden(t)] + rest;
      assert parts[1..] == rest;
      Sequences.Halves(data, n);
      assert t == [] ==> data[..1] == [data[0]];
      assert BeginsWithToken(tokens, data) ==> t != [];
    }
  }

  /** Data in which no token occurs comes out unchanged. */
  lemma {:induction false} NothingHidden(tokens: seq<bytes>, data: bytes)
    requires forall i :: 0 <= i < |data| ==> !BeginsWithToken(tokens, data[i..])
    ensures Redact(tokens, data) == data
    decreases |data|
  {
    if data == [] {
    } else {
      assert data[0..] == data;
      assert MatchHere(tokens, data) != [] ==> BeginsWithToken(tokens, data);
      forall i | 0 <= i < |data[1..]|
        ensures !BeginsWithToken(tokens, data[1..][i..])
      {
        assert data[1..][i..] == data[i + 1..];
      }
      NothingHidden(tokens, data[1..]);
    }
  }

  // ---- one chunk ------------------------------------------------------------------------------

  /** `data` ends with the first `size` bytes of the token, and the token goes on. */
  predicate EndsInside(data: bytes, t: bytes, size: int) {
    0 < size < |t| && size <= |data| && data[|data| - size..] == t[..size]
  }

  /** How much to hold back: the longest proper token prefix at the end of the data. */
  method Held(tokens: seq<bytes>, data: bytes) returns (held: nat)
    ensures held <= |data|
    ensures held > 0 ==> exists t :: t in tokens && EndsInside(data, t, held)
    ensures forall t, size :: t in tokens && EndsInside(data, t, size) ==> size <= held
  {
    held := 0;
    for i := 0 to |tokens|
      invariant held <= |data|
      invariant held > 0 ==> exists t :: t in tokens && EndsInside(data, t, held)
      invariant forall j, size :: 0 <= j < i && EndsInside(data, tokens[j], size) ==> size <= held
    {
      var t := tokens[i];
      var limit := if |data| < |t| - 1 then |data| else |t| - 1;
      var size := 1;
      while size <= limit
        invariant size >= 1 && held <= |data|
        invariant held > 0 ==> exists t :: t in tokens && EndsInside(data, t, held)
        invariant forall j, s :: 0 <= j < i && EndsInside(data, tokens[j], s) ==> s <= held
        invariant forall s :: EndsInside(data, t, s) && s < size ==> s <= held
      {
        if data[|data| - size..] == t[..size] && size > held {
          assert t in tokens && EndsInside(data, t, size);
          held := size;
        }
        size := size + 1;
      }
    }
  }

  /** `Pattern.search` from a position: the leftmost match, or the end of the data. */
  method Search(tokens: seq<bytes>, data: bytes, from: nat) returns (start: nat, end: nat)
    requires from <= |data|
    ensures from <= start <= |data|
    ensures forall p :: from <= p < start ==> MatchHere(tokens, data[p..]) == []
    ensures start < |data| ==>
              MatchHere(tokens, data[start..]) != [] && end == start + |MatchHere(tokens, data[start..])|
    ensures start <= end <= |data|
  {
    start := from;
    while start < |data| && MatchHere(tokens, data[start..]) == []
      invariant from <= start <= |data|
      invariant forall p :: from <= p < start ==> MatchHere(tokens, data[p..]) == []
    {
      start := start + 1;
    }
    end := if start < |data| then start + |MatchHere(tokens, data[start..])| else start;
  }

  /** No token that could still complete behind the data begins before `safeEnd`. */
  ghost predicate Settled(tokens: seq<bytes>, data: bytes, safeEnd: nat) {
    safeEnd <= |data| &&
    forall t, size :: t in tokens && EndsInside(data, t, size) ==> size <= |data| - safeEnd
  }

  lemma CannotComplete(d: bytes, t: bytes, rest: bytes)
    requires |d| < |t| && d != t[..|d|]
    ensures !StartsWith(d + rest, t)
  {
    if |t| <= |d + rest| {
      assert (d + rest)[..|t|][..|d|] == d;
    }
  }

  /** Before `safeEnd`, what comes after the data cannot change a match. */
  lemma {:induction false} MatchIsSettled(tokens: seq<bytes>, all: seq<bytes>, data: bytes,
                                          safeEnd: nat, p: nat, rest: bytes)
    requires Settled(all, data, safeEnd) && p < safeEnd && (forall t :: t in tokens ==> t in all)
    ensures MatchHere(tokens, data[p..] + rest) == MatchHere(tokens, data[p..])
  {
    if tokens == [] {
    } else {
      var t, d := tokens[0], data[p..];
      MatchIsSettled(tokens[1..], all, data, safeEnd, p, rest);
      assert !EndsInside(data, t, |d|) && data[|data| - |d|..] == d;
      if |t| <= |d| {
        assert (d + rest)[..|t|] == d[..|t|];
      } else {
        CannotComplete(d, t, rest);
      }
    }
  }

  lemma RedactOne(tokens: seq<bytes>, d: bytes)
    requires d != [] && MatchHere(tokens, d) == []
    ensures Redact(tokens, d) == [d[0]] + Redact(tokens, d[1..])
  {
  }

  lemma RedactMatch(tokens: seq<bytes>, d: bytes, n: nat, after: bytes)
    requires n > 0 && |MatchHere(tokens, d)| == n && d[n..] == after
    ensures Redact(tokens, d) == REDACTED + Redact(tokens, after)
  {
  }

  /** Dropping from the front of data that goes on with `rest`. */
  lemma DropJoined(data: bytes, at: nat, end: nat, rest: bytes)
    requires at <= end <= |data|
    ensures (data[at..] + rest)[end - at..] == data[end..] + rest
  {
  }

  lemma CopyJoined(data: bytes, from: nat, to: nat, redacted: bytes)
    requires from < to <= |data|
    ensures [data[from]] + (data[from + 1..to] + redacted) == data[from..to] + redacted
  {
  }

  /** Bytes without a match are copied. */
  lemma {:induction false} RedactCopies(tokens: seq<bytes>, data: bytes, from: nat, to: nat, rest: bytes)
    requires from <= to <= |data|
    requires forall p :: from <= p < to ==> MatchHere(tokens, data[p..] + rest) == []
    ensures Redact(tokens, data[from..] + rest) == data[from..to] + Redact(tokens, data[to..] + rest)
    decreases |data| - from
  {
    if from == to {
      assert data[from..to] == [];
    } else {
      DropJoined(data, from, from + 1, rest);
      RedactOne(tokens, data[from..] + rest);
      RedactCopies(tokens, data, from + 1, to, rest);
      CopyJoined(data, from, to, Redact(tokens, data[to..] + rest));
    }
  }

  lemma RedactReplaces(tokens: seq<bytes>, data: bytes, at: nat, end: nat, rest: bytes)
    requires at < end <= |data| && |MatchHere(tokens, data[at..] + rest)| == end - at
    ensures Redact(tokens, data[at..] + rest) == REDACTED + Redact(tokens, data[end..] + rest)
  {
    DropJoined(data, at, end, rest);
    RedactMatch(tokens, data[at..] + rest, end - at, data[end..] + rest);
  }

  /** What follows cannot change the matches before `safeEnd`, or nothing follows. */
  ghost predicate SafeBefore(tokens: seq<bytes>, data: bytes, safeEnd: nat, rest: bytes) {
    safeEnd <= |data| && (Settled(tokens, data, safeEnd) || rest == [])
  }

  lemma MatchIsSafe(tokens: seq<bytes>, data: bytes, safeEnd: nat, p: nat, rest: bytes)
    requires SafeBefore(tokens, data, safeEnd, rest) && p < safeEnd
    ensures MatchHere(tokens, data[p..] + rest) == MatchHere(tokens, data[p..])
  {
    if rest == [] {
      assert data[p..] + rest == data[p..];
    } else {
      MatchIsSettled(tokens, tokens, data, safeEnd, p, rest);
    }
  }

  /** Bytes before `safeEnd` at which nothing matches are copied, whatever follows. */
  lemma CopySafe(tokens: seq<bytes>, data: bytes, safeEnd: nat, from: nat, to: nat, rest: bytes)
    requires SafeBefore(tokens, data, safeEnd, rest) && from <= to <= safeEnd
    requires forall p :: from <= p < to ==> MatchHere(tokens, data[p..]) == []
    ensures Redact(tokens, data[from..] + rest) == data[from..to] + Redact(tokens, data[to..] + rest)
  {
    forall p | from <= p < to
      ensures MatchHere(tokens, data[p..] + rest) == []
    {
      MatchIsSafe(tokens, data, safeEnd, p, rest);
    }
    RedactCopies(tokens, data, from, to, rest);
  }

  /** One match of the scan. */
  lemma ReplaceSafe(tokens: seq<bytes>, data: bytes, safeEnd: nat, from: nat, start: nat, end: nat, rest: bytes)
    requires SafeBefore(tokens, data, safeEnd, rest) && from <= start < safeEnd && start < end <= |data|
    requires forall p :: from <= p < start ==> MatchHere(tokens, data[p..]) == []
    requires |MatchHere(tokens, data[start..])| == end - start
    ensures Redact(tokens, data[from..] + rest) == data[from..start] + REDACTED + Redact(tokens, data[end..] + rest)
  {
    CopySafe(tokens, data, safeEnd, from, start, rest);
    MatchIsSafe(tokens, data, safeEnd, start, rest);
    RedactReplaces(tokens, data, start, end, rest);
  }

  /** Whatever follows the data: the output is the redaction of what is consumed. */
  ghost predicate Emitted(tokens: seq<bytes>, data: bytes, safeEnd: nat, output: bytes, consumed: nat) {
    && safeEnd <= |data| && consumed <= |data|
    && forall rest {:trigger Redact(tokens, data + rest)} :: SafeBefore(tokens, data, safeEnd, rest) ==>
         Redact(tokens, data + rest) == output + Redact(tokens, data[consumed..] + rest)
  }

  lemma EmittedNothing(tokens: seq<bytes>, data: bytes, safeEnd: nat)
    requires safeEnd <= |data|
    ensures Emitted(tokens, data, safeEnd, [], 0)
  {
    assert data[0..] == data;
  }

  lemma EmittedTail(tokens: seq<bytes>, data: bytes, safeEnd: nat, output: bytes, consumed: nat)
    requires Emitted(tokens, data, safeEnd, output, consumed) && consumed <= safeEnd
    requires forall p :: consumed <= p < safeEnd ==> MatchHere(tokens, data[p..]) == []
    ensures Emitted(tokens, data, safeEnd, output + data[consumed..safeEnd], safeEnd)
  {
    forall rest {:trigger Redact(tokens, data + rest)} | SafeBefore(tokens, data, safeEnd, rest)
      ensures Redact(tokens, data + rest)
              == output + data[consumed..safeEnd] + Redact(tokens, data[safeEnd..] + rest)
    {
      CopySafe(tokens, data, safeEnd, consumed, safeEnd, rest);
      Sequences.Regroup(output, data[consumed..safeEnd], Redact(tokens, data[safeEnd..] + rest));
    }
  }

  lemma EmittedMatch(tokens: seq<bytes>, data: bytes, safeEnd: nat, output: bytes, consumed: nat, start: nat, end: nat)
    requires Emitted(tokens, data, safeEnd, output, consumed) && consumed <= start < safeEnd && start < end <= |data|
    requires forall p :: consumed <= p < start ==> MatchHere(tokens, data[p..]) == []
    requires |MatchHere(tokens, data[start..])| == end - start
    ensures Emitted(tokens, data, safeEnd, output + (data[consumed..start] + REDACTED), end)
  {
    forall rest {:trigger Redact(tokens, data + rest)} | SafeBefore(tokens, data, safeEnd, rest)
      ensures Redact(tokens, data + rest)
              == output + (data[consumed..start] + REDACTED) + Redact(tokens, data[end..] + rest)
    {
      ReplaceSafe(tokens, data, safeEnd, consumed, start, end, rest);
      Sequences.Regroup(output, data[consumed..start] + REDACTED, Redact(tokens, data[end..] + rest));
    }
  }

  /** The scan loop: emit everything before `safeEnd`, replacing matches that begin there. */
  method Emit(tokens: seq<bytes>, data: bytes, safeEnd: nat) returns (output: bytes, consumed: nat)
    requires safeEnd <= |data|
    ensures safeEnd <= consumed && Emitted(tokens, data, safeEnd, output, consumed)
  {
    output, consumed := [], 0;
    EmittedNothing(tokens, data, safeEnd);
    while true
      invariant Emitted(tokens, data, safeEnd, output, consumed)
      decreases |data| - consumed
    {
      var start, end := Search(tokens, data, consumed);
      if start >= safeEnd || start == |data| {
        if consumed < safeEnd {
          EmittedTail(tokens, data, safeEnd, output, consumed);
          output := output + data[consumed..safeEnd];
          consumed := safeEnd;
        }
        return;
      }
      EmittedMatch(tokens, data, safeEnd, output, consumed, start, end);
      output := output + (data[consumed..start] + REDACTED);
      consumed := end;
    }
  }

  lemma {:induction false} NothingToRedact(data: bytes)
    ensures Redact([], data) == data
    decreases |data|
  {
    if data == [] {
    } else {
      NothingToRedact(data[1..]);
    }
  }

  /** `_redact_stream_chunk`. Whatever follows, the output and the redaction of what is still pending
      make up the redaction of the whole; the last call leaves nothing pending; and what is pending is
      shorter than some token. */
  method RedactStreamChunk(chunk: bytes, tokens: seq<bytes>, pending: bytes, moreBody: bool)
    returns (output: bytes, newPending: bytes)
    ensures forall rest {:trigger Redact(tokens, pending + chunk + rest)} :: (moreBody || rest == []) ==>
              Redact(tokens, pending + chunk + rest) == output + Redact(tokens, newPending + rest)
    ensures !moreBody ==> newPending == []
    ensures newPending != [] ==> exists t :: t in tokens && |newPending| < |t|
  {
    var data := pending + chunk;
    if tokens == [] {
      forall rest {:trigger Redact(tokens, data + rest)}
        ensures Redact(tokens, data + rest) == data + Redact(tokens, [] + rest)
      {
        NothingToRedact(data + rest);
        NothingToRedact([] + rest);
      }
      return data, [];
    }
    var held := 0;
    if moreBody {
      held := Held(tokens, data);
    }
    var consumed;
    output, consumed := Emit(tokens, data, |data| - held);
    newPending := data[consumed..];
    assert moreBody ==> Settled(tokens, data, |data| - held);
    forall rest {:trigger Redact(tokens, data + rest)} | moreBody || rest == []
      ensures Redact(tokens, data + rest) == output + Redact(tokens, newPending + rest)
    {
      assert SafeBefore(tokens, data, |data| - held, rest);
    }
  }

  // ---- the whole stream -----------------------------------------------------------------------

  /** The chunks joined, with the last one behind them. */
  function Joined(chunks: seq<bytes>, last: bytes): bytes {
    if chunks == [] then last else chunks[0] + Joined(chunks[1..], last)
  }

  /** A response body arriving in chunks, as the caller threads it through: however it is split, the
      client receives the redaction of the whole. */
  method RedactBody(tokens: seq<bytes>, chunks: seq<bytes>, last: bytes) returns (sent: bytes)
    ensures sent == Redact(tokens, Joined(chunks, last))
  {
    sent := [];
    var pending: bytes := [];
    var todo := chunks;
    assert [] + Joined(chunks, last) == Joined(chunks, last);
    while todo != []
      invariant Redact(tokens, Joined(chunks, last)) == sent + Redact(tokens, pending + Joined(todo, last))
    {
      var output;
      ghost var held := pending;
      output, pending := RedactStreamChunk(todo[0], tokens, pending, true);
      OneMoreChunk(tokens, todo, last, held, output, pending);
      Sequences.Regroup(sent, output, Redact(tokens, pending + Joined(todo[1..], last)));
      sent := sent + output;
      todo := todo[1..];
    }
    ghost var held := pending;
    var output;
    output, pending := RedactStreamChunk(last, tokens, pending, false);
    LastChunk(tokens, held, last, output);
    sent := sent + output;
  }

  lemma LastChunk(tokens: seq<bytes>, held: bytes, last: bytes, output: bytes)
    requires Redact(tokens, held + last + []) == output + Redact(tokens, [] + [])
    ensures Redact(tokens, held + Joined([], last)) == output
  {
    assert held + last + [] == held + last;
  }

  lemma OneMoreChunk(tokens: seq<bytes>, todo: seq<bytes>, last: bytes, held: bytes, output: bytes, pending: bytes)
    requires todo != []
    requires forall rest {:trigger Redact(tokens, held + todo[0] + rest)} ::
               Redact(tokens, held + todo[0] + rest) == output + Redact(tokens, pending + rest)
    ensures Redact(tokens, held + Joined(todo, last)) == output + Redact(tokens, pending + Joined(todo[1..], last))
  {
    var rest := Joined(todo[1..], last);
    assert held + (todo[0] + rest) == held + todo[0] + rest;
  }

  // ---- no token survives ----------------------------------------------------------------------

  ghost predicate OccursAt(text: bytes, t: bytes, i: nat) {
    i + |t| <= |text| && text[i..i + |t|] == t
  }

  ghost predicate Occurs(text: bytes, t: bytes) {
    exists i: nat :: OccursAt(text, t, i)
  }

  predicate BracketFree(t: bytes) {
    OPEN !in t && CLOSE !in t
  }

  /** Up to its first bracket, the redacted text is a copy of the original. */
  lemma FrontTail(s: bytes, n: nat)
    requires 0 < n <= |s|
    ensures s[..n] == [s[0]] + s[1..][..n - 1] && (OPEN !in s[..n] ==> s[0] != OPEN && OPEN !in s[1..][..n - 1])
  {
    assert s[..n][0] == s[0];
    assert s[1..][..n - 1] == s[..n][1..];
  }

  lemma {:induction false} CopiedUpToBracket(tokens: seq<bytes>, data: bytes, n: nat)
    requires n <= |Redact(tokens, data)| && OPEN !in Redact(tokens, data)[..n]
    ensures n <= |data| && data[..n] == Redact(tokens, data)[..n]
    decreases |data|
  {
    if n == 0 {
      assert data[..0] == [] == Redact(tokens, data)[..0];
    } else {
      var r := Redact(tokens, data);
      FrontTail(r, n);
      RedactOne(tokens, data);
      assert r[1..] == Redact(tokens, data[1..]);
      CopiedUpToBracket(tokens, data[1..], n - 1);
      FrontTail(data, n);
    }
  }

  lemma OccursBehind(a: bytes, b: bytes, t: bytes, i: nat)
    requires |a| <= i && OccursAt(a + b, t, i)
    ensures OccursAt(b, t, i - |a|)
  {
    assert (a + b)[i..i + |t|] == b[i - |a|..i - |a| + |t|];
  }

  lemma OccursAtReplacement(tail: bytes, t: bytes, i: nat)
    requires t != [] && i < |REDACTED| && OccursAt(REDACTED + tail, t, i)
    ensures Occurs(REDACTED, t) || CLOSE in t
  {
    var r := REDACTED + tail;
    if i + |t| <= |REDACTED| {
      assert REDACTED[i..i + |t|] == r[i..i + |t|];
      assert OccursAt(REDACTED, t, i);
    } else {
      assert t[9 - i] == r[i..i + |t|][9 - i] == REDACTED[9];
    }
  }

  lemma NoTokenAtFront(tokens: seq<bytes>, data: bytes, t: bytes)
    requires t in tokens && t != [] && OPEN !in t && MatchHere(tokens, data) == []
    ensures !OccursAt(Redact(tokens, data), t, 0)
  {
    if |t| <= |Redact(tokens, data)| && OPEN !in Redact(tokens, data)[..|t|] {
      CopiedUpToBracket(tokens, data, |t|);
    }
  }

  lemma {:induction false} NoTokenAt(tokens: seq<bytes>, data: bytes, t: bytes, i: nat)
    requires t in tokens && t != [] && BracketFree(t) && !Occurs(REDACTED, t)
    ensures !OccursAt(Redact(tokens, data), t, i)
    decreases |data|
  {
    if data == [] {
    } else {
      var m := MatchHere(tokens, data);
      if m != [] {
        var tail := Redact(tokens, data[|m|..]);
        if OccursAt(REDACTED + tail, t, i) {
          if i < |REDACTED| {
            OccursAtReplacement(tail, t, i);
          } else {
            OccursBehind(REDACTED, tail, t, i);
            NoTokenAt(tokens, data[|m|..], t, i - |REDACTED|);
          }
        }
      } else if i == 0 {
        NoTokenAtFront(tokens, data, t);
      } else {
        RedactOne(tokens, data);
        var tail := Redact(tokens, data[1..]);
        if OccursAt([data[0]] + tail, t, i) {
          OccursBehind([data[0]], tail, t, i);
          NoTokenAt(tokens, data[1..], t, i - 1);
        }
      }
    }
  }

  /** Bracket-free tokens never survive, on any input, exactly when none of them occurs in the
      replacement text itself. */
  lemma TokensNeverSurvive(tokens: seq<bytes>)
    requires forall t :: t in tokens ==> t != [] && BracketFree(t)
    ensures (forall data, t :: !Survives(tokens, data, t)) <==>
            (forall t :: t in tokens ==> !Occurs(REDACTED, t))
  {
    if t :| t in tokens && Occurs(REDACTED, t) {
      ReplacementCanLeak(tokens, t);
      assert Survives(tokens, t, t);
    } else {
      forall data, t
        ensures !Survives(tokens, data, t)
      {
        if t in tokens {
          TokenDoesNotSurvive(tokens, data, t);
        }
      }
    }
  }

  ghost predicate Survives(tokens: seq<bytes>, data: bytes, t: bytes) {
    t in tokens && Occurs(Redact(tokens, data), t)
  }

  lemma TokenDoesNotSurvive(tokens: seq<bytes>, data: bytes, t: bytes)
    requires t in tokens && t != [] && BracketFree(t) && !Occurs(REDACTED, t)
    ensures !Occurs(Redact(tokens, data), t)
  {
    forall i: nat
      ensures !OccursAt(Redact(tokens, data), t, i)
    {
      NoTokenAt(tokens, data, t, i);
    }
  }

  lemma ReplacementCanLeak(tokens: seq<bytes>, t: bytes)
    requires t in tokens && t != [] && Occurs(REDACTED, t)
    ensures Occurs(Redact(tokens, t), t)
  {
    assert StartsWith(t, t);
    var i: nat :| OccursAt(REDACTED, t, i);
    var tail := Redact(tokens, t[|MatchHere(tokens, t)|..]);
    OccursBefore(REDACTED, tail, t, i);
  }

  lemma OccursBefore(a: bytes, b: bytes, t: bytes, i: nat)
    requires OccursAt(a, t, i)
    ensures Occurs(a + b, t)
  {
    assert (a + b)[i..i + |t|] == a[i..i + |t|];
    assert OccursAt(a + b, t, i);
  }

  // ---- configurable tokens --------------------------------------------------------------------

  const MIN_TOKEN_LENGTH := 12

  predicate IsTokenChar(c: char) {
    || 'A' <= c <= 'Z' || 'a' <= c <= 'z' || '0' <= c <= '9'
    || c == '.' || c == '_' || c == '~' || c == '+' || c == '/' || c == '-'
  }

  /** The bearer token grammar of RFC 6750, section 2.1: one or more token characters, then padding. */
  predicate IsBearerToken(s: string) {
    s != [] && IsTokenChar(s[0]) && TokenTail(s[1..], false)
  }

  predicate TokenTail(s: string, padding: bool) {
    s == [] ||
    (if s[0] == '=' then TokenTail(s[1..], true) else !padding && IsTokenChar(s[0]) && TokenTail(s[1..], false))
  }

  lemma {:induction false} TailCharacters(s: string, padding: bool)
    requires TokenTail(s, padding)
    ensures forall c :: c in s ==> IsTokenChar(c) || c == '='
  {
    if s == [] {
    } else {
      TailCharacters(s[1..], s[0] == '=');
      assert s == [s[0]] + s[1..];
    }
  }

  lemma BearerCharacters(s: string)
    requires IsBearerToken(s)
    ensures forall c :: c in s ==> IsTokenChar(c) || c == '='
  {
    TailCharacters(s[1..], false);
    assert s == [s[0]] + s[1..];
  }

  /** Every token that the credential file may configure meets the condition: no configured token ever
      appears in a redacted stream. */
  lemma ConfiguredTokensNeverSurvive(configured: seq<string>, tokens: seq<bytes>, data: bytes, k: nat)
    requires forall s :: s in configured ==> IsBearerToken(s) && |s| >= MIN_TOKEN_LENGTH
    requires |tokens| == |configured|
    requires forall i :: 0 <= i < |tokens| ==> IsEncoding(configured[i], tokens[i])
    requires k < |tokens|
    ensures !Occurs(Redact(tokens, data), tokens[k])
  {
    EncodedTokenIsSafe(configured[k], tokens[k]);
    TokenDoesNotSurvive(tokens, data, tokens[k]);
  }

  lemma EncodedTokenIsSafe(s: string, t: bytes)
    requires IsBearerToken(s) && |s| >= MIN_TOKEN_LENGTH && IsEncoding(s, t)
    ensures t != [] && BracketFree(t) && !Occurs(REDACTED, t)
  {
    BearerCharacters(s);
    forall j | 0 <= j < |t|
      ensures t[j] != OPEN && t[j] != CLOSE
    {
      assert s[j] in s;
    }
  }

  /** ASCII text and its bytes. */
  ghost predicate IsEncoding(s: string, t: bytes) {
    |t| == |s| && forall i :: 0 <= i < |s| ==> t[i] as int == s[i] as int
  }
}
